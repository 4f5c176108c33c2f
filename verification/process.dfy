/** The statement pipeline without its I/O: the fixed test-mode result, and
    the post-processing that masks the account number, normalises the
    balance figures, reconciles them and builds the quality report. The
    model extraction and the insights request are inputs: `extracted` and
    `insights` are whatever those calls returned. */
module Process {
  import opened Wrappers
  import opened Json
  import opened Utils

  // ---------------------------------------------------------------------
  // The test-mode fixture
  // ---------------------------------------------------------------------

  const MockAccount: map<string, Value> := map[
    "bank_name" := Str("HDFC Bank"),
    "account_holder_name" := Str("BARATH R"),
    "masked_account_number" := Str("****1234"),
    "statement_month" := Str("October"),
    "statement_year" := Int(2025),
    "account_type" := Str("savings")]

  const MockSummary: map<string, Value> := map[
    "opening_balance" := Float(15000.0),
    "closing_balance" := Float(17350.0),
    "total_credits" := Float(9000.0),
    "total_debits" := Float(6650.0),
    "average_daily_balance" := Float(16200.0),
    "overdraft_count" := Int(0),
    "nsf_count" := Int(0)]

  function MockTransaction(date: string, description: string, amount: real, balance: real, category: string): Value {
    Obj(map["date" := Str(date), "description" := Str(description), "amount" := Float(amount),
            "balance" := Float(balance), "category" := Str(category)])
  }

  const MockTransactions: seq<Value> := [
    MockTransaction("2025-10-01", "Salary UPI", 9000.0, 24000.0, "Income"),
    MockTransaction("2025-10-03", "ATM Withdrawal", -2000.0, 22000.0, "ATM Cash"),
    MockTransaction("2025-10-12", "Swiggy", -350.0, 21650.0, "Food")]

  const MockFields: map<string, Value> := map[
    "account_info" := Obj(MockAccount),
    "summary" := Obj(MockSummary),
    "transactions" := Arr(MockTransactions)]

  const MockQuality: map<string, Value> := map[
    "warnings" := Arr([]),
    "duplicates_detected" := Bool(false),
    "gemini_extraction_used" := Bool(false)]

  /** `_mock_result`. */
  const MockResult: Value := Obj(map[
    "fields" := Obj(MockFields),
    "insights" := Arr([
      Str("Account maintained > ₹15,000 average balance in Oct."),
      Str("Incoming salary detected on 1 Oct; consider auto-sweep to FD."),
      Str("Cash withdrawals low; UPI preferred.")]),
    "quality" := Obj(MockQuality)])

  // ---------------------------------------------------------------------
  // Post-processing
  // ---------------------------------------------------------------------

  /** The summary figures that are normalised, in order. */
  const BalanceKeys: seq<string> :=
    ["opening_balance", "closing_balance", "total_credits", "total_debits", "average_daily_balance"]

  /** A summary figure after `normalize_amount`: a float, or `None`. */
  function Normalized(v: Value): (r: Value)
    ensures r.Float? || r.Null?
    ensures IsNumber(v) ==> r.Float?
  {
    match NormalizeAmount(v)
    case Some(x) => Float(x)
    case None => Null
  }

  /** A normalised figure stays as it is when normalised again. */
  lemma NormalizedIdempotent(v: Value)
    ensures Normalized(Normalized(v)) == Normalized(v)
  {
  }

  /** The loop over the balance keys: each key present is replaced by its
      normalised value, absent keys stay absent and every other entry is
      untouched. A key listed twice is normalised twice, to the same value. */
  function NormalizeKeys(summary: map<string, Value>, keys: seq<string>): (r: map<string, Value>)
    ensures r.Keys == summary.Keys
    ensures forall k :: k in summary && k !in keys ==> r[k] == summary[k]
    ensures forall k :: k in summary && k in keys ==> r[k] == Normalized(summary[k])
    decreases |keys|
  {
    if |keys| == 0 then summary
    else
      var k := keys[0];
      var once := if k in summary then summary[k := Normalized(summary[k])] else summary;
      var rest := keys[1..];
      assert keys == [k] + rest;
      var r := NormalizeKeys(once, rest);
      assert forall j :: j in summary && j !in keys ==> r[j] == summary[j] by {
        forall j | j in summary && j !in keys
          ensures r[j] == summary[j]
        {
          assert j != k && j !in rest;
        }
      }
      assert forall j :: j in summary && j in keys ==> r[j] == Normalized(summary[j]) by {
        forall j | j in summary && j in keys
          ensures r[j] == Normalized(summary[j])
        {
          if j == k {
            NormalizedIdempotent(summary[k]);
          } else {
            assert j in rest;
          }
        }
      }
      r
  }

  /** `fields.get("account_info", {}) or {}`. */
  function AccountOf(fields: map<string, Value>): Value {
    Or(Get(fields, "account_info", EmptyObj), EmptyObj)
  }

  /** The account step goes through: asking whether the account information
      holds `account_number` does not raise, and when it does hold one the
      account information is a mapping whose number can be masked. */
  predicate AccountStepPasses(fields: map<string, Value>) {
    var acct := AccountOf(fields);
    && Contains(acct, "account_number").Some?
    && (Contains(acct, "account_number") == Some(true) ==>
          acct.Obj? && MaskNumber(acct.fields["account_number"]).Some?)
  }

  /** The masking statement: the fields with the account information written
      back, and that account information. When `account_number` is in it,
      the account information is a mapping that now also holds the mask;
      otherwise nothing changes. `None` when the step raises: the membership
      test on a number or a boolean, `.get` on a string or a list, or the
      masking itself. */
  function AccountStep(fields: map<string, Value>): (r: Option<(map<string, Value>, Value)>)
    ensures r.Some? <==> AccountStepPasses(fields)
    ensures r.Some? ==> r.value.0.Keys == fields.Keys
    ensures r.Some? ==> forall k :: k in fields && k != "account_info" ==> r.value.0[k] == fields[k]
    ensures r.Some? ==> r.value.0 == fields || ("account_info" in fields && r.value.0["account_info"] == r.value.1)
  {
    var acct := AccountOf(fields);
    match Contains(acct, "account_number")
    case None => None
    case Some(found) =>
      if !found then Some((fields, acct))
      else if !acct.Obj? then None
      else match MaskNumber(acct.fields["account_number"])
        case None => None
        case Some(m) =>
          var masked := Obj(acct.fields["masked_account_number" := Str(m)]);
          Some((fields["account_info" := masked], masked))
  }

  /** The summary's mismatch flag is true. */
  predicate FlagSet(s: map<string, Value>) {
    Flag in s && s[Flag] == Bool(true)
  }

  /** The normalised summary and the account information stored into the
      fields. */
  function WriteBack(fields: map<string, Value>, n: map<string, Value>, acct: Value): (r: map<string, Value>)
    ensures r.Keys == fields.Keys + {"summary", "account_info"}
    ensures forall k :: k in fields && k != "summary" && k != "account_info" ==> r[k] == fields[k]
    ensures r["summary"] == Obj(n) && r["account_info"] == acct
  {
    fields["summary" := Obj(n)]["account_info" := acct]
  }

  /** Writing back what is already there changes nothing. */
  lemma WriteBackSame(fields: map<string, Value>, n: map<string, Value>, acct: Value)
    requires "summary" in fields && fields["summary"] == Obj(n)
    requires "account_info" in fields && fields["account_info"] == acct
    ensures WriteBack(fields, n, acct) == fields
  {
    var r := WriteBack(fields, n, acct);
    assert r.Keys == fields.Keys;
  }

  /** The rest of the block on a mapping summary `s`: the balance figures
      normalised, summary and account information written back, and the
      balances validated on the normalised summary. */
  function SummaryStep(fields: map<string, Value>, acct: Value, s: map<string, Value>): (r: map<string, Value>)
    ensures r.Keys == fields.Keys + {"summary", "account_info"}
    ensures forall k :: k in fields && k != "summary" && k != "account_info" ==> r[k] == fields[k]
    ensures r["account_info"] == acct
  {
    var written := WriteBack(fields, NormalizeKeys(s, BalanceKeys), acct);
    match ValidateBalances(written)
    case Some(v) => assert "account_info" != "summary"; v
    case None => written
  }

  /** The summary the step leaves is the normalised one, with the mismatch
      flag set exactly when it was already set or the normalised balances
      do not reconcile. */
  lemma SummaryStepValidates(fields: map<string, Value>, acct: Value, s: map<string, Value>)
    ensures SummaryStep(fields, acct, s)["summary"].Obj?
    ensures OnlyFlagAdded(NormalizeKeys(s, BalanceKeys), SummaryStep(fields, acct, s)["summary"].fields)
    ensures FlagSet(SummaryStep(fields, acct, s)["summary"].fields) <==>
              FlagSet(s) || Mismatch(NormalizeKeys(s, BalanceKeys)) == Some(true)
  {
    var n := NormalizeKeys(s, BalanceKeys);
    NormalizedTotalsConvert(s);
    FlagNotNormalized(s);
    var off := Mismatch(n).value;
    SummaryStepIs(fields, acct, s, off);
    FlagSetAfter(n, off);
  }

  /** Validation of a written-back summary whose balances convert sets the
      flag as the comparison says. */
  lemma SummaryStepIs(fields: map<string, Value>, acct: Value, s: map<string, Value>, off: bool)
    requires Mismatch(NormalizeKeys(s, BalanceKeys)) == Some(off)
    ensures SummaryStep(fields, acct, s)["summary"] == Obj(Utils.Flagged(NormalizeKeys(s, BalanceKeys), off))
  {
    var n := NormalizeKeys(s, BalanceKeys);
    ValidatedWriteBack(fields, acct, n, off);
  }

  /** Validating a written-back summary whose balances convert. */
  lemma ValidatedWriteBack(fields: map<string, Value>, acct: Value, n: map<string, Value>, off: bool)
    requires Mismatch(n) == Some(off)
    ensures ValidateBalances(WriteBack(fields, n, acct)) ==
              Some(WriteBack(fields, n, acct)["summary" := Obj(Utils.Flagged(n, off))])
  {
    SummaryOfObj(WriteBack(fields, n, acct), n);
  }

  /** The flag is set after validation exactly when it was set before or
      the comparison failed. */
  lemma FlagSetAfter(n: map<string, Value>, off: bool)
    ensures FlagSet(Utils.Flagged(n, off)) <==> FlagSet(n) || off
  {
  }

  /** A mapping stored as the summary is what validation reads, the empty
      one included. */
  lemma SummaryOfObj(fields: map<string, Value>, n: map<string, Value>)
    requires "summary" in fields && fields["summary"] == Obj(n)
    ensures SummaryOf(fields) == Obj(n)
  {
    if |n| == 0 {
      assert n.Keys == {};
      assert n == map[];
    }
  }

  /** The flag is not one of the balance figures. */
  lemma FlagNotNormalized(s: map<string, Value>)
    ensures Flag !in BalanceKeys
    ensures Flag in s ==> Flag in NormalizeKeys(s, BalanceKeys) && NormalizeKeys(s, BalanceKeys)[Flag] == s[Flag]
  {
    assert Flag !in BalanceKeys by {
      forall k | 0 <= k < |BalanceKeys| ensures BalanceKeys[k] != Flag {
        assert |BalanceKeys[k]| < |Flag|;
      }
    }
  }

  /** After normalisation every total converts, so validation of the
      normalised summary never raises. */
  lemma NormalizedTotalsConvert(s: map<string, Value>)
    ensures Mismatch(NormalizeKeys(s, BalanceKeys)).Some?
  {
    var n := NormalizeKeys(s, BalanceKeys);
    assert "total_credits" in BalanceKeys && "total_debits" in BalanceKeys;
    assert ToFloat(Total(n, "total_credits")).Some?;
    assert ToFloat(Total(n, "total_debits")).Some?;
  }

  /** The loop over the balance keys on a summary that is not a mapping
      passes only when it finds none of them: `k in summary` raises on a
      number or a boolean, and a key found in a string or a list raises when
      the loop reads `summary[k]`. */
  predicate LoopPasses(v: Value) {
    forall k :: k in BalanceKeys ==> Contains(v, k) == Some(false)
  }

  /** The fields after the post-processing block: account information
      masked, summary figures normalised, balances validated. A statement
      that raises ends the block, and the writes made before it stay: a
      summary that is not a mapping is written back with the account
      information when the loop passes it, and then validation raises.
      Only `account_info` and `summary` can change; no key is removed. */
  function PostProcess(fields: map<string, Value>): (r: map<string, Value>)
    ensures fields.Keys <= r.Keys <= fields.Keys + {"summary", "account_info"}
    ensures forall k :: k in fields && k != "summary" && k != "account_info" ==> r[k] == fields[k]
  {
    match AccountStep(fields)
    case None => fields
    case Some((fields1, acct)) =>
      var sumV := SummaryOf(fields1);
      if sumV.Obj? then SummaryStep(fields1, acct, sumV.fields)
      else if LoopPasses(sumV) then fields1["summary" := sumV]["account_info" := acct]
      else fields1
  }

  /** `extracted.get("fields", {})` when the extraction is a mapping, else `{}`. */
  function FieldsOf(extracted: Value): (fv: Value)
    ensures !extracted.Obj? || "fields" !in extracted.fields ==> fv == EmptyObj
  {
    if extracted.Obj? then Get(extracted.fields, "fields", EmptyObj) else EmptyObj
  }

  /** The fields after the post-processing block: a mapping is processed,
      anything else makes the block raise at its first lookup and is kept. */
  function Processed(fv: Value): (out: Value)
    ensures !fv.Obj? ==> out == fv
    ensures fv.Obj? ==> out.Obj? && fv.fields.Keys <= out.fields.Keys
  {
    if fv.Obj? then Obj(PostProcess(fv.fields)) else fv
  }

  /** The result outside test mode: the processed fields, the insights
      call's `insights` entry and the quality report of the fields. */
  function Report(extracted: Value, insights: Value): (r: map<string, Value>)
    ensures r.Keys == {"fields", "insights", "quality"}
    ensures r["fields"] == Processed(FieldsOf(extracted))
    ensures r["quality"] == ComputeQuality(map["fields" := r["fields"]])
  {
    var out := Processed(FieldsOf(extracted));
    var ins := if insights.Obj? then Get(insights.fields, "insights", Arr([])) else Arr([]);
    map["fields" := out, "insights" := ins, "quality" := ComputeQuality(map["fields" := out])]
  }

  /** `process_bank_statement`: in test mode the fixture, whatever the other
      inputs; otherwise a result with exactly the keys `fields`, `insights`
      and `quality`, where `fields` is the extraction's, post-processed when
      it is a mapping. */
  function ProcessBankStatement(filePath: string, testMode: bool, extracted: Value, insights: Value): (r: Value)
    ensures testMode ==> r == MockResult
    ensures !testMode ==> r.Obj? && r.fields.Keys == {"fields", "insights", "quality"}
    ensures !testMode ==> r.fields["fields"] == Processed(FieldsOf(extracted))
    ensures !testMode ==> r.fields["quality"] == ComputeQuality(map["fields" := r.fields["fields"]])
  {
    if testMode then MockResult else Obj(Report(extracted, insights))
  }

  // ---------------------------------------------------------------------
  // Properties of the pipeline
  // ---------------------------------------------------------------------

  /** In test mode the fixture comes back unchanged whatever the path and
      the (unused) call results; its quality report has no warnings and
      claims no duplicates. */
  lemma TestModeFixture(filePath: string, extracted: Value, insights: Value)
    ensures ProcessBankStatement(filePath, true, extracted, insights) == MockResult
    ensures MockResult.fields["quality"].fields["warnings"] == Arr([])
    ensures MockResult.fields["quality"].fields["duplicates_detected"] == Bool(false)
  {
  }

  /** Validation of a summary that reconciles writes the same fields back. */
  lemma ValidateKeeps(fields: map<string, Value>, s: map<string, Value>)
    requires "summary" in fields && fields["summary"] == Obj(s)
    requires Mismatch(s) == Some(false)
    ensures ValidateBalances(fields) == Some(fields)
  {
    SummaryOfObj(fields, s);
    assert ValidateBalances(fields) == Some(fields["summary" := Obj(s)]);
    assert fields["summary" := Obj(s)] == fields;
  }

  /** The fixture's balances reconcile (15000 + 9000 - 6650 = 17350), so
      validation leaves its fields exactly as they are. */
  lemma MockReconciles()
    ensures ValidateBalances(MockFields) == Some(MockFields)
  {
    assert Total(MockSummary, "total_credits") == Float(9000.0);
    assert Total(MockSummary, "total_debits") == Float(6650.0);
    assert Mismatch(MockSummary) == Some(false);
    ValidateKeeps(MockFields, MockSummary);
  }

  /** Where the fixture keeps its summary and account information. */
  lemma MockLookups()
    ensures "summary" in MockFields && MockFields["summary"] == Obj(MockSummary)
    ensures "account_info" in MockFields && MockFields["account_info"] == Obj(MockAccount)
    ensures "account_number" !in MockAccount
  {
  }

  /** Figures that are already floats are left as they are. */
  lemma FloatsStay(s: map<string, Value>, keys: seq<string>)
    requires forall k :: k in keys && k in s ==> s[k].Float?
    ensures NormalizeKeys(s, keys) == s
  {
    var n := NormalizeKeys(s, keys);
    forall k | k in s
      ensures n[k] == s[k]
    {
      if k in keys {
        assert s[k].Float?;
      }
    }
  }

  /** The fixture's figures are already floats, so normalising leaves its
      summary as it is. */
  lemma MockNormalized()
    ensures NormalizeKeys(MockSummary, BalanceKeys) == MockSummary
  {
    forall k | k in BalanceKeys && k in MockSummary
      ensures MockSummary[k].Float?
    {
    }
    FloatsStay(MockSummary, BalanceKeys);
  }

  /** The fixture has no raw account number: the account step passes it
      through. */
  lemma MockAccountStep()
    ensures AccountStep(MockFields) == Some((MockFields, Obj(MockAccount)))
  {
    MockLookups();
    PassedThrough(MockFields, MockAccount);
  }

  /** Account information without a number passes the account step
      untouched. */
  lemma PassedThrough(fields: map<string, Value>, acct: map<string, Value>)
    requires "account_info" in fields && fields["account_info"] == Obj(acct)
    requires "account_number" !in acct
    ensures AccountStep(fields) == Some((fields, Obj(acct)))
  {
    if |acct| == 0 {
      assert acct == map[] by {
        assert acct.Keys == {};
      }
    }
    assert AccountOf(fields) == Obj(acct);
  }

  /** Fields the account step passes through, whose summary is a mapping
      normalisation and validation leave alone, come out of the block as
      they went in. */
  lemma PostProcessFixed(fields: map<string, Value>, acct: map<string, Value>, s: map<string, Value>)
    requires AccountStep(fields) == Some((fields, Obj(acct)))
    requires "summary" in fields && fields["summary"] == Obj(s)
    requires "account_info" in fields && fields["account_info"] == Obj(acct)
    requires NormalizeKeys(s, BalanceKeys) == s
    requires ValidateBalances(fields) == Some(fields)
    ensures PostProcess(fields) == fields
  {
    SummaryOfObj(fields, s);
    WriteBackSame(fields, s, Obj(acct));
  }

  /** Post-processing the fixture's fields changes nothing: its figures are
      already floats, it has no raw account number and it reconciles. */
  lemma MockIsFixedPoint()
    ensures PostProcess(MockFields) == MockFields
  {
    MockAccountStep();
    MockNormalized();
    MockLookups();
    MockReconciles();
    PostProcessFixed(MockFields, MockAccount, MockSummary);
  }

  /** A present `account_number` that can be masked (a string always can)
      is masked into `masked_account_number`, the raw number is left in
      place, and the result survives the rest of the block. */
  lemma MaskedWhenPresent(fields: map<string, Value>, acct: map<string, Value>, m: string)
    requires "account_info" in fields && fields["account_info"] == Obj(acct)
    requires "account_number" in acct && MaskNumber(acct["account_number"]) == Some(m)
    ensures "account_info" in PostProcess(fields)
    ensures PostProcess(fields)["account_info"] == Obj(acct["masked_account_number" := Str(m)])
  {
    assert AccountOf(fields) == Obj(acct);
  }

  /** Without an `account_number` the account information is not touched,
      whatever `masked_account_number` it holds. */
  lemma UnmaskedWhenAbsent(fields: map<string, Value>, acct: map<string, Value>)
    requires "account_info" in fields && fields["account_info"] == Obj(acct)
    requires "account_number" !in acct
    ensures "account_info" in PostProcess(fields) && PostProcess(fields)["account_info"] == Obj(acct)
  {
    if |acct| == 0 {
      assert acct == map[];
    }
  }

  /** The account step does not touch the summary. */
  lemma AccountStepKeepsSummary(fields: map<string, Value>)
    requires AccountStepPasses(fields)
    ensures SummaryOf(AccountStep(fields).value.0) == SummaryOf(fields)
  {
    var f1 := AccountStep(fields).value.0;
    assert Get(f1, "summary", EmptyObj) == Get(fields, "summary", EmptyObj);
  }

  /** Validation sees the normalised summary: the summary left is the
      normalised one, with the mismatch flag true exactly when it already
      was or the normalised balances do not reconcile. */
  lemma ValidatedAfterNormalizing(fields: map<string, Value>, s: map<string, Value>)
    requires AccountStepPasses(fields) && SummaryOf(fields) == Obj(s)
    ensures "summary" in PostProcess(fields) && PostProcess(fields)["summary"].Obj?
    ensures OnlyFlagAdded(NormalizeKeys(s, BalanceKeys), PostProcess(fields)["summary"].fields)
    ensures FlagSet(PostProcess(fields)["summary"].fields) <==>
              FlagSet(s) || Mismatch(NormalizeKeys(s, BalanceKeys)) == Some(true)
  {
    var step := AccountStep(fields).value;
    AccountStepKeepsSummary(fields);
    SummaryStepValidates(step.0, step.1, s);
  }

  /** The summary after post-processing: only the five balance figures are
      normalised, and only those present; nothing is added except possibly
      the mismatch flag, and other entries keep their values. */
  lemma SummaryNormalized(fields: map<string, Value>, s: map<string, Value>)
    requires AccountStepPasses(fields) && SummaryOf(fields) == Obj(s)
    ensures "summary" in PostProcess(fields) && PostProcess(fields)["summary"].Obj?
    ensures s.Keys <= PostProcess(fields)["summary"].fields.Keys <= s.Keys + {Flag}
    ensures forall k :: k in s && k in BalanceKeys ==> PostProcess(fields)["summary"].fields[k] == Normalized(s[k])
    ensures forall k :: k in s && k !in BalanceKeys && k != Flag ==> PostProcess(fields)["summary"].fields[k] == s[k]
  {
    ValidatedAfterNormalizing(fields, s);
    FlagNotNormalized(s);
    var n := NormalizeKeys(s, BalanceKeys);
    var out := PostProcess(fields)["summary"].fields;
    assert OnlyFlagAdded(n, out);
    forall k | k in s && k in BalanceKeys
      ensures out[k] == Normalized(s[k])
    {
      KeptBesideFlag(n, out, k);
    }
  }

  /** A key other than the flag keeps its value when only the flag is added. */
  lemma KeptBesideFlag(before: map<string, Value>, after: map<string, Value>, k: string)
    requires OnlyFlagAdded(before, after) && k in before && k != Flag
    ensures k in after && after[k] == before[k]
  {
  }

  /** A failing account step abandons the whole block: nothing changes. */
  lemma AccountStepRaises(fields: map<string, Value>)
    requires !AccountStepPasses(fields)
    ensures PostProcess(fields) == fields
  {
  }

  /** Account information that is a non-empty string or list without
      `account_number` in it passes the account step untouched: the
      membership test on it does not raise. */
  lemma AccountNotAMapping(fields: map<string, Value>, v: Value)
    requires "account_info" in fields && fields["account_info"] == v
    requires (v.Str? || v.Arr?) && Truthy(v) && Contains(v, "account_number") == Some(false)
    ensures AccountStep(fields) == Some((fields, v))
  {
    assert AccountOf(fields) == v;
  }

  /** Account information given as a short text, such as `"HDFC"`, does
      not stop the block: the text cannot hold `account_number`, so the
      summary is still normalised and validated, and the text is written
      back as it was. */
  lemma ShortTextAccountInfo(fields: map<string, Value>, s: map<string, Value>, t: string)
    requires "account_info" in fields && fields["account_info"] == Str(t) && 0 < |t| < 14
    requires "summary" in fields && fields["summary"] == Obj(s)
    ensures "account_info" in PostProcess(fields) && PostProcess(fields)["account_info"] == Str(t)
    ensures "summary" in PostProcess(fields) && PostProcess(fields)["summary"].Obj?
    ensures s.Keys <= PostProcess(fields)["summary"].fields.Keys
    ensures forall k :: k in s && k in BalanceKeys ==> PostProcess(fields)["summary"].fields[k] == Normalized(s[k])
  {
    ContainsText("", "account_number", "", t);
    AccountNotAMapping(fields, Str(t));
    SummaryOfObj(fields, s);
    AccountKept(fields, Str(t));
    SummaryNormalized(fields, s);
  }

  /** Account information the account step passes through is written back
      as it was when the summary is a mapping. */
  lemma AccountKept(fields: map<string, Value>, v: Value)
    requires AccountStep(fields) == Some((fields, v)) && SummaryOf(fields).Obj?
    ensures "account_info" in PostProcess(fields) && PostProcess(fields)["account_info"] == v
  {
  }

  /** A summary the loop finds a balance key in, but cannot index (a
      string or a list), or cannot search (a number or a boolean), ends the
      block after the account step: its write stays, nothing else happens. */
  lemma SummaryLoopRaises(fields: map<string, Value>)
    requires AccountStepPasses(fields)
    requires !SummaryOf(fields).Obj? && !LoopPasses(SummaryOf(fields))
    ensures PostProcess(fields) == AccountStep(fields).value.0
  {
    AccountStepKeepsSummary(fields);
  }

  /** A text summary that names no balance key passes the loop; both writes
      happen before validation raises, so fields without account
      information gain an empty one and keep their summary. */
  lemma TextSummaryWritten(fields: map<string, Value>, t: string)
    requires "account_info" !in fields
    requires "summary" in fields && fields["summary"] == Str(t) && |t| > 0
    requires LoopPasses(Str(t))
    ensures PostProcess(fields) == fields["account_info" := EmptyObj]
  {
    assert AccountOf(fields) == EmptyObj;
    assert AccountStep(fields) == Some((fields, EmptyObj));
    assert SummaryOf(fields) == Str(t);
    assert fields["summary" := Str(t)] == fields;
  }

  /** A text shorter than every balance key names none of them. */
  lemma ShortTextPassesLoop(t: string)
    requires |t| < 12
    ensures LoopPasses(Str(t))
  {
    forall k | k in BalanceKeys
      ensures Contains(Str(t), k) == Some(false)
    {
      ContainsText("", k, "", t);
    }
  }

  /** Empty fields come out of the block with an empty summary and empty
      account information written into them. */
  lemma EmptyFieldsProcessed(e: map<string, Value>)
    requires |e| == 0
    ensures PostProcess(e) == map["summary" := EmptyObj, "account_info" := EmptyObj]
  {
    EmptyAccountStep(e);
    EmptySummaryStep(e);
    assert e == map[] by {
      assert e.Keys == {};
    }
  }

  /** With no account information the account step passes the fields
      through, and the summary read is the empty one. */
  lemma EmptyAccountStep(e: map<string, Value>)
    requires |e| == 0
    ensures AccountStep(e) == Some((e, Obj(e))) && SummaryOf(e) == Obj(e)
  {
    assert e == map[] by {
      assert e.Keys == {};
    }
    assert AccountOf(e) == Obj(e);
  }

  /** An empty summary is normalised and validated into itself. */
  lemma EmptySummaryStep(e: map<string, Value>)
    requires |e| == 0
    ensures SummaryStep(e, Obj(e), e) == map["summary" := Obj(e), "account_info" := Obj(e)]
  {
    FloatsStay(e, BalanceKeys);
    EmptyReconciles(e);
    SummaryStepIs(e, Obj(e), e, false);
    EmptyStepKeys(e);
    TwoEntries(SummaryStep(e, Obj(e), e), "summary", "account_info", Obj(e), Obj(e));
  }

  /** Empty fields gain exactly the summary and the account information. */
  lemma EmptyStepKeys(e: map<string, Value>)
    requires |e| == 0
    ensures SummaryStep(e, Obj(e), e).Keys == {"summary", "account_info"}
  {
    assert e.Keys == {};
  }

  /** A mapping with exactly two keys is the display of its two entries. */
  lemma TwoEntries(m: map<string, Value>, a: string, b: string, x: Value, y: Value)
    requires m.Keys == {a, b} && m[a] == x && m[b] == y
    ensures m == map[a := x, b := y]
  {
    assert m.Keys == map[a := x, b := y].Keys;
  }

  /** An empty summary has no balances to compare. */
  lemma EmptyReconciles(e: map<string, Value>)
    requires |e| == 0
    ensures Mismatch(e) == Some(false)
  {
    assert "opening_balance" !in e;
  }

  /** The empty fields the pipeline falls back on, processed; they still
      hold no transactions. */
  lemma EmptyProcessed(v: Value)
    requires v.Obj? && |v.fields| == 0
    ensures Processed(v) == Obj(map["summary" := EmptyObj, "account_info" := EmptyObj])
    ensures !Truthy(Get(map["summary" := EmptyObj, "account_info" := EmptyObj], "transactions", Arr([])))
  {
    EmptyFieldsProcessed(v.fields);
  }

  /** An extraction result that is not a mapping, or has no `fields`, is
      processed as empty fields: the block writes an empty summary and
      account information, and the report warns that no transactions were
      extracted. */
  lemma MissingFields(filePath: string, extracted: Value, insights: Value)
    requires !extracted.Obj? || "fields" !in extracted.fields
    ensures var r := ProcessBankStatement(filePath, false, extracted, insights);
            && r.fields["fields"] == Obj(map["summary" := EmptyObj, "account_info" := EmptyObj])
            && r.fields["quality"].fields["warnings"] == Arr([Str(NoTransactions)])
  {
    EmptyProcessed(FieldsOf(extracted));
    QualityWithoutTransactions(map["summary" := EmptyObj, "account_info" := EmptyObj]);
  }

  /** Fields that are present but not a mapping pass through untouched, and
      the report warns about the structure. */
  lemma FieldsNotAMapping(filePath: string, extracted: Value, insights: Value)
    requires extracted.Obj? && "fields" in extracted.fields && !extracted.fields["fields"].Obj?
    ensures var r := ProcessBankStatement(filePath, false, extracted, insights);
            && r.fields["fields"] == extracted.fields["fields"]
            && r.fields["quality"].fields["warnings"] == Arr([Str(UnexpectedStructure)])
  {
  }

  /** `insights` is the insights call's `insights` entry, or `[]` when the
      result is not a mapping or has none. */
  lemma InsightsOfResult(filePath: string, extracted: Value, insights: Value)
    ensures var r := ProcessBankStatement(filePath, false, extracted, insights);
            r.fields["insights"] == if insights.Obj? && "insights" in insights.fields then insights.fields["insights"] else Arr([])
  {
  }
}
