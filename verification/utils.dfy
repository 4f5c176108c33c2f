/** The statement post-processing helpers: account-number masking, amount
    normalisation, balance reconciliation and the quality report. Each works
    on decoded JSON values and never raises except where noted; a raised
    exception is an `Option` that is `None`. */
module Utils {
  import opened Wrappers
  import opened Chars
  import opened Decimal
  import opened Json

  // ---------------------------------------------------------------------
  // mask_account_number
  // ---------------------------------------------------------------------

  /** Four asterisks, followed by the last four digits of `s` when it has at
      least four. Total: any string can be masked. */
  function Mask(s: string): (r: string)
    ensures |r| == 4 || |r| == 8
    ensures r[..4] == "****"
    ensures |r| == 8 <==> |Digits(s)| >= 4
    ensures forall k :: 4 <= k < |r| ==> IsDigit(r[k])
  {
    var d := Digits(s);
    if |d| >= 4 then "****" + d[|d| - 4..] else "****"
  }

  /** The digits a mask shows are the final digits of its input, in order:
      the input's digits are some prefix followed by the shown ones. */
  lemma MaskShowsLastDigits(s: string)
    ensures exists p :: Digits(s) == p + Mask(s)[4..]
    ensures |Digits(s)| >= 4 ==> |Mask(s)[4..]| == 4
  {
    var d := Digits(s);
    if |d| >= 4 {
      assert d == d[..|d| - 4] + Mask(s)[4..];
    } else {
      assert d == d + Mask(s)[4..];
    }
  }

  /** Only the last four digits matter: whatever comes before a tail with
      four or more digits, the mask is the tail's. */
  lemma MaskOfTail(a: string, b: string)
    requires |Digits(b)| >= 4
    ensures Mask(a + b) == Mask(b)
  {
    DigitsAppend(a, b);
    var da, db := Digits(a), Digits(b);
    assert (da + db)[|da + db| - 4..] == db[|db| - 4..];
  }

  /** Masking a mask changes nothing. */
  lemma MaskIdempotent(s: string)
    ensures Mask(Mask(s)) == Mask(s)
  {
    var m := Mask(s);
    assert Digits("****") == [];
    DigitsAppend("****", m[4..]);
    DigitsOfDigits(m[4..]);
    assert m == "****" + m[4..];
  }

  /** `c.isdigit()` for a string `c`: non-empty and made of digits only. */
  predicate IsDigitText(c: string) {
    |c| > 0 && AllDigits(c)
  }

  /** The all-digit strings among `parts`, in order. */
  function DigitParts(parts: seq<string>): (d: seq<string>)
    ensures |d| <= |parts|
    ensures forall k :: 0 <= k < |d| ==> IsDigitText(d[k])
  {
    if |parts| == 0 then []
    else (if IsDigitText(parts[0]) then [parts[0]] else []) + DigitParts(parts[1..])
  }

  /** `"".join(parts)`. */
  function Join(parts: seq<string>): string {
    if |parts| == 0 then "" else parts[0] + Join(parts[1..])
  }

  /** `mask_account_number` on a sequence of strings: four asterisks, then
      the last four all-digit elements joined when there are at least four.
      An element may hold several digits, so the mask can be longer than
      eight characters. */
  function MaskParts(parts: seq<string>): string {
    var d := DigitParts(parts);
    if |d| >= 4 then "****" + Join(d[|d| - 4..]) else "****"
  }

  /** The one-character strings of `s`: what iterating a string yields. */
  function CharParts(s: string): (ps: seq<string>)
    ensures |ps| == |s|
    ensures forall k :: 0 <= k < |s| ==> ps[k] == [s[k]]
  {
    seq(|s|, k requires 0 <= k < |s| => [s[k]])
  }

  /** Masking a string is masking the sequence of its characters. */
  lemma MaskOfCharParts(s: string)
    ensures MaskParts(CharParts(s)) == Mask(s)
  {
    var d := Digits(s);
    DigitPartsOfChars(s);
    if |d| >= 4 {
      assert CharParts(d)[|d| - 4..] == CharParts(d[|d| - 4..]);
      JoinChars(d[|d| - 4..]);
    }
  }

  lemma {:induction false} DigitPartsOfChars(s: string)
    ensures DigitParts(CharParts(s)) == CharParts(Digits(s))
    decreases |s|
  {
    if |s| > 0 {
      assert CharParts(s)[1..] == CharParts(s[1..]);
      DigitPartsOfChars(s[1..]);
      assert CharParts(s)[0][0] == s[0];
      if IsDigit(s[0]) {
        assert IsDigitText(CharParts(s)[0]);
        assert CharParts([s[0]] + Digits(s[1..])) == [[s[0]]] + CharParts(Digits(s[1..]));
      } else {
        assert !IsDigitText(CharParts(s)[0]);
      }
    }
  }

  lemma {:induction false} JoinChars(s: string)
    ensures Join(CharParts(s)) == s
    decreases |s|
  {
    if |s| > 0 {
      assert CharParts(s)[1..] == CharParts(s[1..]);
      JoinChars(s[1..]);
      assert s == [s[0]] + s[1..];
    }
  }

  /** Whatever precedes them, four all-digit elements at the end are joined
      into the mask whole. */
  lemma MaskOfLastParts(pre: seq<string>, last: seq<string>)
    requires |last| == 4 && forall k :: 0 <= k < 4 ==> IsDigitText(last[k])
    ensures MaskParts(pre + last) == "****" + Join(last)
  {
    DigitPartsAppend(pre, last);
    DigitPartsKeep(last);
    var d := DigitParts(pre + last);
    assert d[|d| - 4..] == last;
  }

  lemma {:induction false} DigitPartsAppend(a: seq<string>, b: seq<string>)
    ensures DigitParts(a + b) == DigitParts(a) + DigitParts(b)
    decreases |a|
  {
    if |a| == 0 {
      assert a + b == b;
    } else {
      assert (a + b)[1..] == a[1..] + b;
      DigitPartsAppend(a[1..], b);
    }
  }

  lemma {:induction false} DigitPartsKeep(ps: seq<string>)
    requires forall k :: 0 <= k < |ps| ==> IsDigitText(ps[k])
    ensures DigitParts(ps) == ps
    decreases |ps|
  {
    if |ps| > 0 {
      DigitPartsKeep(ps[1..]);
    }
  }

  /** The strings of a list all of whose elements are strings. */
  function Texts(items: seq<Value>): (ts: seq<string>)
    requires forall k :: 0 <= k < |items| ==> items[k].Str?
    ensures |ts| == |items|
    ensures forall k :: 0 <= k < |items| ==> items[k] == Str(ts[k])
  {
    seq(|items|, k requires 0 <= k < |items| => items[k].s)
  }

  /** The all-digit keys of a dictionary. */
  function DigitKeys(m: map<string, Value>): set<string> {
    set k | k in m && IsDigitText(k)
  }

  /** `mask_account_number` on whatever JSON value the account number is:
      a string is masked by its digit characters, a list of strings by its
      all-digit elements and a dictionary by its all-digit keys. Iterating a
      number, a boolean or `None` raises, and so does `isdigit` on a list
      element that is not a string; `None` stands for both. A dictionary
      with four or more all-digit keys is `None` as well: which four it
      shows depends on the key order, which the model does not keep. */
  function MaskNumber(v: Value): (r: Option<string>)
    ensures v.Str? ==> r == Some(Mask(v.s))
    ensures v.Arr? ==> (r.Some? <==> forall k :: 0 <= k < |v.items| ==> v.items[k].Str?)
    ensures v.Obj? && |DigitKeys(v.fields)| < 4 ==> r == Some("****")
    ensures v.Null? || v.Bool? || v.Int? || v.Float? ==> r.None?
  {
    match v
    case Str(t) => Some(Mask(t))
    case Arr(items) =>
      if forall k :: 0 <= k < |items| ==> items[k].Str? then Some(MaskParts(Texts(items))) else None
    case Obj(m) => if |DigitKeys(m)| < 4 then Some("****") else None
    case _ => None
  }

  /** A list of one-character strings is masked as the string they spell. */
  lemma MaskOfCharList(s: string)
    ensures MaskNumber(Arr(Strs(CharParts(s)))) == Some(Mask(s))
  {
    var items := Strs(CharParts(s));
    assert Texts(items) == CharParts(s);
    MaskOfCharParts(s);
  }

  // ---------------------------------------------------------------------
  // normalize_amount
  // ---------------------------------------------------------------------

  /** The characters deleted before parsing: thousands separators and the
      rupee, dollar and euro signs. */
  const Ignored: set<char> := {',', '₹', '$', '€'}

  /** A string amount with separators and currency signs deleted and
      surrounding whitespace stripped. */
  function Cleaned(s: string): string {
    Strip(Remove(s, Ignored))
  }

  /** `normalize_amount`: numbers (booleans included) become floats; strings
      are parsed after cleaning; anything else, and any string that does not
      parse, yields `None`. */
  function NormalizeAmount(v: Value): (r: Option<real>)
    ensures IsNumber(v) ==> r.Some?
    ensures v.Int? ==> r == Some(v.i as real)
    ensures v.Float? ==> r == Some(v.r)
    ensures v.Bool? ==> r == Some(if v.b then 1.0 else 0.0)
    ensures v.Null? || v.Arr? || v.Obj? ==> r.None?
  {
    match v
    case Str(s) => FloatOfString(Cleaned(s))
    case _ => ToFloat(v)
  }

  /** Any string whose cleaned form is a decimal numeral normalises to the
      numeral's value. */
  lemma NormalizeNumeral(s: string, n: Numeral)
    requires n.Valid() && Cleaned(s) == n.Render()
    ensures NormalizeAmount(Str(s)) == Some(n.Value())
  {
    FloatOfRender(n);
  }

  /** Conversely, a string that normalises to `x` is, once cleaned, a decimal
      numeral whose value is `x`. */
  lemma NormalizeSound(s: string)
    requires NormalizeAmount(Str(s)).Some?
    ensures exists n: Numeral :: n.Valid() && n.Render() == Cleaned(s) && n.Value() == NormalizeAmount(Str(s)).value
  {
    var c := Cleaned(s);
    StripIdempotent(Remove(s, Ignored));
    assert NormalizeAmount(Str(s)) == FloatOfString(c);
    var n := Scan(c).value;
    assert n.Value() == FloatOfString(c).value;
    assert n.Valid() && n.Render() == c;
  }

  /** An empty or unparseable amount yields `None`, and nothing is raised. */
  lemma NormalizeEmpty()
    ensures NormalizeAmount(Str("")) == None
    ensures NormalizeAmount(Str("₹")) == None
  {
    EmptyIsNotANumber("");
    assert Remove("₹", Ignored) == "";
  }

  /** Separators and currency signs are ignored wherever they stand. */
  lemma IgnoredAnywhere(a: string, c: char, b: string)
    requires c in Ignored
    ensures Cleaned(a + [c] + b) == Cleaned(a + b)
  {
    RemoveAppend(a + [c], b, Ignored);
    RemoveAppend(a, [c], Ignored);
    RemoveAppend(a, b, Ignored);
    assert [c][1..] == [];
    assert Remove([c], Ignored) == [];
    assert Remove(a + [c], Ignored) == Remove(a, Ignored);
    assert Remove(a + [c] + b, Ignored) == Remove(a + b, Ignored);
  }

  /** A leading currency sign is ignored: `"₹" + t` normalises as `t` does. */
  lemma NormalizeCurrency(c: char, t: string)
    requires c in Ignored
    ensures NormalizeAmount(Str([c] + t)) == NormalizeAmount(Str(t))
  {
    IgnoredAnywhere([], c, t);
    assert [] + [c] + t == [c] + t && [] + t == t;
  }

  // ---------------------------------------------------------------------
  // validate_balances
  // ---------------------------------------------------------------------

  /** The key the reconciliation sets when the balances do not add up. */
  const Flag: string := "balance_mismatch_warning"

  /** `fields.get("summary", {}) or {}`. */
  function SummaryOf(fields: map<string, Value>): Value {
    Or(Get(fields, "summary", EmptyObj), EmptyObj)
  }

  /** `s.get(key, 0) or 0`: a missing, `None`, zero or empty total counts as 0. */
  function Total(s: map<string, Value>, key: string): (v: Value)
    ensures !Truthy(Get(s, key, Int(0))) ==> v == Int(0)
    ensures Truthy(v)  ==> key in s && v == s[key]
  {
    Or(Get(s, key, Int(0)), Int(0))
  }

  function Abs(x: real): real {
    if x < 0.0 then -x else x
  }

  /** Whether the summary's balances are checked and found off by more than
      the 5.0 tolerance; `None` when converting a total raises. Unless both
      balances are numbers nothing is checked. */
  function Mismatch(s: map<string, Value>): Option<bool> {
    var ob := Get(s, "opening_balance", Null);
    var cb := Get(s, "closing_balance", Null);
    if IsNumber(ob) && IsNumber(cb) then
      match (ToFloat(Total(s, "total_credits")), ToFloat(Total(s, "total_debits")))
      case (Some(tc), Some(td)) =>
        Some(Abs(ToFloat(cb).value - (ToFloat(ob).value + tc - td)) > 5.0)
      case _ => None
    else Some(false)
  }

  /** `after` is `before` with at most the mismatch flag added or set to
      true: no key is dropped and no other value changes. */
  predicate OnlyFlagAdded(before: map<string, Value>, after: map<string, Value>) {
    && after.Keys <= before.Keys + {Flag}
    && (forall k :: k in before ==> k in after && (after[k] == before[k] || (k == Flag && after[k] == Bool(true))))
    && (Flag in after && Flag !in before ==> after[Flag] == Bool(true))
  }

  /** The summary with the flag set when `off`. */
  function Flagged(s: map<string, Value>, off: bool): (r: map<string, Value>)
    ensures OnlyFlagAdded(s, r)
    ensures off ==> Flag in r && r[Flag] == Bool(true)
    ensures !off ==> r == s
  {
    if off then s[Flag := Bool(true)] else s
  }

  /** `validate_balances`: the summary written back, with the mismatch flag
      added when the balances do not reconcile; `None` when it raises (a
      summary that is not a mapping, or a total `float` rejects). It keeps
      every key of `fields` and of the summary, and the only value it can
      change is the flag's, to true. */
  function ValidateBalances(fields: map<string, Value>): (r: Option<map<string, Value>>)
    ensures r.None? <==> !SummaryOf(fields).Obj? || Mismatch(SummaryOf(fields).fields).None?
    ensures r.Some? ==> r.value.Keys == fields.Keys + {"summary"}
    ensures r.Some? ==> forall k :: k in fields && k != "summary" ==> r.value[k] == fields[k]
    ensures r.Some? ==> r.value["summary"].Obj? && OnlyFlagAdded(SummaryOf(fields).fields, r.value["summary"].fields)
    ensures r.Some? && Mismatch(SummaryOf(fields).fields) == Some(true) ==>
              Flag in r.value["summary"].fields && r.value["summary"].fields[Flag] == Bool(true)
    ensures r.Some? && Mismatch(SummaryOf(fields).fields) == Some(false) ==> r.value["summary"] == SummaryOf(fields)
  {
    var sv := SummaryOf(fields);
    if !sv.Obj? then None
    else match Mismatch(sv.fields)
      case None => None
      case Some(off) => Some(fields["summary" := Obj(Flagged(sv.fields, off))])
  }

  /** The balances reconcile when the closing balance lies within 5.0 of
      opening + credits - debits, bounds included. */
  predicate Reconciles(ob: real, cb: real, tc: real, td: real) {
    ob + tc - td - 5.0 <= cb <= ob + tc - td + 5.0
  }

  /** With numeric balances and totals, the flag is set exactly when the
      balances do not reconcile, and the summary is otherwise unchanged. */
  lemma ValidateChecks(fields: map<string, Value>, s: map<string, Value>, ob: real, cb: real, tc: real, td: real)
    requires SummaryOf(fields) == Obj(s)
    requires IsNumber(Get(s, "opening_balance", Null)) && ToFloat(Get(s, "opening_balance", Null)) == Some(ob)
    requires IsNumber(Get(s, "closing_balance", Null)) && ToFloat(Get(s, "closing_balance", Null)) == Some(cb)
    requires ToFloat(Total(s, "total_credits")) == Some(tc) && ToFloat(Total(s, "total_debits")) == Some(td)
    ensures !Reconciles(ob, cb, tc, td) ==> ValidateBalances(fields) == Some(fields["summary" := Obj(s[Flag := Bool(true)])])
    ensures Reconciles(ob, cb, tc, td) ==> ValidateBalances(fields) == Some(fields["summary" := Obj(s)])
  {
    assert Mismatch(s) == Some(!Reconciles(ob, cb, tc, td));
  }

  /** Without two numeric balances nothing is checked: the summary is only
      written back. */
  lemma ValidateSkips(fields: map<string, Value>, s: map<string, Value>)
    requires SummaryOf(fields) == Obj(s)
    requires !IsNumber(Get(s, "opening_balance", Null)) || !IsNumber(Get(s, "closing_balance", Null))
    ensures ValidateBalances(fields) == Some(fields["summary" := Obj(s)])
  {
  }

  /** A missing total, a `None` one and a zero one are the same to the check. */
  lemma AbsentTotalIsZero(s: map<string, Value>, key: string)
    requires key == "total_credits" || key == "total_debits"
    ensures Mismatch(s - {key}) == Mismatch(s[key := Null]) == Mismatch(s[key := Int(0)])
  {
    var a, b, c := s - {key}, s[key := Null], s[key := Int(0)];
    SameReading(a, b);
    SameReading(b, c);
  }

  /** `validate_balances` reads only the two balances and the two totals:
      summaries that agree on those get the same verdict, whatever else they
      hold. */
  lemma SameReading(a: map<string, Value>, b: map<string, Value>)
    requires Get(a, "opening_balance", Null) == Get(b, "opening_balance", Null)
    requires Get(a, "closing_balance", Null) == Get(b, "closing_balance", Null)
    requires Total(a, "total_credits") == Total(b, "total_credits")
    requires Total(a, "total_debits") == Total(b, "total_debits")
    ensures Mismatch(a) == Mismatch(b)
  {
  }

  /** A difference of exactly 5.0 is tolerated; anything beyond is flagged. */
  lemma ToleranceBoundary()
    ensures Mismatch(map["opening_balance" := Float(100.0), "closing_balance" := Float(105.0)]) == Some(false)
    ensures Mismatch(map["opening_balance" := Float(100.0), "closing_balance" := Float(105.5)]) == Some(true)
    ensures Mismatch(map["opening_balance" := Float(100.0), "closing_balance" := Float(90.0),
                         "total_credits" := Null, "total_debits" := Int(5)]) == Some(false)
  {
    var s1 := map["opening_balance" := Float(100.0), "closing_balance" := Float(105.0)];
    assert Total(s1, "total_credits") == Int(0) && Total(s1, "total_debits") == Int(0);
    var s2 := map["opening_balance" := Float(100.0), "closing_balance" := Float(105.5)];
    assert Total(s2, "total_credits") == Int(0) && Total(s2, "total_debits") == Int(0);
    var s3 := map["opening_balance" := Float(100.0), "closing_balance" := Float(90.0),
                  "total_credits" := Null, "total_debits" := Int(5)];
    assert Total(s3, "total_credits") == Int(0) && Total(s3, "total_debits") == Int(5);
  }

  // ---------------------------------------------------------------------
  // compute_quality_metrics
  // ---------------------------------------------------------------------

  const NoTransactions: string := "No transactions extracted."
  const UnexpectedStructure: string := "Unexpected JSON structure from Gemini."

  /** The warnings of the quality report: an unexpected structure when
      `fields` is not a mapping, no transactions when its `transactions`
      entry is missing or falsy, none otherwise. */
  function QualityWarnings(extracted: map<string, Value>): (w: seq<string>)
    ensures |w| <= 1
  {
    var f := Get(extracted, "fields", EmptyObj);
    if !f.Obj? then [UnexpectedStructure]
    else if !Truthy(Get(f.fields, "transactions", Arr([]))) then [NoTransactions]
    else []
  }

  function Strs(ws: seq<string>): (vs: seq<Value>)
    ensures |vs| == |ws|
    ensures forall k :: 0 <= k < |ws| ==> vs[k] == Str(ws[k])
  {
    seq(|ws|, k requires 0 <= k < |ws| => Str(ws[k]))
  }

  /** `compute_quality_metrics`: a report whose OCR confidence is always
      `None`, which never claims duplicates and always records that the
      model extraction was used; only its warnings depend on the input. */
  function ComputeQuality(extracted: map<string, Value>): (q: Value)
    ensures q.Obj? && q.fields.Keys == {"ocr_confidence", "warnings", "duplicates_detected", "gemini_extraction_used"}
    ensures q.fields["ocr_confidence"] == Null
    ensures q.fields["duplicates_detected"] == Bool(false)
    ensures q.fields["gemini_extraction_used"] == Bool(true)
    ensures q.fields["warnings"].Arr? && |q.fields["warnings"].items| <= 1
  {
    Obj(map["ocr_confidence" := Null,
            "warnings" := Arr(Strs(QualityWarnings(extracted))),
            "duplicates_detected" := Bool(false),
            "gemini_extraction_used" := Bool(true)])
  }

  /** The three outcomes of the report's warnings, each with its cause. */
  lemma QualityWarningsCases(extracted: map<string, Value>)
    ensures QualityWarnings(extracted) == [UnexpectedStructure] <==> !Get(extracted, "fields", EmptyObj).Obj?
    ensures QualityWarnings(extracted) == [NoTransactions] <==>
              Get(extracted, "fields", EmptyObj).Obj? && !Truthy(Get(Get(extracted, "fields", EmptyObj).fields, "transactions", Arr([])))
    ensures QualityWarnings(extracted) == [] <==>
              Get(extracted, "fields", EmptyObj).Obj? && Truthy(Get(Get(extracted, "fields", EmptyObj).fields, "transactions", Arr([])))
  {
    assert [UnexpectedStructure] != [NoTransactions] by {
      assert UnexpectedStructure[0] != NoTransactions[0];
    }
  }

  /** Fields without transactions are reported as such. */
  lemma QualityWithoutTransactions(fields: map<string, Value>)
    requires !Truthy(Get(fields, "transactions", Arr([])))
    ensures ComputeQuality(map["fields" := Obj(fields)]).fields["warnings"] == Arr([Str(NoTransactions)])
  {
    assert QualityWarnings(map["fields" := Obj(fields)]) == [NoTransactions];
  }

  /** A list of transactions silences the warnings exactly when it is not
      empty. */
  lemma QualityOfTransactions(fields: map<string, Value>, txs: seq<Value>)
    ensures QualityWarnings(map["fields" := Obj(fields["transactions" := Arr(txs)])]) ==
              if |txs| == 0 then [NoTransactions] else []
  {
  }
}
