/** The transaction-log extractor: a scanner for entries of the form
    `TXN:<TYPE> | AMT:<AMOUNT> | ID:<ALPHANUMERIC>`.

    The source uses one regular expression,

      TXN:\s*([A-Z]+)\s*\|\s*AMT:\s*([\d,]+(?:\.\d+)?)\s*\|\s*ID:\s*([A-Za-z0-9]+)

    with `findall`. Every repetition in it is followed by a character that
    the repetition cannot consume, so the only freedom a backtracking matcher
    has is the length of the final ID, which greedy matching makes maximal.
    `MatchAt` is the deterministic matcher that follows from this; `Shape` is
    the regular expression itself, read as a relation between the text and
    the boundaries of the three groups; the lemmas below connect the two. */
module Extractor {
  import opened Chars
  import opened Decimal
  import opened Wrappers

  /** The character classes the pattern repeats. */
  datatype Class = Space | Upper | DigitOrComma | Digit | Alnum

  predicate InClass(c: char, k: Class) {
    match k
    case Space => IsSpace(c)
    case Upper => IsUpper(c)
    case DigitOrComma => IsDigit(c) || c == ','
    case Digit => IsDigit(c)
    case Alnum => IsAlnum(c)
  }

  /** `s[i..j]` is a (possibly empty) run of class-`k` characters. */
  predicate Run(s: string, i: nat, j: nat, k: Class) {
    i <= j <= |s| && forall x :: i <= x < j ==> InClass(s[x], k)
  }

  /** The literal `w` occurs in `s` at position `i`. */
  predicate Lit(s: string, i: nat, w: string)
    ensures Lit(s, i, w) ==> i + |w| <= |s|
    decreases |w|
  {
    if |w| == 0 then i <= |s| else i < |s| && s[i] == w[0] && Lit(s, i + 1, w[1..])
  }

  /** Greedy repetition: the end of the longest run of class `k` from `i`. */
  function Skip(s: string, i: nat, k: Class): (j: nat)
    requires i <= |s|
    ensures i <= j <= |s|
    decreases |s| - i
  {
    if i < |s| && InClass(s[i], k) then Skip(s, i + 1, k) else i
  }

  /** What `Skip` passes over is a run of class `k`, and it stops where the
      run cannot be extended. */
  lemma {:induction false} SkipRun(s: string, i: nat, k: Class)
    requires i <= |s|
    ensures Run(s, i, Skip(s, i, k), k)
    ensures Skip(s, i, k) == |s| || !InClass(s[Skip(s, i, k)], k)
    decreases |s| - i
  {
    if i < |s| && InClass(s[i], k) {
      SkipRun(s, i + 1, k);
    }
  }

  /** A run that cannot be extended is the one `Skip` finds. */
  lemma {:induction false} SkipExact(s: string, i: nat, j: nat, k: Class)
    requires Run(s, i, j, k)
    requires j == |s| || !InClass(s[j], k)
    ensures Skip(s, i, k) == j
    decreases j - i
  {
    if i < j {
      SkipExact(s, i + 1, j, k);
    }
  }

  /** `Skip` never stops inside a run. */
  lemma {:induction false} SkipCovers(s: string, i: nat, j: nat, k: Class)
    requires Run(s, i, j, k)
    ensures Skip(s, i, k) >= j
    decreases j - i
  {
    if i < j {
      SkipCovers(s, i + 1, j, k);
    }
  }

  /** The boundaries of one match: where it starts, where each group starts
      and ends, and where each separator and label sits. */
  datatype Parse = Parse(
    start: nat,
    typeStart: nat, typeEnd: nat,
    bar1: nat,
    amtLabel: nat,
    amtStart: nat, intEnd: nat, amtEnd: nat,
    bar2: nat,
    idLabel: nat,
    idStart: nat, idEnd: nat)

  /** `TXN:\s*([A-Z]+)\s*\|` at `i`, with the type group at `s[a..b]` and
      the bar at `c`. */
  predicate HeadShape(s: string, i: nat, a: nat, b: nat, c: nat) {
    && Lit(s, i, "TXN:") && Run(s, i + 4, a, Space) && Run(s, a, b, Upper) && a < b
    && Run(s, b, c, Space) && Lit(s, c, "|")
  }

  /** `\s*AMT:\s*([\d,]+(?:\.\d+)?)\s*\|` at `j`, with the label at `d`,
      the amount group at `s[e..g]` (its integer part `s[e..f]`) and the bar
      at `h`. */
  predicate AmountShape(s: string, j: nat, d: nat, e: nat, f: nat, g: nat, h: nat) {
    && Run(s, j, d, Space) && Lit(s, d, "AMT:") && Run(s, d + 4, e, Space)
    && Run(s, e, f, DigitOrComma) && e < f
    && (g == f || (Lit(s, f, ".") && Run(s, f + 1, g, Digit) && f + 1 < g))
    && Run(s, g, h, Space) && Lit(s, h, "|")
  }

  /** `\s*ID:\s*([A-Za-z0-9]+)` at `j`, with the label at `k` and the ID
      group at `s[l..m]`. */
  predicate IdShape(s: string, j: nat, k: nat, l: nat, m: nat) {
    && Run(s, j, k, Space) && Lit(s, k, "ID:") && Run(s, k + 3, l, Space)
    && Run(s, l, m, Alnum) && l < m
  }

  /** The regular expression as a relation: `s[p.start..p.idEnd]` matches the
      pattern with its three groups at the boundaries `p` records. Any split a
      backtracking matcher could settle on satisfies it. */
  predicate Shape(s: string, p: Parse) {
    && HeadShape(s, p.start, p.typeStart, p.typeEnd, p.bar1)
    && AmountShape(s, p.bar1 + 1, p.amtLabel, p.amtStart, p.intEnd, p.amtEnd, p.bar2)
    && IdShape(s, p.bar2 + 1, p.idLabel, p.idStart, p.idEnd)
  }

  /** The optional `(?:\.\d+)` after the integer part that ends at `f`: the
      end of the fraction when a point and at least one digit follow, else `f`. */
  function Fraction(s: string, f: nat): (g: nat)
    requires f <= |s|
    ensures f <= g <= |s|
  {
    if Lit(s, f, ".") && Skip(s, f + 1, Digit) > f + 1 then Skip(s, f + 1, Digit) else f
  }

  /** The fraction, when there is one, is a point followed by a maximal run
      of at least one digit. */
  lemma FractionSound(s: string, f: nat)
    requires f <= |s|
    ensures var g := Fraction(s, f); g == f || (Lit(s, f, ".") && Run(s, f + 1, g, Digit) && f + 1 < g)
    ensures var g := Fraction(s, f); g > f ==> g == |s| || !IsDigit(s[g])
  {
    if Lit(s, f, ".") {
      SkipRun(s, f + 1, Digit);
    }
  }

  /** The positions one segment of the pattern fixes. */
  datatype Head = Head(typeStart: nat, typeEnd: nat, bar1: nat)
  datatype Amount = Amount(amtLabel: nat, amtStart: nat, intEnd: nat, amtEnd: nat, bar2: nat)
  datatype Id = Id(idLabel: nat, idStart: nat, idEnd: nat)

  /** `TXN:\s*([A-Z]+)\s*\|` at `i`: the type group's bounds and the bar. */
  function HeadAt(s: string, i: nat): (r: Option<Head>)
    requires i <= |s|
    ensures r.Some? ==> i < r.value.bar1 < |s|
  {
    if !Lit(s, i, "TXN:") then None else
    var typeStart := Skip(s, i + 4, Space);
    var typeEnd := Skip(s, typeStart, Upper);
    if typeStart == typeEnd then None else
    var bar1 := Skip(s, typeEnd, Space);
    if !Lit(s, bar1, "|") then None else
    Some(Head(typeStart, typeEnd, bar1))
  }

  /** `\s*AMT:\s*([\d,]+(?:\.\d+)?)\s*\|` at `j`: the label, the amount
      group's bounds with the end of its integer part, and the bar. */
  function AmountAt(s: string, j: nat): (r: Option<Amount>)
    requires j <= |s|
    ensures r.Some? ==> j <= r.value.bar2 < |s|
  {
    var amtLabel := Skip(s, j, Space);
    if !Lit(s, amtLabel, "AMT:") then None else
    var amtStart := Skip(s, amtLabel + 4, Space);
    var intEnd := Skip(s, amtStart, DigitOrComma);
    if amtStart == intEnd then None else
    var amtEnd := Fraction(s, intEnd);
    var bar2 := Skip(s, amtEnd, Space);
    if !Lit(s, bar2, "|") then None else
    Some(Amount(amtLabel, amtStart, intEnd, amtEnd, bar2))
  }

  /** `\s*ID:\s*([A-Za-z0-9]+)` at `j`: the label and the ID group's bounds,
      the ID as long as possible. */
  function IdAt(s: string, j: nat): (r: Option<Id>)
    requires j <= |s|
    ensures r.Some? ==> j < r.value.idEnd <= |s|
  {
    var idLabel := Skip(s, j, Space);
    if !Lit(s, idLabel, "ID:") then None else
    var idStart := Skip(s, idLabel + 3, Space);
    var idEnd := Skip(s, idStart, Alnum);
    if idStart == idEnd then None else
    Some(Id(idLabel, idStart, idEnd))
  }

  lemma HeadSound(s: string, i: nat)
    requires i <= |s| && HeadAt(s, i).Some?
    ensures var h := HeadAt(s, i).value; HeadShape(s, i, h.typeStart, h.typeEnd, h.bar1)
  {
    var h := HeadAt(s, i).value;
    SkipRun(s, i + 4, Space);
    SkipRun(s, h.typeStart, Upper);
    SkipRun(s, h.typeEnd, Space);
  }

  lemma AmountSound(s: string, j: nat)
    requires j <= |s| && AmountAt(s, j).Some?
    ensures var a := AmountAt(s, j).value; AmountShape(s, j, a.amtLabel, a.amtStart, a.intEnd, a.amtEnd, a.bar2)
  {
    var a := AmountAt(s, j).value;
    SkipRun(s, j, Space);
    SkipRun(s, a.amtLabel + 4, Space);
    SkipRun(s, a.amtStart, DigitOrComma);
    FractionSound(s, a.intEnd);
    SkipRun(s, a.amtEnd, Space);
  }

  lemma IdSound(s: string, j: nat)
    requires j <= |s| && IdAt(s, j).Some?
    ensures var d := IdAt(s, j).value; IdShape(s, j, d.idLabel, d.idStart, d.idEnd)
    ensures var d := IdAt(s, j).value; d.idEnd == |s| || !IsAlnum(s[d.idEnd])
  {
    var d := IdAt(s, j).value;
    SkipRun(s, j, Space);
    SkipRun(s, d.idLabel + 3, Space);
    SkipRun(s, d.idStart, Alnum);
  }

  /** The match of the pattern that starts exactly at `i`, if there is one;
      each repetition is greedy. */
  function MatchAt(s: string, i: nat): (r: Option<Parse>)
    requires i <= |s|
    ensures r.Some? ==> r.value.start == i < r.value.idEnd <= |s|
  {
    match HeadAt(s, i)
    case None => None
    case Some(h) => AfterHead(s, i, h)
  }

  /** The rest of the match once the `TXN:` segment ended with the bar `h.bar1`. */
  function AfterHead(s: string, i: nat, h: Head): (r: Option<Parse>)
    requires i < h.bar1 < |s|
    ensures r.Some? ==> r.value.start == i < r.value.idEnd <= |s|
  {
    match AmountAt(s, h.bar1 + 1)
    case None => None
    case Some(a) => AfterAmount(s, i, h, a)
  }

  /** The rest of the match once the `AMT:` segment ended with the bar `a.bar2`. */
  function AfterAmount(s: string, i: nat, h: Head, a: Amount): (r: Option<Parse>)
    requires i < a.bar2 < |s|
    ensures r.Some? ==> r.value.start == i < r.value.idEnd <= |s|
  {
    match IdAt(s, a.bar2 + 1)
    case None => None
    case Some(d) =>
      Some(Parse(i, h.typeStart, h.typeEnd, h.bar1, a.amtLabel, a.amtStart, a.intEnd, a.amtEnd, a.bar2,
                 d.idLabel, d.idStart, d.idEnd))
  }

  /** The first character of a literal occurrence. */
  lemma LitFirst(s: string, i: nat, w: string)
    requires Lit(s, i, w) && |w| > 0
    ensures s[i] == w[0]
  {
  }

  lemma HeadComplete(s: string, i: nat, a: nat, b: nat, c: nat)
    requires HeadShape(s, i, a, b, c)
    ensures HeadAt(s, i) == Some(Head(a, b, c))
  {
    LitFirst(s, c, "|");
    SkipExact(s, i + 4, a, Space);
    SkipExact(s, a, b, Upper);
    SkipExact(s, b, c, Space);
  }

  lemma FractionComplete(s: string, e: nat, f: nat, g: nat, h: nat)
    requires Run(s, e, f, DigitOrComma) && e < f
    requires g == f || (Lit(s, f, ".") && Run(s, f + 1, g, Digit) && f + 1 < g)
    requires Run(s, g, h, Space) && Lit(s, h, "|")
    ensures Skip(s, e, DigitOrComma) == f
    ensures Fraction(s, f) == g
  {
    LitFirst(s, h, "|");
    if g == f {
      assert s[f + 0] != "."[0] by {
        if f < h {
          assert IsSpace(s[f]);
        }
      }
      SkipExact(s, e, f, DigitOrComma);
    } else {
      LitFirst(s, f, ".");
      SkipExact(s, e, f, DigitOrComma);
      SkipExact(s, f + 1, g, Digit);
    }
  }

  lemma AmountComplete(s: string, j: nat, d: nat, e: nat, f: nat, g: nat, h: nat)
    requires AmountShape(s, j, d, e, f, g, h)
    ensures AmountAt(s, j) == Some(Amount(d, e, f, g, h))
  {
    LitFirst(s, d, "AMT:");
    LitFirst(s, h, "|");
    SkipExact(s, j, d, Space);
    SkipExact(s, d + 4, e, Space);
    FractionComplete(s, e, f, g, h);
    SkipExact(s, g, h, Space);
  }

  lemma IdComplete(s: string, j: nat, k: nat, l: nat, m: nat)
    requires IdShape(s, j, k, l, m)
    ensures IdAt(s, j).Some?
    ensures IdAt(s, j).value.idLabel == k && IdAt(s, j).value.idStart == l && IdAt(s, j).value.idEnd >= m
  {
    LitFirst(s, k, "ID:");
    SkipExact(s, j, k, Space);
    SkipExact(s, k + 3, l, Space);
    SkipCovers(s, l, m, Alnum);
  }

  lemma AfterAmountIs(s: string, i: nat, h: Head, a: Amount, d: Id)
    requires i < a.bar2 < |s| && IdAt(s, a.bar2 + 1) == Some(d)
    ensures AfterAmount(s, i, h, a) == Some(Parse(i, h.typeStart, h.typeEnd, h.bar1, a.amtLabel, a.amtStart,
                                                  a.intEnd, a.amtEnd, a.bar2, d.idLabel, d.idStart, d.idEnd))
  {
  }

  lemma AfterHeadIs(s: string, i: nat, h: Head, a: Amount)
    requires i < h.bar1 < |s| && AmountAt(s, h.bar1 + 1) == Some(a)
    ensures AfterHead(s, i, h) == AfterAmount(s, i, h, a)
  {
  }

  lemma MatchAtIs(s: string, i: nat, h: Head)
    requires i <= |s| && HeadAt(s, i) == Some(h)
    ensures MatchAt(s, i) == AfterHead(s, i, h)
  {
  }

  /** `MatchAt` is the three segments in sequence. */
  lemma MatchAtSegments(s: string, i: nat, h: Head, a: Amount, d: Id)
    requires i <= |s| && HeadAt(s, i) == Some(h)
    requires AmountAt(s, h.bar1 + 1) == Some(a)
    requires IdAt(s, a.bar2 + 1) == Some(d)
    ensures MatchAt(s, i) == Some(Parse(i, h.typeStart, h.typeEnd, h.bar1, a.amtLabel, a.amtStart, a.intEnd,
                                        a.amtEnd, a.bar2, d.idLabel, d.idStart, d.idEnd))
  {
    MatchAtIs(s, i, h);
    AfterHeadIs(s, i, h, a);
    AfterAmountIs(s, i, h, a, d);
  }

  /** The ID cannot be extended: greedy repetition stopped at a non-alphanumeric. */
  predicate MaximalId(s: string, p: Parse) {
    p.idEnd == |s| || (p.idEnd < |s| && !IsAlnum(s[p.idEnd]))
  }

  lemma AfterAmountSound(s: string, i: nat, h: Head, a: Amount, p: Parse)
    requires i < a.bar2 < |s| && AfterAmount(s, i, h, a) == Some(p)
    requires HeadShape(s, i, h.typeStart, h.typeEnd, h.bar1)
    requires AmountShape(s, h.bar1 + 1, a.amtLabel, a.amtStart, a.intEnd, a.amtEnd, a.bar2)
    ensures Shape(s, p) && MaximalId(s, p)
  {
    var d := IdAt(s, a.bar2 + 1).value;
    IdSound(s, a.bar2 + 1);
    AfterAmountIs(s, i, h, a, d);
  }

  lemma AfterHeadSound(s: string, i: nat, h: Head, p: Parse)
    requires i < h.bar1 < |s| && AfterHead(s, i, h) == Some(p)
    requires HeadShape(s, i, h.typeStart, h.typeEnd, h.bar1)
    ensures Shape(s, p) && MaximalId(s, p)
  {
    AfterHeadSome(s, i, h);
    var a := AmountAt(s, h.bar1 + 1).value;
    AmountSound(s, h.bar1 + 1);
    AfterAmountSound(s, i, h, a, p);
  }

  /** A match past the head has an amount segment, and continues from it. */
  lemma AfterHeadSome(s: string, i: nat, h: Head)
    requires i < h.bar1 < |s| && AfterHead(s, i, h).Some?
    ensures AmountAt(s, h.bar1 + 1).Some?
    ensures AfterHead(s, i, h) == AfterAmount(s, i, h, AmountAt(s, h.bar1 + 1).value)
  {
  }

  /** Soundness of the greedy matcher: what `MatchAt` returns is a match of
      the pattern at `i`, and its ID cannot be extended. */
  lemma MatchSound(s: string, i: nat)
    requires i <= |s| && MatchAt(s, i).Some?
    ensures Shape(s, MatchAt(s, i).value) && MaximalId(s, MatchAt(s, i).value)
  {
    var h := HeadAt(s, i).value;
    HeadSound(s, i);
    MatchAtIs(s, i, h);
    AfterHeadSound(s, i, h, MatchAt(s, i).value);
  }

  /** Completeness of the greedy matcher: wherever the pattern matches in any
      way, `MatchAt` finds a match with exactly the same group boundaries,
      except that its ID is the longest possible. With `MatchAt`'s own
      contract this says the match it returns is the one a backtracking
      matcher with greedy repetition returns. */
  lemma MatchComplete(s: string, q: Parse)
    requires Shape(s, q)
    ensures MatchAt(s, q.start).Some?
    ensures MatchAt(s, q.start).value == q.(idEnd := MatchAt(s, q.start).value.idEnd)
    ensures q.idEnd <= MatchAt(s, q.start).value.idEnd
  {
    ShapeSegments(s, q);
    MatchOfSegmentsLonger(s, q);
  }

  /** Each segment matcher finds its part of a shaped match. */
  lemma ShapeSegments(s: string, q: Parse)
    requires Shape(s, q)
    ensures q.start < q.bar1 < q.bar2 < |s|
    ensures HeadAt(s, q.start) == Some(Head(q.typeStart, q.typeEnd, q.bar1))
    ensures AmountAt(s, q.bar1 + 1) == Some(Amount(q.amtLabel, q.amtStart, q.intEnd, q.amtEnd, q.bar2))
    ensures IdAt(s, q.bar2 + 1).Some?
    ensures IdAt(s, q.bar2 + 1).value.idLabel == q.idLabel && IdAt(s, q.bar2 + 1).value.idStart == q.idStart
    ensures IdAt(s, q.bar2 + 1).value.idEnd >= q.idEnd
  {
    HeadOfShape(s, q);
    AmountOfShape(s, q);
    IdOfShape(s, q);
  }

  lemma HeadOfShape(s: string, q: Parse)
    requires Shape(s, q)
    ensures HeadAt(s, q.start) == Some(Head(q.typeStart, q.typeEnd, q.bar1))
  {
    HeadComplete(s, q.start, q.typeStart, q.typeEnd, q.bar1);
  }

  lemma AmountOfShape(s: string, q: Parse)
    requires Shape(s, q)
    ensures AmountAt(s, q.bar1 + 1) == Some(Amount(q.amtLabel, q.amtStart, q.intEnd, q.amtEnd, q.bar2))
  {
    AmountComplete(s, q.bar1 + 1, q.amtLabel, q.amtStart, q.intEnd, q.amtEnd, q.bar2);
  }

  lemma IdOfShape(s: string, q: Parse)
    requires Shape(s, q)
    ensures IdAt(s, q.bar2 + 1).Some?
    ensures IdAt(s, q.bar2 + 1).value.idLabel == q.idLabel && IdAt(s, q.bar2 + 1).value.idStart == q.idStart
    ensures IdAt(s, q.bar2 + 1).value.idEnd >= q.idEnd
  {
    IdComplete(s, q.bar2 + 1, q.idLabel, q.idStart, q.idEnd);
  }

  lemma MatchOfSegmentsLonger(s: string, q: Parse)
    requires q.start < q.bar1 < q.bar2 < |s|
    requires HeadAt(s, q.start) == Some(Head(q.typeStart, q.typeEnd, q.bar1))
    requires AmountAt(s, q.bar1 + 1) == Some(Amount(q.amtLabel, q.amtStart, q.intEnd, q.amtEnd, q.bar2))
    requires IdAt(s, q.bar2 + 1).Some?
    requires IdAt(s, q.bar2 + 1).value.idLabel == q.idLabel && IdAt(s, q.bar2 + 1).value.idStart == q.idStart
    requires IdAt(s, q.bar2 + 1).value.idEnd >= q.idEnd
    ensures MatchAt(s, q.start).Some?
    ensures MatchAt(s, q.start).value == q.(idEnd := MatchAt(s, q.start).value.idEnd)
    ensures q.idEnd <= MatchAt(s, q.start).value.idEnd
  {
    var d := IdAt(s, q.bar2 + 1).value;
    MatchOfSegments(s, q, d);
  }

  lemma MatchOfSegments(s: string, q: Parse, d: Id)
    requires q.start < q.bar1 < q.bar2 < |s|
    requires HeadAt(s, q.start) == Some(Head(q.typeStart, q.typeEnd, q.bar1))
    requires AmountAt(s, q.bar1 + 1) == Some(Amount(q.amtLabel, q.amtStart, q.intEnd, q.amtEnd, q.bar2))
    requires IdAt(s, q.bar2 + 1) == Some(d)
    requires d.idLabel == q.idLabel && d.idStart == q.idStart
    ensures MatchAt(s, q.start) == Some(q.(idEnd := d.idEnd))
  {
    MatchAtSegments(s, q.start, Head(q.typeStart, q.typeEnd, q.bar1),
                    Amount(q.amtLabel, q.amtStart, q.intEnd, q.amtEnd, q.bar2), d);
  }

  /** The pattern matches at `i` in some way exactly when `MatchAt` succeeds. */
  lemma MatchAtIff(s: string, i: nat)
    requires i <= |s|
    ensures MatchAt(s, i).Some? <==> exists q :: Shape(s, q) && q.start == i
  {
    if q :| Shape(s, q) && q.start == i {
      MatchComplete(s, q);
    }
    if MatchAt(s, i).Some? {
      MatchSound(s, i);
      var q := MatchAt(s, i).value;
      assert Shape(s, q) && q.start == i;
    }
  }

  // ---------------------------------------------------------------------
  // findall: every non-overlapping match, left to right
  // ---------------------------------------------------------------------

  /** What `MatchAt` finds at every position of `s`. */
  function MatchTable(s: string): (t: seq<Option<Parse>>)
    ensures |t| == |s| && IsTable(t)
    ensures forall j :: 0 <= j < |s| ==> t[j] == MatchAt(s, j)
  {
    seq(|s|, j requires 0 <= j < |s| => MatchAt(s, j))
  }

  /** A table of matches: the entry at `j`, when there is one, starts at `j`
      and ends after it, inside the text. */
  predicate IsTable(t: seq<Option<Parse>>) {
    forall j :: 0 <= j < |t| && t[j].Some? ==> t[j].value.start == j < t[j].value.idEnd <= |t|
  }

  /** `findall` from position `i`: the match at `i` if there is one, and the
      scan resumes where it ended; otherwise the scan moves one position on.
      A match is never empty, so the empty-match rule of `findall` does not
      arise. The matches come in text order and do not overlap. */
  function FindAll(t: seq<Option<Parse>>, i: nat): (ms: seq<Parse>)
    requires IsTable(t) && i <= |t|
    ensures forall k :: 0 <= k < |ms| ==> i <= ms[k].start < |t| && t[ms[k].start] == Some(ms[k])
    ensures forall k :: 0 <= k < |ms| - 1 ==> ms[k].idEnd <= ms[k + 1].start
    decreases |t| - i
  {
    if i == |t| then []
    else match t[i]
      case Some(p) => [p] + FindAll(t, p.idEnd)
      case None => FindAll(t, i + 1)
  }

  /** Position `j` lies inside one of the matches `ms`. */
  predicate Covered(ms: seq<Parse>, j: nat) {
    exists k :: 0 <= k < |ms| && ms[k].start <= j < ms[k].idEnd
  }

  /** Nothing is missed: wherever there is a match at or after `i`, that
      position lies inside a reported match (only matches that overlap an
      earlier one are dropped). With `FindAll`'s own contract, the first
      reported match is therefore the leftmost one. */
  lemma {:induction false} FindAllMissesNothing(t: seq<Option<Parse>>, i: nat, j: nat)
    requires IsTable(t) && i <= j < |t| && t[j].Some?
    ensures Covered(FindAll(t, i), j)
    decreases |t| - i
  {
    match t[i]
    case Some(p) =>
      var rest := FindAll(t, p.idEnd);
      assert FindAll(t, i) == [p] + rest;
      if j < p.idEnd {
        assert FindAll(t, i)[0] == p;
      } else {
        FindAllMissesNothing(t, p.idEnd, j);
        var k :| 0 <= k < |rest| && rest[k].start <= j < rest[k].idEnd;
        assert FindAll(t, i)[k + 1] == rest[k];
      }
    case None =>
      FindAllMissesNothing(t, i + 1, j);
  }

  /** The number of positions at or after `i` where there is a match. */
  function CountMatches(t: seq<Option<Parse>>, i: nat): nat
    requires i <= |t|
    decreases |t| - i
  {
    if i == |t| then 0 else (if t[i].Some? then 1 else 0) + CountMatches(t, i + 1)
  }

  lemma {:induction false} CountMatchesMonotone(t: seq<Option<Parse>>, i: nat, j: nat)
    requires i <= j <= |t|
    ensures CountMatches(t, j) <= CountMatches(t, i)
    decreases j - i
  {
    if i < j {
      CountMatchesMonotone(t, i + 1, j);
    }
  }

  /** Each reported match starts at a position of its own. */
  lemma {:induction false} FindAllBound(t: seq<Option<Parse>>, i: nat)
    requires IsTable(t) && i <= |t|
    ensures |FindAll(t, i)| <= CountMatches(t, i)
    decreases |t| - i
  {
    if i < |t| {
      match t[i]
      case Some(p) =>
        FindAllBound(t, p.idEnd);
        CountMatchesMonotone(t, i + 1, p.idEnd);
      case None =>
        FindAllBound(t, i + 1);
    }
  }

  /** Every reported match is a match of the regular expression with a
      maximal ID. */
  lemma FindAllSound(s: string)
    ensures forall k :: 0 <= k < |FindAll(MatchTable(s), 0)| ==>
              Shape(s, FindAll(MatchTable(s), 0)[k]) && MaximalId(s, FindAll(MatchTable(s), 0)[k])
  {
    var ms := FindAll(MatchTable(s), 0);
    forall k | 0 <= k < |ms|
      ensures Shape(s, ms[k]) && MaximalId(s, ms[k])
    {
      MatchSound(s, ms[k].start);
    }
  }

  /** The number of `TXN:` labels starting at or after `i`. */
  function CountLabels(s: string, i: nat): nat
    requires i <= |s|
    decreases |s| - i
  {
    if i == |s| then 0 else (if Lit(s, i, "TXN:") then 1 else 0) + CountLabels(s, i + 1)
  }

  /** A match begins with a `TXN:` label. */
  lemma MatchesStartWithLabel(s: string)
    ensures forall j :: 0 <= j < |s| && MatchTable(s)[j].Some? ==> Lit(s, j, "TXN:")
  {
    forall j | 0 <= j < |s| && MatchTable(s)[j].Some?
      ensures Lit(s, j, "TXN:")
    {
      MatchSound(s, j);
    }
  }

  /** When every position with a match holds a `TXN:` label, there are never
      more positions with a match than labels. */
  lemma {:induction false} MatchesNeedLabels(s: string, t: seq<Option<Parse>>, i: nat)
    requires |t| == |s| && i <= |s|
    requires forall j :: 0 <= j < |s| && t[j].Some? ==> Lit(s, j, "TXN:")
    ensures CountMatches(t, i) <= CountLabels(s, i)
    decreases |s| - i
  {
    if i < |s| {
      MatchesNeedLabels(s, t, i + 1);
    }
  }

  // ---------------------------------------------------------------------
  // From matches to transactions
  // ---------------------------------------------------------------------

  /** One extracted entry: the type, the amount as a number, and the ID. */
  datatype Transaction = Transaction(kind: string, amount: real, id: string)

  /** What every extracted entry satisfies: a non-empty upper-case type, a
      non-negative amount and a non-empty alphanumeric ID. */
  predicate WellFormed(t: Transaction) {
    && |t.kind| > 0 && AllUpper(t.kind)
    && |t.id| > 0 && AllAlnum(t.id)
    && t.amount >= 0.0
  }

  predicate DigitsAndCommas(w: string) {
    forall k :: 0 <= k < |w| ==> IsDigit(w[k]) || w[k] == ','
  }

  /** The amount text with its commas deleted, as `float` reads it; `None`
      stands for the `ValueError` that makes the loop skip the entry. */
  function AmountValue(amount: string): Option<real> {
    FloatOfString(Remove(amount, {','}))
  }

  /** In a run of digits and commas, deleting the commas keeps the digits. */
  lemma {:induction false} RemoveCommas(w: string)
    requires DigitsAndCommas(w)
    ensures Remove(w, {','}) == Digits(w)
  {
    if |w| > 0 {
      RemoveCommas(w[1..]);
    }
  }

  /** A run of digits and commas has no digits exactly when it is all commas. */
  lemma {:induction false} NoDigitsAllCommas(w: string)
    requires DigitsAndCommas(w)
    ensures Digits(w) == [] <==> forall k :: 0 <= k < |w| ==> w[k] == ','
  {
    if |w| > 0 {
      NoDigitsAllCommas(w[1..]);
      assert forall k :: 1 <= k < |w| ==> w[1..][k - 1] == w[k];
    }
  }

  /** Deleting the commas of an amount group leaves the digits of its
      integer part and its fraction. */
  lemma CommasGone(w: string, frac: Option<string>)
    requires DigitsAndCommas(w) && AllDigits(FracOf(frac))
    ensures Remove(w + FracText(frac), {','}) == Digits(w) + FracText(frac)
  {
    RemoveAppend(w, FracText(frac), {','});
    RemoveAbsent(FracText(frac), {','});
    RemoveCommas(w);
  }

  /** The value of an amount group: the digits of its integer part, read in
      base ten, plus its fraction; no value when the integer part is all
      commas and there is no fraction. */
  lemma AmountOfParts(w: string, frac: Option<string>)
    requires DigitsAndCommas(w)
    requires AllDigits(FracOf(frac)) && (frac.Some? ==> |frac.value| > 0)
    ensures AmountValue(w + FracText(frac)).None? <==> Digits(w) == [] && frac.None?
    ensures AmountValue(w + FracText(frac)).Some? ==>
              AmountValue(w + FracText(frac)).value == DigitsValue(Digits(w)) as real + FracValue(FracOf(frac))
  {
    CommasGone(w, frac);
    FloatOfPlain(Digits(w), frac);
  }

  /** The group boundaries of `p` lie inside `s`, in order. */
  predicate Spans(s: string, p: Parse) {
    && p.typeStart <= p.typeEnd <= |s|
    && p.amtStart <= p.intEnd <= p.amtEnd <= |s| && (p.intEnd < p.amtEnd ==> p.intEnd + 1 <= p.amtEnd)
    && p.idStart <= p.idEnd <= |s|
  }

  /** The optional fraction digits of match `p`. */
  function FractionOf(s: string, p: Parse): Option<string>
    requires Spans(s, p)
  {
    if p.amtEnd == p.intEnd then None else Some(s[p.intEnd + 1..p.amtEnd])
  }

  function TypeText(s: string, p: Parse): string requires Spans(s, p) { s[p.typeStart..p.typeEnd] }

  function AmountText(s: string, p: Parse): string requires Spans(s, p) { s[p.amtStart..p.amtEnd] }

  /** The integer part of the amount group, before any point. */
  function IntText(s: string, p: Parse): string requires Spans(s, p) { s[p.amtStart..p.intEnd] }

  function IdText(s: string, p: Parse): string requires Spans(s, p) { s[p.idStart..p.idEnd] }

  predicate AllUpper(w: string) { forall k :: 0 <= k < |w| ==> IsUpper(w[k]) }

  predicate AllAlnum(w: string) { forall k :: 0 <= k < |w| ==> IsAlnum(w[k]) }

  /** What the three groups of a match hold: upper-case letters; digits and
      commas, then optionally a point and digits; letters and digits. */
  predicate Groups(s: string, p: Parse) {
    && Spans(s, p)
    && |TypeText(s, p)| > 0 && AllUpper(TypeText(s, p))
    && DigitsAndCommas(IntText(s, p))
    && AllDigits(FracOf(FractionOf(s, p))) && (FractionOf(s, p).Some? ==> |FractionOf(s, p).value| > 0)
    && AmountText(s, p) == IntText(s, p) + FracText(FractionOf(s, p))
    && |IdText(s, p)| > 0 && AllAlnum(IdText(s, p))
  }

  lemma ShapeGroups(s: string, p: Parse)
    requires Shape(s, p)
    ensures Groups(s, p)
  {
    assert Spans(s, p);
    ShapeType(s, p);
    ShapeAmount(s, p);
    ShapeId(s, p);
  }

  lemma ShapeType(s: string, p: Parse)
    requires Shape(s, p) && Spans(s, p)
    ensures |TypeText(s, p)| > 0 && AllUpper(TypeText(s, p))
  {
  }

  lemma ShapeId(s: string, p: Parse)
    requires Shape(s, p) && Spans(s, p)
    ensures |IdText(s, p)| > 0 && AllAlnum(IdText(s, p))
  {
  }

  lemma ShapeAmount(s: string, p: Parse)
    requires Shape(s, p) && Spans(s, p)
    ensures DigitsAndCommas(IntText(s, p))
    ensures AllDigits(FracOf(FractionOf(s, p))) && (FractionOf(s, p).Some? ==> |FractionOf(s, p).value| > 0)
    ensures AmountText(s, p) == IntText(s, p) + FracText(FractionOf(s, p))
  {
    ShapeInt(s, p);
    if p.intEnd < p.amtEnd {
      ShapeFraction(s, p);
    } else {
      assert AmountText(s, p) == IntText(s, p);
    }
  }

  lemma ShapeInt(s: string, p: Parse)
    requires Shape(s, p) && Spans(s, p)
    ensures DigitsAndCommas(IntText(s, p))
  {
    assert Run(s, p.amtStart, p.intEnd, DigitOrComma);
  }

  lemma ShapeFraction(s: string, p: Parse)
    requires Shape(s, p) && Spans(s, p) && p.intEnd < p.amtEnd
    ensures AllDigits(FracOf(FractionOf(s, p))) && |FractionOf(s, p).value| > 0
    ensures AmountText(s, p) == IntText(s, p) + FracText(FractionOf(s, p))
  {
    assert Lit(s, p.intEnd, ".") && Run(s, p.intEnd + 1, p.amtEnd, Digit) && p.intEnd + 1 < p.amtEnd;
    LitFirst(s, p.intEnd, ".");
    var f := s[p.intEnd + 1..p.amtEnd];
    assert FractionOf(s, p) == Some(f);
    assert AmountText(s, p) == IntText(s, p) + ([s[p.intEnd]] + f);
  }

  /** One entry from its three group texts, or `None` when the amount does
      not convert. */
  function Entry(kind: string, amount: string, id: string): (r: Option<Transaction>)
    ensures r.Some? ==> r.value.kind == kind && r.value.id == id
  {
    match AmountValue(amount)
    case None => None
    case Some(v) => Some(Transaction(kind, v, id))
  }

  /** The loop body for one match. */
  function ToTransaction(s: string, p: Parse): (r: Option<Transaction>)
    requires Spans(s, p)
    ensures r.Some? ==> r.value.kind == TypeText(s, p) && r.value.id == IdText(s, p)
  {
    Entry(TypeText(s, p), AmountText(s, p), IdText(s, p))
  }

  /** An entry built from groups of the pattern's shape: dropped exactly
      when the integer part is all commas and there is no fraction; else
      its amount is the digits of the integer part read in base ten plus the
      fraction, and the entry is well formed. */
  lemma EntryOfGroups(kind: string, w: string, frac: Option<string>, id: string)
    requires |kind| > 0 && AllUpper(kind) && |id| > 0 && AllAlnum(id)
    requires DigitsAndCommas(w) && AllDigits(FracOf(frac)) && (frac.Some? ==> |frac.value| > 0)
    ensures Entry(kind, w + FracText(frac), id).None? <==> frac.None? && forall k :: 0 <= k < |w| ==> w[k] == ','
    ensures Entry(kind, w + FracText(frac), id).Some? ==>
              && Entry(kind, w + FracText(frac), id).value.amount == DigitsValue(Digits(w)) as real + FracValue(FracOf(frac))
              && WellFormed(Entry(kind, w + FracText(frac), id).value)
  {
    AmountOfParts(w, frac);
    NoDigitsAllCommas(w);
    DigitsValueNonNegative(Digits(w), FracOf(frac));
  }

  lemma DigitsValueNonNegative(d: string, f: string)
    requires AllDigits(d) && AllDigits(f)
    ensures DigitsValue(d) as real + FracValue(f) >= 0.0
  {
  }

  /** For a match of the pattern, the conversion fails only on an integer
      part made of commas alone with no fraction; otherwise the amount is the
      digits of the integer part read in base ten plus the fraction. */
  lemma ToTransactionOfMatch(s: string, p: Parse)
    requires Spans(s, p) && Groups(s, p)
    ensures ToTransaction(s, p).None? <==>
              FractionOf(s, p).None? && forall k :: 0 <= k < |IntText(s, p)| ==> IntText(s, p)[k] == ','
    ensures ToTransaction(s, p).Some? ==>
              && ToTransaction(s, p).value.amount == DigitsValue(Digits(IntText(s, p))) as real
                                                     + FracValue(FracOf(FractionOf(s, p)))
              && WellFormed(ToTransaction(s, p).value)
  {
    EntryOfGroups(TypeText(s, p), IntText(s, p), FractionOf(s, p), IdText(s, p));
  }

  /** The loop body, as a function of the match. */
  function EntryOf(s: string): Parse --> Option<Transaction> {
    p requires Spans(s, p) => ToTransaction(s, p)
  }

  /** The loop body applied to each match, in order. */
  function Entries(s: string, ms: seq<Parse>): (es: seq<Option<Transaction>>)
    requires forall k :: 0 <= k < |ms| ==> Spans(s, ms[k])
    ensures |es| == |ms|
    ensures forall k :: 0 <= k < |ms| ==> es[k] == ToTransaction(s, ms[k])
  {
    Map(EntryOf(s), ms)
  }

  /** The loop over the matches, in order, skipping those whose amount does
      not convert. */
  function Convert(s: string, ms: seq<Parse>): (ts: seq<Transaction>)
    requires forall k :: 0 <= k < |ms| ==> Spans(s, ms[k])
    ensures |ts| <= |ms|
  {
    Somes(Entries(s, ms))
  }

  /** The loop keeps the order of the matches: converting two runs of
      matches one after the other is converting them together. */
  lemma ConvertAppend(s: string, a: seq<Parse>, b: seq<Parse>)
    requires forall k :: 0 <= k < |a| ==> Spans(s, a[k])
    requires forall k :: 0 <= k < |b| ==> Spans(s, b[k])
    ensures Convert(s, a + b) == Convert(s, a) + Convert(s, b)
  {
    MapAppend(EntryOf(s), a, b);
    SomesAppend(Entries(s, a), Entries(s, b));
  }

  /** Converting matches of the pattern yields only well-formed entries. */
  lemma ConvertWellFormed(s: string, ms: seq<Parse>)
    requires forall k :: 0 <= k < |ms| ==> Spans(s, ms[k]) && Groups(s, ms[k])
    ensures forall k :: 0 <= k < |Convert(s, ms)| ==> WellFormed(Convert(s, ms)[k])
  {
    forall k | 0 <= k < |Convert(s, ms)|
      ensures WellFormed(Convert(s, ms)[k])
    {
      ConvertedWellFormed(s, ms, k);
    }
  }

  lemma ConvertedWellFormed(s: string, ms: seq<Parse>, k: nat)
    requires forall k :: 0 <= k < |ms| ==> Spans(s, ms[k]) && Groups(s, ms[k])
    requires k < |Convert(s, ms)|
    ensures WellFormed(Convert(s, ms)[k])
  {
    var es := Entries(s, ms);
    SomesFrom(es, k);
    var j :| 0 <= j < |es| && es[j] == Some(Somes(es)[k]);
    assert es[j] == ToTransaction(s, ms[j]);
    ToTransactionOfMatch(s, ms[j]);
  }

  /** The scan's matches: matches of the pattern, at most one per label. */
  function Matches(log: string): (ms: seq<Parse>)
    ensures forall k :: 0 <= k < |ms| ==> Shape(log, ms[k]) && Spans(log, ms[k]) && Groups(log, ms[k])
    ensures |ms| <= CountLabels(log, 0)
  {
    FindAllSound(log);
    FindAllBound(MatchTable(log), 0);
    MatchesStartWithLabel(log);
    MatchesNeedLabels(log, MatchTable(log), 0);
    var ms := FindAll(MatchTable(log), 0);
    AllGroups(log, ms);
    ms
  }

  lemma AllGroups(s: string, ms: seq<Parse>)
    requires forall k :: 0 <= k < |ms| ==> Shape(s, ms[k])
    ensures forall k :: 0 <= k < |ms| ==> Spans(s, ms[k]) && Groups(s, ms[k])
  {
    forall k | 0 <= k < |ms|
      ensures Spans(s, ms[k]) && Groups(s, ms[k])
    {
      ShapeGroups(s, ms[k]);
    }
  }

  /** `extract_transactions`: every non-overlapping match, in order, with
      its amount converted; entries whose amount does not convert are
      skipped. */
  function ExtractTransactions(log: string): (r: seq<Transaction>)
    ensures forall k :: 0 <= k < |r| ==> WellFormed(r[k])
    ensures |r| <= CountLabels(log, 0)
  {
    var ms := Matches(log);
    ConvertWellFormed(log, ms);
    Convert(log, ms)
  }

  /** Positions without a match do not change what the scan finds. */
  lemma {:induction false} FindAllSkips(t: seq<Option<Parse>>, i: nat, j: nat)
    requires IsTable(t) && i <= j <= |t|
    requires forall x :: i <= x < j ==> t[x].None?
    ensures FindAll(t, i) == FindAll(t, j)
    decreases j - i
  {
    if i < j {
      FindAllSkips(t, i + 1, j);
    }
  }

  /** A log without a `TXN:` label yields nothing. */
  lemma NoLabelNoTransactions(log: string)
    requires CountLabels(log, 0) == 0
    ensures ExtractTransactions(log) == []
  {
  }

  /** A literal occurs where its characters do. */
  lemma {:induction false} LitByChars(s: string, i: nat, w: string)
    requires i + |w| <= |s| && forall k :: 0 <= k < |w| ==> s[i + k] == w[k]
    ensures Lit(s, i, w)
    decreases |w|
  {
    if |w| > 0 {
      assert forall k :: 0 <= k < |w[1..]| ==> s[i + 1 + k] == w[1..][k] by {
        forall k | 0 <= k < |w[1..]| ensures s[i + 1 + k] == w[1..][k] {
          assert s[i + (k + 1)] == w[k + 1];
        }
      }
      LitByChars(s, i + 1, w[1..]);
    }
  }

  /** A `TXN:` label ends in `N:`. */
  lemma LabelEnd(s: string, j: nat)
    requires Lit(s, j, "TXN:")
    ensures j + 3 < |s| && s[j + 2] == 'N' && s[j + 3] == ':'
  {
    var w: string := "TXN:";
    assert Lit(s, j + 1, w[1..]);
    assert Lit(s, j + 2, w[1..][1..]);
    assert w[1..][1..] == "N:";
    assert Lit(s, j + 3, "N:"[1..]);
  }

  /** No colon after an `N` means no label. */
  lemma {:induction false} NoLabels(s: string, i: nat)
    requires i <= |s|
    requires forall k :: 0 < k < |s| && s[k] == ':' ==> s[k - 1] != 'N'
    ensures CountLabels(s, i) == 0
    decreases |s| - i
  {
    if i < |s| {
      if Lit(s, i, "TXN:") {
        LabelEnd(s, i);
        assert false;
      }
      NoLabels(s, i + 1);
    }
  }

  // ---------------------------------------------------------------------
  // Entries placed in a longer log
  // ---------------------------------------------------------------------

  /** `p` with every position moved `n` characters on. */
  function Shift(p: Parse, n: nat): Parse {
    Parse(p.start + n, p.typeStart + n, p.typeEnd + n, p.bar1 + n, p.amtLabel + n, p.amtStart + n,
          p.intEnd + n, p.amtEnd + n, p.bar2 + n, p.idLabel + n, p.idStart + n, p.idEnd + n)
  }

  lemma {:induction false} LitShift(pre: string, e: string, post: string, i: nat, w: string)
    requires Lit(e, i, w)
    ensures Lit(pre + e + post, |pre| + i, w)
    decreases |w|
  {
    if |w| > 0 {
      assert (pre + e + post)[|pre| + i] == e[i];
      LitShift(pre, e, post, i + 1, w[1..]);
    }
  }

  lemma RunShift(pre: string, e: string, post: string, i: nat, j: nat, k: Class)
    requires Run(e, i, j, k)
    ensures Run(pre + e + post, |pre| + i, |pre| + j, k)
  {
    var s := pre + e + post;
    forall x | |pre| + i <= x < |pre| + j
      ensures InClass(s[x], k)
    {
      assert s[x] == e[x - |pre|];
    }
  }

  /** Each segment of the pattern stays where it was, moved past `pre`. */
  lemma HeadShapeIn(pre: string, e: string, post: string, i: nat, a: nat, b: nat, c: nat)
    requires HeadShape(e, i, a, b, c)
    ensures var n := |pre|; HeadShape(pre + e + post, n + i, n + a, n + b, n + c)
  {
    LitShift(pre, e, post, i, "TXN:");
    RunShift(pre, e, post, i + 4, a, Space);
    RunShift(pre, e, post, a, b, Upper);
    RunShift(pre, e, post, b, c, Space);
    LitShift(pre, e, post, c, "|");
  }

  lemma AmountShapeIn(pre: string, e: string, post: string, j: nat, d: nat, f0: nat, f: nat, g: nat, h: nat)
    requires AmountShape(e, j, d, f0, f, g, h)
    ensures var n := |pre|; AmountShape(pre + e + post, n + j, n + d, n + f0, n + f, n + g, n + h)
  {
    RunShift(pre, e, post, j, d, Space);
    LitShift(pre, e, post, d, "AMT:");
    RunShift(pre, e, post, d + 4, f0, Space);
    RunShift(pre, e, post, f0, f, DigitOrComma);
    if g != f {
      LitShift(pre, e, post, f, ".");
      RunShift(pre, e, post, f + 1, g, Digit);
    }
    RunShift(pre, e, post, g, h, Space);
    LitShift(pre, e, post, h, "|");
  }

  lemma IdShapeIn(pre: string, e: string, post: string, j: nat, k: nat, l: nat, m: nat)
    requires IdShape(e, j, k, l, m)
    ensures var n := |pre|; IdShape(pre + e + post, n + j, n + k, n + l, n + m)
  {
    RunShift(pre, e, post, j, k, Space);
    LitShift(pre, e, post, k, "ID:");
    RunShift(pre, e, post, k + 3, l, Space);
    RunShift(pre, e, post, l, m, Alnum);
  }

  lemma HeadShift(pre: string, e: string, post: string, p: Parse)
    requires HeadShape(e, p.start, p.typeStart, p.typeEnd, p.bar1)
    ensures var q := Shift(p, |pre|); HeadShape(pre + e + post, q.start, q.typeStart, q.typeEnd, q.bar1)
  {
    HeadShapeIn(pre, e, post, p.start, p.typeStart, p.typeEnd, p.bar1);
  }

  lemma AmountShift(pre: string, e: string, post: string, p: Parse)
    requires AmountShape(e, p.bar1 + 1, p.amtLabel, p.amtStart, p.intEnd, p.amtEnd, p.bar2)
    ensures var q := Shift(p, |pre|);
            AmountShape(pre + e + post, q.bar1 + 1, q.amtLabel, q.amtStart, q.intEnd, q.amtEnd, q.bar2)
  {
    AmountShapeIn(pre, e, post, p.bar1 + 1, p.amtLabel, p.amtStart, p.intEnd, p.amtEnd, p.bar2);
  }

  lemma IdShift(pre: string, e: string, post: string, p: Parse)
    requires IdShape(e, p.bar2 + 1, p.idLabel, p.idStart, p.idEnd)
    ensures var q := Shift(p, |pre|); IdShape(pre + e + post, q.bar2 + 1, q.idLabel, q.idStart, q.idEnd)
  {
    IdShapeIn(pre, e, post, p.bar2 + 1, p.idLabel, p.idStart, p.idEnd);
  }

  /** A match stays a match, with the same groups, whatever text surrounds it. */
  lemma ShapeShift(pre: string, e: string, post: string, p: Parse)
    requires Shape(e, p)
    ensures Shape(pre + e + post, Shift(p, |pre|))
  {
    HeadShift(pre, e, post, p);
    AmountShift(pre, e, post, p);
    IdShift(pre, e, post, p);
  }

  /** A match of the pattern whose ID cannot be extended is the one the
      greedy matcher returns. */
  lemma ExactMatch(s: string, q: Parse)
    requires Shape(s, q) && MaximalId(s, q)
    ensures MatchAt(s, q.start) == Some(q)
  {
    MatchComplete(s, q);
    MatchSound(s, q.start);
  }

  /** An entry `e` the pattern matches whole is found where it stands in a
      log, whatever precedes it, when what follows cannot extend its ID. */
  lemma FoundInContext(s: string, pre: string, e: string, post: string, p: Parse)
    requires s == pre + e + post
    requires Shape(e, p) && p.start == 0 && p.idEnd == |e|
    requires |post| == 0 || !IsAlnum(post[0])
    ensures |pre| < |s| && MatchAt(s, |pre|) == Some(Shift(p, |pre|))
  {
    var q := Shift(p, |pre|);
    ShapeShift(pre, e, post, p);
    if |post| > 0 {
      assert s[q.idEnd] == post[0];
    }
    ExactMatch(s, q);
  }

  /** Where a match starts, the scan takes it and resumes right after it. */
  lemma ScanMatch(s: string, i: nat, q: Parse, j: nat)
    requires i < |s| && MatchAt(s, i) == Some(q) && q.idEnd == j
    ensures FindAll(MatchTable(s), i) == [q] + FindAll(MatchTable(s), j)
  {
    FindAllAt(MatchTable(s), i, q, j);
  }

  /** Where the table holds a match, the scan takes it and resumes at its end. */
  lemma FindAllAt(t: seq<Option<Parse>>, i: nat, q: Parse, j: nat)
    requires IsTable(t) && i < |t| && t[i] == Some(q) && q.idEnd == j
    ensures j <= |t| && FindAll(t, i) == [q] + FindAll(t, j)
  {
  }

  /** Text without a `T` holds no match, so the scan passes over it. */
  lemma ScanGap(s: string, pre: string, gap: string, post: string)
    requires s == pre + gap + post
    requires forall k :: 0 <= k < |gap| ==> gap[k] != 'T'
    ensures FindAll(MatchTable(s), |pre|) == FindAll(MatchTable(s), |pre| + |gap|)
  {
    var t := MatchTable(s);
    forall x | |pre| <= x < |pre| + |gap|
      ensures t[x].None?
    {
      assert s[x] == gap[x - |pre|];
      if t[x].Some? {
        MatchSound(s, x);
        LitFirst(s, x, "TXN:");
      }
    }
    FindAllSkips(t, |pre|, |pre| + |gap|);
  }

  /** An entry converts in a log as it does on its own. */
  lemma ConvertsInContext(s: string, pre: string, e: string, post: string, p: Parse)
    requires s == pre + e + post && Spans(e, p)
    ensures Spans(s, Shift(p, |pre|)) && ToTransaction(s, Shift(p, |pre|)) == ToTransaction(e, p)
  {
    var q, n := Shift(p, |pre|), |pre|;
    assert TypeText(s, q) == TypeText(e, p);
    assert AmountText(s, q) == AmountText(e, p);
    assert IdText(s, q) == IdText(e, p);
  }

  /** An entry whose groups read `kind`, `w` with the optional fraction
      `frac`, and `id`, placed in a longer log, converts there to the
      transaction those parts describe. */
  lemma EntryInLog(s: string, pre: string, e: string, post: string, p: Parse,
                   kind: string, w: string, frac: Option<string>, id: string, v: real)
    requires s == pre + e + post && Spans(e, p)
    requires TypeText(e, p) == kind && IdText(e, p) == id && AmountText(e, p) == w + FracText(frac)
    requires DigitsAndCommas(w) && |Digits(w)| > 0
    requires AllDigits(FracOf(frac)) && (frac.Some? ==> |frac.value| > 0)
    requires DigitsValue(Digits(w)) as real + FracValue(FracOf(frac)) == v
    ensures Spans(s, Shift(p, |pre|))
    ensures ToTransaction(s, Shift(p, |pre|)) == Some(Transaction(kind, v, id))
  {
    ConvertsInContext(s, pre, e, post, p);
    EntryOfParts(kind, w, frac, id, v);
  }

  /** When every match converts, the loop keeps them all, in order. */
  lemma ConvertAll(s: string, ms: seq<Parse>)
    requires forall k :: 0 <= k < |ms| ==> Spans(s, ms[k]) && ToTransaction(s, ms[k]).Some?
    ensures |Convert(s, ms)| == |ms|
    ensures forall k :: 0 <= k < |ms| ==> Convert(s, ms)[k] == ToTransaction(s, ms[k]).value
  {
    SomesAll(Entries(s, ms));
  }

  /** The transactions of a log are its matches, converted. */
  lemma ExtractOfMatches(s: string, ms: seq<Parse>)
    requires Matches(s) == ms
    ensures forall k :: 0 <= k < |ms| ==> Spans(s, ms[k])
    ensures ExtractTransactions(s) == Convert(s, ms)
  {
  }

  // ---------------------------------------------------------------------
  // The examples the module's own checks list
  // ---------------------------------------------------------------------

  /** Spaced-out words without colons are not entries. */
  lemma ExampleNoColons()
    ensures ExtractTransactions("TXN CREDIT AMT 123 ID 999") == []
  {
    var s: string := "TXN CREDIT AMT 123 ID 999";
    NoLabels(s, 0);
    NoLabelNoTransactions(s);
  }

  /** Labels in mixed case are not entries. */
  lemma ExampleMixedCase()
    ensures ExtractTransactions("Txn:Credit | Amt:50 | Id:abc999") == []
  {
    var s: string := "Txn:Credit | Amt:50 | Id:abc999";
    NoLabels(s, 0);
    NoLabelNoTransactions(s);
  }

  const OneEntry: string := "TXN:" + "CREDIT" + " | AMT:" + "1,250.50" + " | ID:" + "AB123"

  /** The boundaries of the one match in `OneEntry`. */
  const OneParse: Parse := Parse(0, 4, 10, 11, 13, 17, 22, 25, 26, 28, 31, 36)

  lemma OneEntryHead()
    ensures HeadShape(OneEntry, 0, 4, 10, 11)
  {
    LitByChars(OneEntry, 0, "TXN:");
    LitByChars(OneEntry, 11, "|");
  }

  lemma OneEntryAmount()
    ensures AmountShape(OneEntry, 12, 13, 17, 22, 25, 26)
  {
    LitByChars(OneEntry, 13, "AMT:");
    LitByChars(OneEntry, 22, ".");
    LitByChars(OneEntry, 26, "|");
  }

  lemma OneEntryId()
    ensures IdShape(OneEntry, 27, 28, 31, 36)
  {
    LitByChars(OneEntry, 28, "ID:");
  }

  lemma OneEntryShape()
    ensures Shape(OneEntry, OneParse)
  {
    OneEntryHead();
    OneEntryAmount();
    OneEntryId();
  }

  lemma OneEntryScan()
    ensures Matches(OneEntry) == [OneParse]
  {
    var s, t := OneEntry, MatchTable(OneEntry);
    OneEntryShape();
    MatchComplete(s, OneParse);
    assert t[0] == Some(OneParse);
    assert FindAll(t, 0) == [OneParse] + FindAll(t, |s|);
  }

  lemma OneEntryTypeText()
    ensures Spans(OneEntry, OneParse) && TypeText(OneEntry, OneParse) == "CREDIT"
  {
    var s := OneEntry;
    assert s[4] == 'C' && s[5] == 'R' && s[6] == 'E';
    assert s[7] == 'D' && s[8] == 'I' && s[9] == 'T';
  }

  lemma OneEntryIdText()
    ensures Spans(OneEntry, OneParse) && IdText(OneEntry, OneParse) == "AB123"
  {
    var s := OneEntry;
    assert s[31] == 'A' && s[32] == 'B' && s[33] == '1';
    assert s[34] == '2' && s[35] == '3';
  }

  lemma OneEntryAmountText()
    ensures Spans(OneEntry, OneParse) && AmountText(OneEntry, OneParse) == "1,250" + FracText(Some("50"))
  {
    var s := OneEntry;
    assert s[17] == '1' && s[18] == ',' && s[19] == '2';
    assert s[20] == '5' && s[21] == '0' && s[22] == '.';
    assert s[23] == '5' && s[24] == '0';
  }

  lemma OneEntryTexts()
    ensures Spans(OneEntry, OneParse)
    ensures TypeText(OneEntry, OneParse) == "CREDIT" && IdText(OneEntry, OneParse) == "AB123"
    ensures AmountText(OneEntry, OneParse) == "1,250" + FracText(Some("50"))
  {
    OneEntryTypeText();
    OneEntryIdText();
    OneEntryAmountText();
  }
  lemma OneEntryValue()
    ensures DigitsValue(Digits("1,250")) as real + FracValue("50") == 1250.50
  {
    assert Digits("1,250") == "1250";
    ValueOf1250Point50();
  }

  /** An entry whose integer part has a digit converts to the value of its
      parts. */
  lemma EntryOfParts(kind: string, w: string, frac: Option<string>, id: string, v: real)
    requires DigitsAndCommas(w) && |Digits(w)| > 0
    requires AllDigits(FracOf(frac)) && (frac.Some? ==> |frac.value| > 0)
    requires DigitsValue(Digits(w)) as real + FracValue(FracOf(frac)) == v
    ensures Entry(kind, w + FracText(frac), id) == Some(Transaction(kind, v, id))
  {
    var a := w + FracText(frac);
    AmountOfParts(w, frac);
    var e := Entry(kind, a, id);
    assert e.Some?;
    assert e.value == Transaction(kind, v, id);
  }

  lemma OneEntryConverts()
    ensures Spans(OneEntry, OneParse)
    ensures ToTransaction(OneEntry, OneParse) == Some(Transaction("CREDIT", 1250.50, "AB123"))
  {
    OneEntryTexts();
    OneEntryValue();
    EntryOfParts("CREDIT", "1,250", Some("50"), "AB123", 1250.50);
  }

  /** One entry with a grouped amount and a fraction. */
  lemma ExampleOneEntry()
    ensures ExtractTransactions(OneEntry) == [Transaction("CREDIT", 1250.50, "AB123")]
  {
    OneEntryScan();
    OneEntryConverts();
    ConvertOne(OneEntry, OneParse);
  }

  /** A single match converts to its entry, if any. */
  lemma ConvertOne(s: string, p: Parse)
    requires Spans(s, p)
    ensures ToTransaction(s, p).Some? ==> Convert(s, [p]) == [ToTransaction(s, p).value]
  {
    var es := Entries(s, [p]);
    assert es == [ToTransaction(s, p)];
    SomesSingle(ToTransaction(s, p));
  }

  /** The line break and indentation before, between and after the entries
      of the multi-line example logs. */
  const Indent: string := "\n            "

  /** A debit with two spaces before its first bar and a whole amount. */
  const DebitLine: string := "TXN:" + "DEBIT" + "  | AMT:" + "500" + " | ID:" + "XY789"
  const DebitParse: Parse := Parse(0, 4, 9, 11, 13, 17, 20, 20, 21, 23, 26, 31)

  /** Two entries on lines of their own. */
  const BasicLog: string := Indent + OneEntry + Indent + DebitLine + Indent

  /** Two entries on one line, the first without spaces around its bars. */
  const MessyFirst: string := "TXN: " + "DEBIT" + "|AMT:" + "1000" + "|ID:" + "XYZ42"
  const MessyFirstParse: Parse := Parse(0, 5, 10, 10, 11, 15, 19, 19, 19, 20, 23, 28)
  const MessySecond: string := "TXN:" + "CREDIT" + " | AMT:" + "200.75" + " | ID:" + "LMN55"
  const MessySecondParse: Parse := Parse(0, 4, 10, 11, 13, 17, 20, 23, 24, 26, 29, 34)
  const MessyLog: string := MessyFirst + " " + MessySecond

  /** Three entries with a line that is not an entry after the first. */
  const MixedFirst: string := "TXN:" + "CREDIT" + " | AMT:" + "10,000.00" + " | ID:" + "TXN001"
  const MixedFirstParse: Parse := Parse(0, 4, 10, 11, 13, 17, 23, 26, 27, 29, 32, 38)
  const MixedSecond: string := "TXN:" + "DEBIT" + " | AMT:" + "5,500.25" + " | ID:" + "ABC987"
  const MixedSecondParse: Parse := Parse(0, 4, 9, 10, 12, 16, 21, 24, 25, 27, 30, 36)
  const MixedThird: string := "TXN:" + "CREDIT" + " | AMT:" + "250" + " | ID:" + "XYZ111"
  const MixedThirdParse: Parse := Parse(0, 4, 10, 11, 13, 17, 20, 20, 21, 23, 26, 32)
  const MixedLog: string := Indent + MixedFirst + Indent + "INVALID LINE" + Indent + MixedSecond + Indent + MixedThird + Indent

  lemma DebitLineHead()
    ensures HeadShape(DebitLine, 0, 4, 9, 11)
  {
    LitByChars(DebitLine, 0, "TXN:");
    LitByChars(DebitLine, 11, "|");
  }

  lemma DebitLineAmount()
    ensures AmountShape(DebitLine, 12, 13, 17, 20, 20, 21)
  {
    LitByChars(DebitLine, 13, "AMT:");
    LitByChars(DebitLine, 21, "|");
  }

  lemma DebitLineId()
    ensures IdShape(DebitLine, 22, 23, 26, 31)
  {
    LitByChars(DebitLine, 23, "ID:");
  }

  lemma DebitLineShape()
    ensures Shape(DebitLine, DebitParse)
  {
    DebitLineHead();
    DebitLineAmount();
    DebitLineId();
  }

  lemma DebitLineTypeText()
    ensures Spans(DebitLine, DebitParse) && TypeText(DebitLine, DebitParse) == "DEBIT"
  {
    var s := DebitLine;
    assert s[4] == 'D' && s[5] == 'E' && s[6] == 'B';
    assert s[7] == 'I' && s[8] == 'T';
  }

  lemma DebitLineIdText()
    ensures Spans(DebitLine, DebitParse) && IdText(DebitLine, DebitParse) == "XY789"
  {
    var s := DebitLine;
    assert s[26] == 'X' && s[27] == 'Y' && s[28] == '7';
    assert s[29] == '8' && s[30] == '9';
  }

  lemma DebitLineAmountText()
    ensures Spans(DebitLine, DebitParse) && AmountText(DebitLine, DebitParse) == "500" + FracText(None)
  {
    var s := DebitLine;
    assert s[17] == '5' && s[18] == '0' && s[19] == '0';
  }

  lemma DebitLineTexts()
    ensures Spans(DebitLine, DebitParse)
    ensures TypeText(DebitLine, DebitParse) == "DEBIT" && IdText(DebitLine, DebitParse) == "XY789"
    ensures AmountText(DebitLine, DebitParse) == "500" + FracText(None)
  {
    DebitLineTypeText();
    DebitLineIdText();
    DebitLineAmountText();
  }

  lemma DebitLineValue()
    ensures DigitsValue(Digits("500")) as real + FracValue(FracOf(None)) == 500.0
  {
    assert Digits("500") == "500";
    assert "500"[..2] == "50" && "50"[..1] == "5";
    assert DigitsValue("5") == 5 && DigitsValue("50") == 50 && DigitsValue("500") == 500;
    assert FracValue("") == 0.0;
  }

  lemma MessyFirstHead()
    ensures HeadShape(MessyFirst, 0, 5, 10, 10)
  {
    LitByChars(MessyFirst, 0, "TXN:");
    LitByChars(MessyFirst, 10, "|");
  }

  lemma MessyFirstAmount()
    ensures AmountShape(MessyFirst, 11, 11, 15, 19, 19, 19)
  {
    LitByChars(MessyFirst, 11, "AMT:");
    LitByChars(MessyFirst, 19, "|");
  }

  lemma MessyFirstId()
    ensures IdShape(MessyFirst, 20, 20, 23, 28)
  {
    LitByChars(MessyFirst, 20, "ID:");
  }

  lemma MessyFirstShape()
    ensures Shape(MessyFirst, MessyFirstParse)
  {
    MessyFirstHead();
    MessyFirstAmount();
    MessyFirstId();
  }

  lemma MessyFirstTypeText()
    ensures Spans(MessyFirst, MessyFirstParse) && TypeText(MessyFirst, MessyFirstParse) == "DEBIT"
  {
    var s := MessyFirst;
    assert s[5] == 'D' && s[6] == 'E' && s[7] == 'B';
    assert s[8] == 'I' && s[9] == 'T';
  }

  lemma MessyFirstIdText()
    ensures Spans(MessyFirst, MessyFirstParse) && IdText(MessyFirst, MessyFirstParse) == "XYZ42"
  {
    var s := MessyFirst;
    assert s[23] == 'X' && s[24] == 'Y' && s[25] == 'Z';
    assert s[26] == '4' && s[27] == '2';
  }

  lemma MessyFirstAmountText()
    ensures Spans(MessyFirst, MessyFirstParse) && AmountText(MessyFirst, MessyFirstParse) == "1000" + FracText(None)
  {
    var s := MessyFirst;
    assert s[15] == '1' && s[16] == '0' && s[17] == '0';
    assert s[18] == '0';
  }

  lemma MessyFirstTexts()
    ensures Spans(MessyFirst, MessyFirstParse)
    ensures TypeText(MessyFirst, MessyFirstParse) == "DEBIT" && IdText(MessyFirst, MessyFirstParse) == "XYZ42"
    ensures AmountText(MessyFirst, MessyFirstParse) == "1000" + FracText(None)
  {
    MessyFirstTypeText();
    MessyFirstIdText();
    MessyFirstAmountText();
  }

  lemma MessyFirstValue()
    ensures DigitsValue(Digits("1000")) as real + FracValue(FracOf(None)) == 1000.0
  {
    assert Digits("1000") == "1000";
    assert "1000"[..3] == "100" && "100"[..2] == "10" && "10"[..1] == "1";
    assert DigitsValue("1") == 1 && DigitsValue("10") == 10 && DigitsValue("100") == 100 && DigitsValue("1000") == 1000;
    assert FracValue("") == 0.0;
  }

  lemma MessySecondHead()
    ensures HeadShape(MessySecond, 0, 4, 10, 11)
  {
    LitByChars(MessySecond, 0, "TXN:");
    LitByChars(MessySecond, 11, "|");
  }

  lemma MessySecondAmount()
    ensures AmountShape(MessySecond, 12, 13, 17, 20, 23, 24)
  {
    LitByChars(MessySecond, 13, "AMT:");
    LitByChars(MessySecond, 20, ".");
    LitByChars(MessySecond, 24, "|");
  }

  lemma MessySecondId()
    ensures IdShape(MessySecond, 25, 26, 29, 34)
  {
    LitByChars(MessySecond, 26, "ID:");
  }

  lemma MessySecondShape()
    ensures Shape(MessySecond, MessySecondParse)
  {
    MessySecondHead();
    MessySecondAmount();
    MessySecondId();
  }

  lemma MessySecondTypeText()
    ensures Spans(MessySecond, MessySecondParse) && TypeText(MessySecond, MessySecondParse) == "CREDIT"
  {
    var s := MessySecond;
    assert s[4] == 'C' && s[5] == 'R' && s[6] == 'E';
    assert s[7] == 'D' && s[8] == 'I' && s[9] == 'T';
  }

  lemma MessySecondIdText()
    ensures Spans(MessySecond, MessySecondParse) && IdText(MessySecond, MessySecondParse) == "LMN55"
  {
    var s := MessySecond;
    assert s[29] == 'L' && s[30] == 'M' && s[31] == 'N';
    assert s[32] == '5' && s[33] == '5';
  }

  lemma MessySecondAmountText()
    ensures Spans(MessySecond, MessySecondParse) && AmountText(MessySecond, MessySecondParse) == "200" + FracText(Some("75"))
  {
    var s := MessySecond;
    assert s[17] == '2' && s[18] == '0' && s[19] == '0';
    assert s[20] == '.' && s[21] == '7' && s[22] == '5';
  }

  lemma MessySecondTexts()
    ensures Spans(MessySecond, MessySecondParse)
    ensures TypeText(MessySecond, MessySecondParse) == "CREDIT" && IdText(MessySecond, MessySecondParse) == "LMN55"
    ensures AmountText(MessySecond, MessySecondParse) == "200" + FracText(Some("75"))
  {
    MessySecondTypeText();
    MessySecondIdText();
    MessySecondAmountText();
  }

  lemma MessySecondValue()
    ensures DigitsValue(Digits("200")) as real + FracValue(FracOf(Some("75"))) == 200.75
  {
    assert Digits("200") == "200";
    assert "200"[..2] == "20" && "20"[..1] == "2";
    assert DigitsValue("2") == 2 && DigitsValue("20") == 20 && DigitsValue("200") == 200;
    assert "75"[..1] == "7";
    assert DigitsValue("7") == 7 && DigitsValue("75") == 75;
    assert Pow10(2) == 100;
    assert FracValue("75") == 0.75;
  }

  lemma MixedFirstHead()
    ensures HeadShape(MixedFirst, 0, 4, 10, 11)
  {
    LitByChars(MixedFirst, 0, "TXN:");
    LitByChars(MixedFirst, 11, "|");
  }

  lemma MixedFirstAmount()
    ensures AmountShape(MixedFirst, 12, 13, 17, 23, 26, 27)
  {
    LitByChars(MixedFirst, 13, "AMT:");
    LitByChars(MixedFirst, 23, ".");
    LitByChars(MixedFirst, 27, "|");
  }

  lemma MixedFirstId()
    ensures IdShape(MixedFirst, 28, 29, 32, 38)
  {
    LitByChars(MixedFirst, 29, "ID:");
  }

  lemma MixedFirstShape()
    ensures Shape(MixedFirst, MixedFirstParse)
  {
    MixedFirstHead();
    MixedFirstAmount();
    MixedFirstId();
  }

  lemma MixedFirstTypeText()
    ensures Spans(MixedFirst, MixedFirstParse) && TypeText(MixedFirst, MixedFirstParse) == "CREDIT"
  {
    var s := MixedFirst;
    assert s[4] == 'C' && s[5] == 'R' && s[6] == 'E';
    assert s[7] == 'D' && s[8] == 'I' && s[9] == 'T';
  }

  lemma MixedFirstIdText()
    ensures Spans(MixedFirst, MixedFirstParse) && IdText(MixedFirst, MixedFirstParse) == "TXN001"
  {
    var s := MixedFirst;
    assert s[32] == 'T' && s[33] == 'X' && s[34] == 'N';
    assert s[35] == '0' && s[36] == '0' && s[37] == '1';
  }

  lemma MixedFirstAmountText()
    ensures Spans(MixedFirst, MixedFirstParse) && AmountText(MixedFirst, MixedFirstParse) == "10,000" + FracText(Some("00"))
  {
    var s := MixedFirst;
    assert s[17] == '1' && s[18] == '0' && s[19] == ',';
    assert s[20] == '0' && s[21] == '0' && s[22] == '0';
    assert s[23] == '.' && s[24] == '0' && s[25] == '0';
  }

  lemma MixedFirstTexts()
    ensures Spans(MixedFirst, MixedFirstParse)
    ensures TypeText(MixedFirst, MixedFirstParse) == "CREDIT" && IdText(MixedFirst, MixedFirstParse) == "TXN001"
    ensures AmountText(MixedFirst, MixedFirstParse) == "10,000" + FracText(Some("00"))
  {
    MixedFirstTypeText();
    MixedFirstIdText();
    MixedFirstAmountText();
  }

  lemma MixedFirstValue()
    ensures DigitsValue(Digits("10,000")) as real + FracValue(FracOf(Some("00"))) == 10000.0
  {
    assert Digits("10,000") == "10000";
    assert "10000"[..4] == "1000" && "1000"[..3] == "100" && "100"[..2] == "10" && "10"[..1] == "1";
    assert DigitsValue("1") == 1 && DigitsValue("10") == 10 && DigitsValue("100") == 100 && DigitsValue("1000") == 1000 && DigitsValue("10000") == 10000;
    assert "00"[..1] == "0";
    assert DigitsValue("0") == 0 && DigitsValue("00") == 0;
    assert Pow10(2) == 100;
    assert FracValue("00") == 0.0;
  }

  lemma MixedSecondHead()
    ensures HeadShape(MixedSecond, 0, 4, 9, 10)
  {
    LitByChars(MixedSecond, 0, "TXN:");
    LitByChars(MixedSecond, 10, "|");
  }

  lemma MixedSecondAmount()
    ensures AmountShape(MixedSecond, 11, 12, 16, 21, 24, 25)
  {
    LitByChars(MixedSecond, 12, "AMT:");
    LitByChars(MixedSecond, 21, ".");
    LitByChars(MixedSecond, 25, "|");
  }

  lemma MixedSecondId()
    ensures IdShape(MixedSecond, 26, 27, 30, 36)
  {
    LitByChars(MixedSecond, 27, "ID:");
  }

  lemma MixedSecondShape()
    ensures Shape(MixedSecond, MixedSecondParse)
  {
    MixedSecondHead();
    MixedSecondAmount();
    MixedSecondId();
  }

  lemma MixedSecondTypeText()
    ensures Spans(MixedSecond, MixedSecondParse) && TypeText(MixedSecond, MixedSecondParse) == "DEBIT"
  {
    var s := MixedSecond;
    assert s[4] == 'D' && s[5] == 'E' && s[6] == 'B';
    assert s[7] == 'I' && s[8] == 'T';
  }

  lemma MixedSecondIdText()
    ensures Spans(MixedSecond, MixedSecondParse) && IdText(MixedSecond, MixedSecondParse) == "ABC987"
  {
    var s := MixedSecond;
    assert s[30] == 'A' && s[31] == 'B' && s[32] == 'C';
    assert s[33] == '9' && s[34] == '8' && s[35] == '7';
  }

  lemma MixedSecondAmountText()
    ensures Spans(MixedSecond, MixedSecondParse) && AmountText(MixedSecond, MixedSecondParse) == "5,500" + FracText(Some("25"))
  {
    var s := MixedSecond;
    assert s[16] == '5' && s[17] == ',' && s[18] == '5';
    assert s[19] == '0' && s[20] == '0' && s[21] == '.';
    assert s[22] == '2' && s[23] == '5';
  }

  lemma MixedSecondTexts()
    ensures Spans(MixedSecond, MixedSecondParse)
    ensures TypeText(MixedSecond, MixedSecondParse) == "DEBIT" && IdText(MixedSecond, MixedSecondParse) == "ABC987"
    ensures AmountText(MixedSecond, MixedSecondParse) == "5,500" + FracText(Some("25"))
  {
    MixedSecondTypeText();
    MixedSecondIdText();
    MixedSecondAmountText();
  }

  lemma MixedSecondValue()
    ensures DigitsValue(Digits("5,500")) as real + FracValue(FracOf(Some("25"))) == 5500.25
  {
    assert Digits("5,500") == "5500";
    assert "5500"[..3] == "550" && "550"[..2] == "55" && "55"[..1] == "5";
    assert DigitsValue("5") == 5 && DigitsValue("55") == 55 && DigitsValue("550") == 550 && DigitsValue("5500") == 5500;
    assert "25"[..1] == "2";
    assert DigitsValue("2") == 2 && DigitsValue("25") == 25;
    assert Pow10(2) == 100;
    assert FracValue("25") == 0.25;
  }

  lemma MixedThirdHead()
    ensures HeadShape(MixedThird, 0, 4, 10, 11)
  {
    LitByChars(MixedThird, 0, "TXN:");
    LitByChars(MixedThird, 11, "|");
  }

  lemma MixedThirdAmount()
    ensures AmountShape(MixedThird, 12, 13, 17, 20, 20, 21)
  {
    LitByChars(MixedThird, 13, "AMT:");
    LitByChars(MixedThird, 21, "|");
  }

  lemma MixedThirdId()
    ensures IdShape(MixedThird, 22, 23, 26, 32)
  {
    LitByChars(MixedThird, 23, "ID:");
  }

  lemma MixedThirdShape()
    ensures Shape(MixedThird, MixedThirdParse)
  {
    MixedThirdHead();
    MixedThirdAmount();
    MixedThirdId();
  }

  lemma MixedThirdTypeText()
    ensures Spans(MixedThird, MixedThirdParse) && TypeText(MixedThird, MixedThirdParse) == "CREDIT"
  {
    var s := MixedThird;
    assert s[4] == 'C' && s[5] == 'R' && s[6] == 'E';
    assert s[7] == 'D' && s[8] == 'I' && s[9] == 'T';
  }

  lemma MixedThirdIdText()
    ensures Spans(MixedThird, MixedThirdParse) && IdText(MixedThird, MixedThirdParse) == "XYZ111"
  {
    var s := MixedThird;
    assert s[26] == 'X' && s[27] == 'Y' && s[28] == 'Z';
    assert s[29] == '1' && s[30] == '1' && s[31] == '1';
  }

  lemma MixedThirdAmountText()
    ensures Spans(MixedThird, MixedThirdParse) && AmountText(MixedThird, MixedThirdParse) == "250" + FracText(None)
  {
    var s := MixedThird;
    assert s[17] == '2' && s[18] == '5' && s[19] == '0';
  }

  lemma MixedThirdTexts()
    ensures Spans(MixedThird, MixedThirdParse)
    ensures TypeText(MixedThird, MixedThirdParse) == "CREDIT" && IdText(MixedThird, MixedThirdParse) == "XYZ111"
    ensures AmountText(MixedThird, MixedThirdParse) == "250" + FracText(None)
  {
    MixedThirdTypeText();
    MixedThirdIdText();
    MixedThirdAmountText();
  }

  lemma MixedThirdValue()
    ensures DigitsValue(Digits("250")) as real + FracValue(FracOf(None)) == 250.0
  {
    assert Digits("250") == "250";
    assert "250"[..2] == "25" && "25"[..1] == "2";
    assert DigitsValue("2") == 2 && DigitsValue("25") == 25 && DigitsValue("250") == 250;
    assert FracValue("") == 0.0;
  }

  /** Where each part of a log built from 5 parts sits. */
  lemma BasicSplits(x1: string, x2: string, x3: string, x4: string, x5: string)
    ensures x1 + x2 + x3 + x4 + x5 == "" + x1 + (x2 + x3 + x4 + x5)
    ensures x1 + x2 + x3 + x4 + x5 == x1 + x2 + (x3 + x4 + x5)
    ensures x1 + x2 + x3 + x4 + x5 == (x1 + x2) + x3 + (x4 + x5)
    ensures x1 + x2 + x3 + x4 + x5 == (x1 + x2 + x3) + x4 + (x5)
    ensures x1 + x2 + x3 + x4 + x5 == (x1 + x2 + x3 + x4) + x5 + ("")
  {
  }

  lemma BasicStep1()
    ensures FindAll(MatchTable(BasicLog), 0) == [Shift(OneParse, 13), Shift(DebitParse, 62)]
  {
    BasicSplits(Indent, OneEntry, Indent, DebitLine, Indent);
    ScanGap(BasicLog, "", Indent, (OneEntry + Indent + DebitLine + Indent));
    BasicStep2();
  }

  lemma OneEntryInBasicFound()
    ensures 13 < |BasicLog| && MatchAt(BasicLog, 13) == Some(Shift(OneParse, 13))
  {
    BasicSplits(Indent, OneEntry, Indent, DebitLine, Indent);
    OneEntryShape();
    FoundInContext(BasicLog, (Indent), OneEntry, (Indent + DebitLine + Indent), OneParse);
  }

  lemma BasicStep2()
    ensures FindAll(MatchTable(BasicLog), 13) == [Shift(OneParse, 13), Shift(DebitParse, 62)]
  {
    OneEntryInBasicFound();
    ScanMatch(BasicLog, 13, Shift(OneParse, 13), 13 + |OneEntry|);
    BasicStep3();
  }

  lemma BasicStep3()
    ensures FindAll(MatchTable(BasicLog), 49) == [Shift(DebitParse, 62)]
  {
    BasicSplits(Indent, OneEntry, Indent, DebitLine, Indent);
    ScanGap(BasicLog, (Indent + OneEntry), Indent, (DebitLine + Indent));
    BasicStep4();
  }

  lemma DebitLineInBasicFound()
    ensures 62 < |BasicLog| && MatchAt(BasicLog, 62) == Some(Shift(DebitParse, 62))
  {
    BasicSplits(Indent, OneEntry, Indent, DebitLine, Indent);
    DebitLineShape();
    FoundInContext(BasicLog, (Indent + OneEntry + Indent), DebitLine, (Indent), DebitParse);
  }

  lemma BasicStep4()
    ensures FindAll(MatchTable(BasicLog), 62) == [Shift(DebitParse, 62)]
  {
    DebitLineInBasicFound();
    ScanMatch(BasicLog, 62, Shift(DebitParse, 62), 62 + |DebitLine|);
    BasicStep5();
  }

  lemma BasicStep5()
    ensures FindAll(MatchTable(BasicLog), 93) == []
  {
    BasicSplits(Indent, OneEntry, Indent, DebitLine, Indent);
    ScanGap(BasicLog, (Indent + OneEntry + Indent + DebitLine), Indent, "");
    BasicEnd();
  }

  lemma BasicEnd()
    ensures FindAll(MatchTable(BasicLog), 106) == []
  {
    assert |MatchTable(BasicLog)| == 106;
  }

  lemma BasicScan()
    ensures Matches(BasicLog) == [Shift(OneParse, 13), Shift(DebitParse, 62)]
  {
    BasicStep1();
  }

  lemma OneEntryInBasic()
    ensures Spans(BasicLog, Shift(OneParse, 13))
    ensures ToTransaction(BasicLog, Shift(OneParse, 13)) == Some(Transaction("CREDIT", 1250.50, "AB123"))
  {
    BasicSplits(Indent, OneEntry, Indent, DebitLine, Indent);
    OneEntryTexts();
    OneEntryValue();
    EntryInLog(BasicLog, (Indent), OneEntry, (Indent + DebitLine + Indent), OneParse, "CREDIT", "1,250", Some("50"), "AB123", 1250.50);
  }

  lemma DebitLineInBasic()
    ensures Spans(BasicLog, Shift(DebitParse, 62))
    ensures ToTransaction(BasicLog, Shift(DebitParse, 62)) == Some(Transaction("DEBIT", 500.0, "XY789"))
  {
    BasicSplits(Indent, OneEntry, Indent, DebitLine, Indent);
    DebitLineTexts();
    DebitLineValue();
    EntryInLog(BasicLog, (Indent + OneEntry + Indent), DebitLine, (Indent), DebitParse, "DEBIT", "500", None, "XY789", 500.0);
  }

  lemma BasicConverted()
    ensures Convert(BasicLog, [Shift(OneParse, 13), Shift(DebitParse, 62)])
         == [Transaction("CREDIT", 1250.50, "AB123"), Transaction("DEBIT", 500.0, "XY789")]
  {
    OneEntryInBasic();
    DebitLineInBasic();
    SomesMapTwo(EntryOf(BasicLog), Shift(OneParse, 13), Shift(DebitParse, 62),
      Transaction("CREDIT", 1250.50, "AB123"), Transaction("DEBIT", 500.0, "XY789"));
  }

  /** Two entries, each on a line of its own, read in order; the whole amount
      and the extra space before the first bar are accepted. */
  lemma ExampleBasicLog()
    ensures ExtractTransactions(BasicLog) == [Transaction("CREDIT", 1250.50, "AB123"), Transaction("DEBIT", 500.0, "XY789")]
  {
    BasicScan();
    ExtractOfMatches(BasicLog, [Shift(OneParse, 13), Shift(DebitParse, 62)]);
    BasicConverted();
  }

  /** Where each part of a log built from 3 parts sits. */
  lemma MessySplits(x1: string, x2: string, x3: string)
    ensures x1 + x2 + x3 == "" + x1 + (x2 + x3)
    ensures x1 + x2 + x3 == x1 + x2 + (x3)
    ensures x1 + x2 + x3 == (x1 + x2) + x3 + ("")
  {
  }

  lemma MessyFirstFound()
    ensures 0 < |MessyLog| && MatchAt(MessyLog, 0) == Some(Shift(MessyFirstParse, 0))
  {
    MessySplits(MessyFirst, " ", MessySecond);
    MessyFirstShape();
    FoundInContext(MessyLog, "", MessyFirst, (" " + MessySecond), MessyFirstParse);
  }

  lemma MessyStep1()
    ensures FindAll(MatchTable(MessyLog), 0) == [Shift(MessyFirstParse, 0), Shift(MessySecondParse, 29)]
  {
    MessyFirstFound();
    ScanMatch(MessyLog, 0, Shift(MessyFirstParse, 0), 0 + |MessyFirst|);
    MessyStep2();
  }

  lemma MessyStep2()
    ensures FindAll(MatchTable(MessyLog), 28) == [Shift(MessySecondParse, 29)]
  {
    MessySplits(MessyFirst, " ", MessySecond);
    ScanGap(MessyLog, (MessyFirst), " ", (MessySecond));
    MessyStep3();
  }

  lemma MessySecondFound()
    ensures 29 < |MessyLog| && MatchAt(MessyLog, 29) == Some(Shift(MessySecondParse, 29))
  {
    MessySplits(MessyFirst, " ", MessySecond);
    MessySecondShape();
    FoundInContext(MessyLog, (MessyFirst + " "), MessySecond, "", MessySecondParse);
  }

  lemma MessyStep3()
    ensures FindAll(MatchTable(MessyLog), 29) == [Shift(MessySecondParse, 29)]
  {
    MessySecondFound();
    ScanMatch(MessyLog, 29, Shift(MessySecondParse, 29), 29 + |MessySecond|);
    MessyEnd();
  }

  lemma MessyEnd()
    ensures FindAll(MatchTable(MessyLog), 63) == []
  {
    assert |MatchTable(MessyLog)| == 63;
  }

  lemma MessyScan()
    ensures Matches(MessyLog) == [Shift(MessyFirstParse, 0), Shift(MessySecondParse, 29)]
  {
    MessyStep1();
  }

  lemma MessyFirstInLog()
    ensures Spans(MessyLog, Shift(MessyFirstParse, 0))
    ensures ToTransaction(MessyLog, Shift(MessyFirstParse, 0)) == Some(Transaction("DEBIT", 1000.0, "XYZ42"))
  {
    MessySplits(MessyFirst, " ", MessySecond);
    MessyFirstTexts();
    MessyFirstValue();
    EntryInLog(MessyLog, "", MessyFirst, (" " + MessySecond), MessyFirstParse, "DEBIT", "1000", None, "XYZ42", 1000.0);
  }

  lemma MessySecondInLog()
    ensures Spans(MessyLog, Shift(MessySecondParse, 29))
    ensures ToTransaction(MessyLog, Shift(MessySecondParse, 29)) == Some(Transaction("CREDIT", 200.75, "LMN55"))
  {
    MessySplits(MessyFirst, " ", MessySecond);
    MessySecondTexts();
    MessySecondValue();
    EntryInLog(MessyLog, (MessyFirst + " "), MessySecond, "", MessySecondParse, "CREDIT", "200", Some("75"), "LMN55", 200.75);
  }

  lemma MessyConverted()
    ensures Convert(MessyLog, [Shift(MessyFirstParse, 0), Shift(MessySecondParse, 29)])
         == [Transaction("DEBIT", 1000.0, "XYZ42"), Transaction("CREDIT", 200.75, "LMN55")]
  {
    MessyFirstInLog();
    MessySecondInLog();
    SomesMapTwo(EntryOf(MessyLog), Shift(MessyFirstParse, 0), Shift(MessySecondParse, 29),
      Transaction("DEBIT", 1000.0, "XYZ42"), Transaction("CREDIT", 200.75, "LMN55"));
  }

  /** Spacing around the bars and after the colons does not matter, and an
      entry may follow another on the same line. */
  lemma ExampleMessySpacing()
    ensures ExtractTransactions(MessyLog) == [Transaction("DEBIT", 1000.0, "XYZ42"), Transaction("CREDIT", 200.75, "LMN55")]
  {
    MessyScan();
    ExtractOfMatches(MessyLog, [Shift(MessyFirstParse, 0), Shift(MessySecondParse, 29)]);
    MessyConverted();
  }

  /** Where each part of a log built from 9 parts sits. */
  lemma MixedSplits(x1: string, x2: string, x3: string, x4: string, x5: string, x6: string, x7: string, x8: string, x9: string)
    ensures x1 + x2 + x3 + x4 + x5 + x6 + x7 + x8 + x9 == "" + x1 + (x2 + x3 + x4 + x5 + x6 + x7 + x8 + x9)
    ensures x1 + x2 + x3 + x4 + x5 + x6 + x7 + x8 + x9 == x1 + x2 + (x3 + x4 + x5 + x6 + x7 + x8 + x9)
    ensures x1 + x2 + x3 + x4 + x5 + x6 + x7 + x8 + x9 == (x1 + x2) + x3 + (x4 + x5 + x6 + x7 + x8 + x9)
    ensures x1 + x2 + x3 + x4 + x5 + x6 + x7 + x8 + x9 == (x1 + x2 + x3) + x4 + (x5 + x6 + x7 + x8 + x9)
    ensures x1 + x2 + x3 + x4 + x5 + x6 + x7 + x8 + x9 == (x1 + x2 + x3 + x4) + x5 + (x6 + x7 + x8 + x9)
    ensures x1 + x2 + x3 + x4 + x5 + x6 + x7 + x8 + x9 == (x1 + x2 + x3 + x4 + x5) + x6 + (x7 + x8 + x9)
    ensures x1 + x2 + x3 + x4 + x5 + x6 + x7 + x8 + x9 == (x1 + x2 + x3 + x4 + x5 + x6) + x7 + (x8 + x9)
    ensures x1 + x2 + x3 + x4 + x5 + x6 + x7 + x8 + x9 == (x1 + x2 + x3 + x4 + x5 + x6 + x7) + x8 + (x9)
    ensures x1 + x2 + x3 + x4 + x5 + x6 + x7 + x8 + x9 == (x1 + x2 + x3 + x4 + x5 + x6 + x7 + x8) + x9 + ("")
  {
  }

  lemma MixedStep1()
    ensures FindAll(MatchTable(MixedLog), 0) == [Shift(MixedFirstParse, 13), Shift(MixedSecondParse, 89), Shift(MixedThirdParse, 138)]
  {
    MixedSplits(Indent, MixedFirst, Indent, "INVALID LINE", Indent, MixedSecond, Indent, MixedThird, Indent);
    ScanGap(MixedLog, "", Indent, (MixedFirst + Indent + "INVALID LINE" + Indent + MixedSecond + Indent + MixedThird + Indent));
    MixedStep2();
  }

  lemma MixedFirstFound()
    ensures 13 < |MixedLog| && MatchAt(MixedLog, 13) == Some(Shift(MixedFirstParse, 13))
  {
    MixedSplits(Indent, MixedFirst, Indent, "INVALID LINE", Indent, MixedSecond, Indent, MixedThird, Indent);
    MixedFirstShape();
    FoundInContext(MixedLog, (Indent), MixedFirst, (Indent + "INVALID LINE" + Indent + MixedSecond + Indent + MixedThird + Indent), MixedFirstParse);
  }

  lemma MixedStep2()
    ensures FindAll(MatchTable(MixedLog), 13) == [Shift(MixedFirstParse, 13), Shift(MixedSecondParse, 89), Shift(MixedThirdParse, 138)]
  {
    MixedFirstFound();
    ScanMatch(MixedLog, 13, Shift(MixedFirstParse, 13), 13 + |MixedFirst|);
    MixedStep3();
  }

  lemma MixedStep3()
    ensures FindAll(MatchTable(MixedLog), 51) == [Shift(MixedSecondParse, 89), Shift(MixedThirdParse, 138)]
  {
    MixedSplits(Indent, MixedFirst, Indent, "INVALID LINE", Indent, MixedSecond, Indent, MixedThird, Indent);
    ScanGap(MixedLog, (Indent + MixedFirst), Indent, ("INVALID LINE" + Indent + MixedSecond + Indent + MixedThird + Indent));
    MixedStep4();
  }

  lemma MixedStep4()
    ensures FindAll(MatchTable(MixedLog), 64) == [Shift(MixedSecondParse, 89), Shift(MixedThirdParse, 138)]
  {
    MixedSplits(Indent, MixedFirst, Indent, "INVALID LINE", Indent, MixedSecond, Indent, MixedThird, Indent);
    ScanGap(MixedLog, (Indent + MixedFirst + Indent), "INVALID LINE", (Indent + MixedSecond + Indent + MixedThird + Indent));
    MixedStep5();
  }

  lemma MixedStep5()
    ensures FindAll(MatchTable(MixedLog), 76) == [Shift(MixedSecondParse, 89), Shift(MixedThirdParse, 138)]
  {
    MixedSplits(Indent, MixedFirst, Indent, "INVALID LINE", Indent, MixedSecond, Indent, MixedThird, Indent);
    ScanGap(MixedLog, (Indent + MixedFirst + Indent + "INVALID LINE"), Indent, (MixedSecond + Indent + MixedThird + Indent));
    MixedStep6();
  }

  lemma MixedSecondFound()
    ensures 89 < |MixedLog| && MatchAt(MixedLog, 89) == Some(Shift(MixedSecondParse, 89))
  {
    MixedSplits(Indent, MixedFirst, Indent, "INVALID LINE", Indent, MixedSecond, Indent, MixedThird, Indent);
    MixedSecondShape();
    FoundInContext(MixedLog, (Indent + MixedFirst + Indent + "INVALID LINE" + Indent), MixedSecond, (Indent + MixedThird + Indent), MixedSecondParse);
  }

  lemma MixedStep6()
    ensures FindAll(MatchTable(MixedLog), 89) == [Shift(MixedSecondParse, 89), Shift(MixedThirdParse, 138)]
  {
    MixedSecondFound();
    ScanMatch(MixedLog, 89, Shift(MixedSecondParse, 89), 89 + |MixedSecond|);
    MixedStep7();
  }

  lemma MixedStep7()
    ensures FindAll(MatchTable(MixedLog), 125) == [Shift(MixedThirdParse, 138)]
  {
    MixedSplits(Indent, MixedFirst, Indent, "INVALID LINE", Indent, MixedSecond, Indent, MixedThird, Indent);
    ScanGap(MixedLog, (Indent + MixedFirst + Indent + "INVALID LINE" + Indent + MixedSecond), Indent, (MixedThird + Indent));
    MixedStep8();
  }

  lemma MixedThirdFound()
    ensures 138 < |MixedLog| && MatchAt(MixedLog, 138) == Some(Shift(MixedThirdParse, 138))
  {
    MixedSplits(Indent, MixedFirst, Indent, "INVALID LINE", Indent, MixedSecond, Indent, MixedThird, Indent);
    MixedThirdShape();
    FoundInContext(MixedLog, (Indent + MixedFirst + Indent + "INVALID LINE" + Indent + MixedSecond + Indent), MixedThird, (Indent), MixedThirdParse);
  }

  lemma MixedStep8()
    ensures FindAll(MatchTable(MixedLog), 138) == [Shift(MixedThirdParse, 138)]
  {
    MixedThirdFound();
    ScanMatch(MixedLog, 138, Shift(MixedThirdParse, 138), 138 + |MixedThird|);
    MixedStep9();
  }

  lemma MixedStep9()
    ensures FindAll(MatchTable(MixedLog), 170) == []
  {
    MixedSplits(Indent, MixedFirst, Indent, "INVALID LINE", Indent, MixedSecond, Indent, MixedThird, Indent);
    ScanGap(MixedLog, (Indent + MixedFirst + Indent + "INVALID LINE" + Indent + MixedSecond + Indent + MixedThird), Indent, "");
    MixedEnd();
  }

  lemma MixedEnd()
    ensures FindAll(MatchTable(MixedLog), 183) == []
  {
    assert |MatchTable(MixedLog)| == 183;
  }

  lemma MixedScan()
    ensures Matches(MixedLog) == [Shift(MixedFirstParse, 13), Shift(MixedSecondParse, 89), Shift(MixedThirdParse, 138)]
  {
    MixedStep1();
  }

  lemma MixedFirstInLog()
    ensures Spans(MixedLog, Shift(MixedFirstParse, 13))
    ensures ToTransaction(MixedLog, Shift(MixedFirstParse, 13)) == Some(Transaction("CREDIT", 10000.0, "TXN001"))
  {
    MixedSplits(Indent, MixedFirst, Indent, "INVALID LINE", Indent, MixedSecond, Indent, MixedThird, Indent);
    MixedFirstTexts();
    MixedFirstValue();
    EntryInLog(MixedLog, (Indent), MixedFirst, (Indent + "INVALID LINE" + Indent + MixedSecond + Indent + MixedThird + Indent), MixedFirstParse, "CREDIT", "10,000", Some("00"), "TXN001", 10000.0);
  }

  lemma MixedSecondInLog()
    ensures Spans(MixedLog, Shift(MixedSecondParse, 89))
    ensures ToTransaction(MixedLog, Shift(MixedSecondParse, 89)) == Some(Transaction("DEBIT", 5500.25, "ABC987"))
  {
    MixedSplits(Indent, MixedFirst, Indent, "INVALID LINE", Indent, MixedSecond, Indent, MixedThird, Indent);
    MixedSecondTexts();
    MixedSecondValue();
    EntryInLog(MixedLog, (Indent + MixedFirst + Indent + "INVALID LINE" + Indent), MixedSecond, (Indent + MixedThird + Indent), MixedSecondParse, "DEBIT", "5,500", Some("25"), "ABC987", 5500.25);
  }

  lemma MixedThirdInLog()
    ensures Spans(MixedLog, Shift(MixedThirdParse, 138))
    ensures ToTransaction(MixedLog, Shift(MixedThirdParse, 138)) == Some(Transaction("CREDIT", 250.0, "XYZ111"))
  {
    MixedSplits(Indent, MixedFirst, Indent, "INVALID LINE", Indent, MixedSecond, Indent, MixedThird, Indent);
    MixedThirdTexts();
    MixedThirdValue();
    EntryInLog(MixedLog, (Indent + MixedFirst + Indent + "INVALID LINE" + Indent + MixedSecond + Indent), MixedThird, (Indent), MixedThirdParse, "CREDIT", "250", None, "XYZ111", 250.0);
  }

  lemma MixedConverted()
    ensures Convert(MixedLog, [Shift(MixedFirstParse, 13), Shift(MixedSecondParse, 89), Shift(MixedThirdParse, 138)])
         == [Transaction("CREDIT", 10000.0, "TXN001"), Transaction("DEBIT", 5500.25, "ABC987"), Transaction("CREDIT", 250.0, "XYZ111")]
  {
    MixedFirstInLog();
    MixedSecondInLog();
    MixedThirdInLog();
    SomesMapThree(EntryOf(MixedLog), Shift(MixedFirstParse, 13), Shift(MixedSecondParse, 89), Shift(MixedThirdParse, 138),
      Transaction("CREDIT", 10000.0, "TXN001"), Transaction("DEBIT", 5500.25, "ABC987"), Transaction("CREDIT", 250.0, "XYZ111"));
  }

  /** A line that is not an entry is passed over; the entries around it are
      read in order, with grouped amounts. */
  lemma ExampleMixedEntries()
    ensures ExtractTransactions(MixedLog) == [Transaction("CREDIT", 10000.0, "TXN001"), Transaction("DEBIT", 5500.25, "ABC987"), Transaction("CREDIT", 250.0, "XYZ111")]
  {
    MixedScan();
    ExtractOfMatches(MixedLog, [Shift(MixedFirstParse, 13), Shift(MixedSecondParse, 89), Shift(MixedThirdParse, 138)]);
    MixedConverted();
  }
}
