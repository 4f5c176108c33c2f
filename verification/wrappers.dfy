/** Optional values, as the rest of the model uses them. */
module Wrappers {
  datatype Option<+T> = None | Some(value: T)

  /** The present values of `xs`, in order. */
  function Somes<T>(xs: seq<Option<T>>): (ys: seq<T>)
    ensures |ys| <= |xs|
  {
    if |xs| == 0 then []
    else match xs[0]
      case None => Somes(xs[1..])
      case Some(v) => [v] + Somes(xs[1..])
  }

  /** A single present value is kept. */
  lemma SomesSingle<T>(x: Option<T>)
    ensures x.Some? ==> Somes([x]) == [x.value]
  {
    assert [x][1..] == [];
  }

  /** When every value is present, all of them are kept, in order. */
  lemma {:induction false} SomesAll<T>(xs: seq<Option<T>>)
    requires forall k :: 0 <= k < |xs| ==> xs[k].Some?
    ensures |Somes(xs)| == |xs|
    ensures forall k :: 0 <= k < |xs| ==> Somes(xs)[k] == xs[k].value
    decreases |xs|
  {
    if |xs| > 0 {
      SomesAll(xs[1..]);
      assert Somes(xs) == [xs[0].value] + Somes(xs[1..]);
      forall k | 1 <= k < |xs|
        ensures Somes(xs)[k] == xs[k].value
      {
        assert xs[1..][k - 1] == xs[k];
      }
    }
  }

  /** Filtering keeps the order: filtering two runs one after the other is
      filtering them together. */
  lemma {:induction false} SomesAppend<T>(a: seq<Option<T>>, b: seq<Option<T>>)
    ensures Somes(a + b) == Somes(a) + Somes(b)
    decreases |a|
  {
    if |a| > 0 {
      assert (a + b)[1..] == a[1..] + b;
      SomesAppend(a[1..], b);
    } else {
      assert a + b == b;
    }
  }

  /** Every value `Somes` keeps was present in `xs`. */
  lemma {:induction false} SomesFrom<T>(xs: seq<Option<T>>, k: nat)
    requires k < |Somes(xs)|
    ensures exists j :: 0 <= j < |xs| && xs[j] == Some(Somes(xs)[k])
    decreases |xs|
  {
    match xs[0]
    case None =>
      SomesFrom(xs[1..], k);
      var j :| 0 <= j < |xs[1..]| && xs[1..][j] == Some(Somes(xs[1..])[k]);
      assert xs[j + 1] == Some(Somes(xs)[k]);
    case Some(v) =>
      if k > 0 {
        SomesFrom(xs[1..], k - 1);
        var j :| 0 <= j < |xs[1..]| && xs[1..][j] == Some(Somes(xs[1..])[k - 1]);
        assert xs[j + 1] == Some(Somes(xs)[k]);
      }
  }

  /** `f` applied to each element of `xs`, in order. */
  function Map<A, B>(f: A --> B, xs: seq<A>): (ys: seq<B>)
    requires forall k :: 0 <= k < |xs| ==> f.requires(xs[k])
    ensures |ys| == |xs|
    ensures forall k :: 0 <= k < |xs| ==> ys[k] == f(xs[k])
  {
    seq(|xs|, k requires 0 <= k < |xs| => f(xs[k]))
  }

  lemma MapAppend<A, B>(f: A --> B, a: seq<A>, b: seq<A>)
    requires forall k :: 0 <= k < |a| ==> f.requires(a[k])
    requires forall k :: 0 <= k < |b| ==> f.requires(b[k])
    ensures forall k :: 0 <= k < |a + b| ==> f.requires((a + b)[k])
    ensures Map(f, a + b) == Map(f, a) + Map(f, b)
  {
    assert forall k :: 0 <= k < |a + b| ==> (a + b)[k] == if k < |a| then a[k] else b[k - |a|];
  }

  /** When `f` yields a value for every element, filtering the mapped
      sequence gives exactly those values, in order. */
  lemma SomesMap<A, B>(f: A --> Option<B>, xs: seq<A>, ys: seq<B>)
    requires |ys| == |xs|
    requires forall k :: 0 <= k < |xs| ==> f.requires(xs[k]) && f(xs[k]) == Some(ys[k])
    ensures Somes(Map(f, xs)) == ys
  {
    SomesAll(Map(f, xs));
  }

  /** The same for two elements. */
  lemma SomesMapTwo<A, B>(f: A --> Option<B>, a: A, b: A, ya: B, yb: B)
    requires f.requires(a) && f.requires(b)
    requires f(a) == Some(ya) && f(b) == Some(yb)
    ensures Somes(Map(f, [a, b])) == [ya, yb]
  {
    SomesMap(f, [a, b], [ya, yb]);
  }

  /** The same for three elements. */
  lemma SomesMapThree<A, B>(f: A --> Option<B>, a: A, b: A, c: A, ya: B, yb: B, yc: B)
    requires f.requires(a) && f.requires(b) && f.requires(c)
    requires f(a) == Some(ya) && f(b) == Some(yb) && f(c) == Some(yc)
    ensures Somes(Map(f, [a, b, c])) == [ya, yb, yc]
  {
    SomesMap(f, [a, b, c], [ya, yb, yc]);
  }
}
