/**
  Ranges of values (iota/objects/range.py): an interval between two numbers,
  a finite set of numbers, and a combination of other ranges.  Membership is
  a predicate; iteration is a method that returns, in order, the values the
  Python generator yields.  A Python set has no specified iteration order, so
  iterating a set is specified by a relation (`Enumerates`) that admits every
  order and nothing else.
*/
module Range {
  import opened Wrappers

  datatype Range =
    | Continuous(a: real, b: real, closed: bool)
    | Discrete(elems: set<real>)
    | Compound(ranges: seq<Range>)

  /** `ContinuousRange(a, b, closed)`: the constructor asserts `a < b`. */
  function MakeContinuous(a: real, b: real, closed: bool): (r: Option<Range>)
    ensures r.Some? <==> a < b
    ensures r.Some? ==> r.value.Continuous? && r.value.a == a && r.value.b == b && r.value.closed == closed
  {
    if a < b then Some(Continuous(a, b, closed)) else None
  }

  /** `item in range`.  An interval excludes both ends whatever `closed` says;
      a compound range asks its sub-ranges in turn and stops at the first yes. */
  function Contains(r: Range, item: real): (yes: bool)
    ensures r.Continuous? ==> (yes <==> r.a < item < r.b)
    ensures r.Discrete? ==> (yes <==> item in r.elems)
    decreases r, 1
  {
    match r
    case Continuous(a, b, _) => a < item < b
    case Discrete(elems) => item in elems
    case Compound(ranges) => ContainsFrom(r, 0, item)
  }

  /** Some sub-range at position `i` or later contains the item. */
  function ContainsFrom(r: Range, i: nat, item: real): bool
    requires r.Compound? && i <= |r.ranges|
    decreases r, 0, |r.ranges| - i
  {
    i < |r.ranges| && (Contains(r.ranges[i], item) || ContainsFrom(r, i + 1, item))
  }

  lemma {:induction false} ContainsFromAny(r: Range, i: nat, item: real)
    requires r.Compound? && i <= |r.ranges|
    ensures ContainsFrom(r, i, item) <==> exists j :: i <= j < |r.ranges| && Contains(r.ranges[j], item)
    decreases |r.ranges| - i
  {
    if i < |r.ranges| {
      ContainsFromAny(r, i + 1, item);
      if ContainsFrom(r, i + 1, item) && !Contains(r.ranges[i], item) {
        var j :| i + 1 <= j < |r.ranges| && Contains(r.ranges[j], item);
        assert i <= j;
      }
    }
  }

  /** A compound range contains an item exactly when one of its sub-ranges
      does; in particular an empty one contains nothing. */
  lemma CompoundContains(ranges: seq<Range>, item: real)
    ensures Contains(Compound(ranges), item) <==> exists j :: 0 <= j < |ranges| && Contains(ranges[j], item)
    ensures ranges == [] ==> !Contains(Compound(ranges), item)
  {
    ContainsFromAny(Compound(ranges), 0, item);
  }

  /** The values `a, a + step, a + 2*step, ...` that are at most `b`, in that
      order: exactly the points the interval's generator yields. */
  ghost predicate Stepped(a: real, b: real, step: real, xs: seq<real>) {
    && (forall i :: 0 <= i < |xs| ==> xs[i] == a + i as real * step)
    && (forall i :: 0 <= i < |xs| ==> xs[i] <= b)
    && a + |xs| as real * step > b
  }

  lemma ShiftDown(d: real, step: real)
    requires step > 0.0
    ensures (d - step) / step == d / step - 1.0
  {
    assert (d - step) / step == d / step - step / step;
  }

  /** `ContinuousRange.__iter__(step)`: start at `a` and add `step` while the
      point is still at most `b`. */
  method ContinuousPoints(a: real, b: real, step: real) returns (xs: seq<real>)
    requires step > 0.0
    ensures Stepped(a, b, step, xs)
  {
    xs := [];
    var x := a;
    while x <= b
      invariant x == a + |xs| as real * step
      invariant forall i :: 0 <= i < |xs| ==> xs[i] == a + i as real * step
      invariant forall i :: 0 <= i < |xs| ==> xs[i] <= b
      decreases ((b - x) / step).Floor
    {
      xs := xs + [x];
      ShiftDown(b - x, step);
      x := x + step;
    }
  }

  /** The points are strictly increasing, so each is yielded once. */
  lemma {:induction false} SteppedIncreasing(a: real, b: real, step: real, xs: seq<real>, i: int, j: int)
    requires step > 0.0 && Stepped(a, b, step, xs)
    requires 0 <= i < j < |xs|
    ensures xs[i] < xs[j]
  {
    assert xs[j] - xs[i] == (j - i) as real * step;
  }

  /** The `n`-th point is yielded exactly when it is at most `b`. */
  lemma SteppedLength(a: real, b: real, step: real, xs: seq<real>, n: int)
    requires step > 0.0 && Stepped(a, b, step, xs) && 0 <= n
    ensures n < |xs| <==> a + n as real * step <= b
  {
    if n < |xs| {
      assert xs[n] <= b;
    } else {
      assert (n - |xs|) as real * step >= 0.0;
    }
  }

  /** Only one sequence of points answers a given interval and step. */
  lemma SteppedUnique(a: real, b: real, step: real, xs: seq<real>, ys: seq<real>)
    requires step > 0.0 && Stepped(a, b, step, xs) && Stepped(a, b, step, ys)
    ensures xs == ys
  {
    SteppedLength(a, b, step, xs, |ys|);
    SteppedLength(a, b, step, ys, |xs|);
    assert |xs| == |ys|;
    assert forall i :: 0 <= i < |xs| ==> xs[i] == ys[i];
  }

  /** For a proper interval the first value yielded is `a`, and that value is
      not a member of the range it came from. */
  lemma StartPointExcluded(a: real, b: real, closed: bool, step: real, xs: seq<real>)
    requires a < b && step > 0.0 && Stepped(a, b, step, xs)
    ensures |xs| > 0 && xs[0] == a
    ensures !Contains(Continuous(a, b, closed), xs[0])
  {
    SteppedLength(a, b, step, xs, 0);
  }

  /** Membership that honours `closed`: `a <= item <= b` for the closed
      interval `[a, b]`, `a < item < b` for the open one. */
  function ContainsInterval(r: Range, item: real): (c: bool)
    requires r.Continuous?
    ensures r.closed ==> (c <==> r.a <= item <= r.b)
    ensures !r.closed ==> (c <==> Contains(r, item))
  {
    if r.closed then r.a <= item <= r.b else r.a < item < r.b
  }

  /** With that membership every point a closed interval yields is a member. */
  lemma PointsWithinInterval(a: real, b: real, step: real, xs: seq<real>, i: int)
    requires step > 0.0 && Stepped(a, b, step, xs) && 0 <= i < |xs|
    ensures ContainsInterval(Continuous(a, b, true), xs[i])
  {
    assert 0.0 <= i as real * step;
  }

  /** The values of a set, each exactly once, in some order. */
  ghost predicate ListsSet(elems: set<real>, xs: seq<real>) {
    && (forall x :: x in xs <==> x in elems)
    && (forall i, j :: 0 <= i < j < |xs| ==> xs[i] != xs[j])
  }

  lemma NonEmpty(s: set<real>)
    requires |s| > 0
    ensures exists x :: x in s
  {
    if forall x :: x !in s {
      assert false;
    }
  }

  /** Listing a set yields as many values as the set has elements. */
  lemma {:induction false} ListsSetLength(elems: set<real>, xs: seq<real>)
    requires ListsSet(elems, xs)
    ensures |xs| == |elems|
    decreases |xs|
  {
    if |xs| == 0 {
      forall y
        ensures y !in elems
      {
        assert y !in xs;
      }
      assert elems == {};
    } else {
      var x, rest := xs[0], xs[1..];
      assert x in elems;
      forall y
        ensures y in rest <==> y in elems - {x}
      {
        if y in rest {
          var j :| 0 <= j < |rest| && rest[j] == y;
          assert xs[j + 1] == y;
        }
        if y in elems - {x} {
          assert y in xs;
          var j :| 0 <= j < |xs| && xs[j] == y;
          assert j != 0 && rest[j - 1] == y;
        }
      }
      ListsSetLength(elems - {x}, rest);
    }
  }

  /** `DiscreteRange.__iter__`: every element, in the set's own order. */
  method DiscreteItems(elems: set<real>) returns (xs: seq<real>)
    ensures ListsSet(elems, xs)
  {
    xs := [];
    var rest := elems;
    while |rest| > 0
      invariant rest <= elems
      invariant forall x :: x in xs <==> x in elems - rest
      invariant forall i, j :: 0 <= i < j < |xs| ==> xs[i] != xs[j]
      decreases |rest|
    {
      NonEmpty(rest);
      var x :| x in rest;
      xs := xs + [x];
      rest := rest - {x};
    }
  }

  /** Iterating a set yields exactly its members, each once. */
  lemma DiscreteItemsAreMembers(elems: set<real>, xs: seq<real>)
    requires Enumerates(Discrete(elems), xs)
    ensures forall x :: x in xs <==> Contains(Discrete(elems), x)
    ensures |xs| == |elems|
  {
    ListsSetLength(elems, xs);
  }

  /** `xs` is a sequence the range's `__iter__` can yield.  An interval inside
      a compound range is iterated with the default step 0.1. */
  ghost predicate Enumerates(r: Range, xs: seq<real>)
    decreases r, 1
  {
    match r
    case Continuous(a, b, _) => Stepped(a, b, 0.1, xs)
    case Discrete(elems) => ListsSet(elems, xs)
    case Compound(ranges) => EnumeratesFirst(r, |ranges|, xs)
  }

  /** `xs` is what the first `n` sub-ranges yield, one after the other. */
  ghost predicate EnumeratesFirst(r: Range, n: nat, xs: seq<real>)
    requires r.Compound? && n <= |r.ranges|
    decreases r, 0, n
  {
    if n == 0 then xs == []
    else
      assert r.ranges[n - 1] in r.ranges;
      exists k :: 0 <= k <= |xs| && EnumeratesFirst(r, n - 1, xs[..k]) && Enumerates(r.ranges[n - 1], xs[k..])
  }

  /** `__iter__` of any range; a compound range yields from each sub-range in
      turn, with no deduplication. */
  method Items(r: Range) returns (xs: seq<real>)
    ensures Enumerates(r, xs)
    decreases r
  {
    match r
    case Continuous(a, b, _) =>
      xs := ContinuousPoints(a, b, 0.1);
    case Discrete(elems) =>
      xs := DiscreteItems(elems);
    case Compound(ranges) =>
      xs := [];
      var i := 0;
      while i < |ranges|
        invariant 0 <= i <= |ranges|
        invariant EnumeratesFirst(r, i, xs)
      {
        assert ranges[i] in ranges;
        var ys := Items(ranges[i]);
        assert (xs + ys)[..|xs|] == xs && (xs + ys)[|xs|..] == ys;
        xs := xs + ys;
        i := i + 1;
      }
  }

  /** A one-element set yields its element once. */
  lemma SingletonItems(v: real, xs: seq<real>)
    requires Enumerates(Discrete({v}), xs)
    ensures xs == [v]
  {
    assert v in xs;
    ListsSetLength({v}, xs);
  }

  /** What the first sub-range alone yields. */
  lemma EnumeratesFirstOne(r: Range, xs: seq<real>)
    requires r.Compound? && |r.ranges| >= 1 && EnumeratesFirst(r, 1, xs)
    ensures Enumerates(r.ranges[0], xs)
  {
    var k :| 0 <= k <= |xs| && EnumeratesFirst(r, 0, xs[..k]) && Enumerates(r.ranges[0], xs[k..]);
    assert xs[k..] == xs;
  }

  /** Repetition is not checked: two copies of `{v}` yield `v` twice. */
  lemma CompoundRepeats(v: real, xs: seq<real>)
    requires Enumerates(Compound([Discrete({v}), Discrete({v})]), xs)
    ensures xs == [v, v]
  {
    var r := Compound([Discrete({v}), Discrete({v})]);
    var k :| 0 <= k <= |xs| && EnumeratesFirst(r, 1, xs[..k]) && Enumerates(r.ranges[1], xs[k..]);
    EnumeratesFirstOne(r, xs[..k]);
    SingletonItems(v, xs[..k]);
    SingletonItems(v, xs[k..]);
    assert xs == xs[..k] + xs[k..];
  }
}
