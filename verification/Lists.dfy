/** Options and the order-keeping list filter that in-place compaction computes. */
module Lists {

  datatype Option<+T> = None | Some(value: T)

  /** The elements of `xs` that satisfy `keep`, in their order. */
  function Filter<T>(xs: seq<T>, keep: T -> bool): (ys: seq<T>)
    ensures |ys| <= |xs|
  {
    if xs == [] then []
    else
      var last := xs[|xs| - 1];
      Filter(xs[..|xs| - 1], keep) + if keep(last) then [last] else []
  }

  lemma {:induction false} FilterMembers<T(!new)>(xs: seq<T>, keep: T -> bool)
    ensures forall x {:trigger x in Filter(xs, keep)} {:trigger x in xs, keep(x)} ::
              x in Filter(xs, keep) <==> x in xs && keep(x)
  {
    if xs != [] {
      var front, last := xs[..|xs| - 1], xs[|xs| - 1];
      FilterMembers(front, keep);
      assert xs == front + [last];
    }
  }

  /** One step of a left-to-right compaction loop. */
  lemma FilterStep<T>(xs: seq<T>, keep: T -> bool, i: nat)
    requires i < |xs|
    ensures Filter(xs[..i + 1], keep) == Filter(xs[..i], keep) + if keep(xs[i]) then [xs[i]] else []
  {
    assert xs[..i + 1][..i] == xs[..i];
  }

  lemma {:induction false} FilterAll<T(!new)>(xs: seq<T>, keep: T -> bool)
    requires forall x :: x in xs ==> keep(x)
    ensures Filter(xs, keep) == xs
  {
    if xs != [] {
      var front, last := xs[..|xs| - 1], xs[|xs| - 1];
      assert xs == front + [last];
      FilterAll(front, keep);
    }
  }

  lemma {:induction false} FilterAppend<T>(xs: seq<T>, x: T, keep: T -> bool)
    ensures Filter(xs + [x], keep) == Filter(xs, keep) + if keep(x) then [x] else []
  {
  }

  lemma {:induction false} FilterFilter<T(!new)>(xs: seq<T>, p: T -> bool, q: T -> bool, both: T -> bool)
    requires forall x :: both(x) <==> p(x) && q(x)
    ensures Filter(Filter(xs, p), q) == Filter(xs, both)
  {
    if xs != [] {
      var front, last := xs[..|xs| - 1], xs[|xs| - 1];
      FilterFilter(front, p, q, both);
      assert both(last) <==> p(last) && q(last);
      FilterAppend(Filter(front, p), last, q);
      if !p(last) {
        assert Filter(xs, p) == Filter(front, p);
      }
    }
  }

  lemma {:induction false} FilterSame<T(!new)>(xs: seq<T>, p: T -> bool, q: T -> bool)
    requires forall x :: x in xs ==> p(x) == q(x)
    ensures Filter(xs, p) == Filter(xs, q)
  {
    if xs != [] {
      var front, last := xs[..|xs| - 1], xs[|xs| - 1];
      assert xs == front + [last];
      FilterSame(front, p, q);
    }
  }

  /** Distinct keys stay distinct after filtering. */
  ghost predicate DistinctBy<T, K>(xs: seq<T>, key: T -> K) {
    forall i, j :: 0 <= i < j < |xs| ==> key(xs[i]) != key(xs[j])
  }

  lemma {:induction false} FilterDistinct<T(!new), K>(xs: seq<T>, keep: T -> bool, key: T -> K)
    requires DistinctBy(xs, key)
    ensures DistinctBy(Filter(xs, keep), key)
  {
    if xs != [] {
      var front, last := xs[..|xs| - 1], xs[|xs| - 1];
      FilterDistinct(front, keep, key);
      FilterMembers(front, keep);
      var kept := Filter(front, keep);
      forall i | 0 <= i < |kept|
        ensures key(kept[i]) != key(last)
      {
        assert kept[i] in kept && kept[i] in front;
      }
    }
  }

  /** `i` is the first index at which `hit` holds, or -1 when there is none. */
  ghost predicate IsFirst<T(!new)>(xs: seq<T>, hit: T -> bool, i: int) {
    if i < 0 then i == -1 && forall x :: x in xs ==> !hit(x)
    else i < |xs| && hit(xs[i]) && forall j :: 0 <= j < i ==> !hit(xs[j])
  }

  function Locate<T(!new)>(xs: seq<T>, hit: T -> bool): (i: int)
    ensures IsFirst(xs, hit, i)
  {
    LocateFrom(xs, hit, 0)
  }

  function LocateFrom<T(!new)>(xs: seq<T>, hit: T -> bool, k: nat): (i: int)
    requires k <= |xs|
    requires forall j :: 0 <= j < k ==> !hit(xs[j])
    ensures IsFirst(xs, hit, i)
    decreases |xs| - k
  {
    if k == |xs| then -1
    else if hit(xs[k]) then k
    else LocateFrom(xs, hit, k + 1)
  }

  lemma LocateFirst<T(!new)>(xs: seq<T>, hit: T -> bool, i: nat)
    requires i < |xs| && hit(xs[i])
    requires forall j :: 0 <= j < i ==> !hit(xs[j])
    ensures Locate(xs, hit) == i
  {
  }
}
