/** The array operations the application leans on: `filter`, `find`,
    `findIndex`, `map`, and the pair of `splice` calls that moves one element. */
module Seqs {
  import opened Wrappers

  /** `Array.prototype.filter`: the elements satisfying `keep`, in their order. */
  function Filter<T>(s: seq<T>, keep: T -> bool): (r: seq<T>)
    ensures |r| <= |s|
    ensures forall i :: 0 <= i < |r| ==> r[i] in s && keep(r[i])
    ensures forall i :: 0 <= i < |s| && keep(s[i]) ==> s[i] in r
  {
    if s == [] then []
    else (if keep(s[0]) then [s[0]] else []) + Filter(s[1..], keep)
  }

  /** `Array.prototype.map`. */
  function Map<T, U>(s: seq<T>, f: T -> U): seq<U> {
    seq(|s|, i requires 0 <= i < |s| => f(s[i]))
  }

  /** `Array.prototype.findIndex`: the first index whose element satisfies `p`, or -1. */
  function FirstIndex<T>(s: seq<T>, p: T -> bool): (i: int)
    ensures -1 <= i < |s|
    ensures i == -1 <==> forall k :: 0 <= k < |s| ==> !p(s[k])
    ensures 0 <= i ==> p(s[i]) && forall k :: 0 <= k < i ==> !p(s[k])
  {
    if s == [] then -1
    else if p(s[0]) then 0
    else
      var j := FirstIndex(s[1..], p);
      if j == -1 then -1 else j + 1
  }

  /** `Array.prototype.find`: the first element satisfying `p`, or undefined. */
  function FindFirst<T>(s: seq<T>, p: T -> bool): (r: Option<T>)
    ensures r.None? <==> forall k :: 0 <= k < |s| ==> !p(s[k])
    ensures r.Some? ==> exists i :: 0 <= i < |s| && s[i] == r.value && p(s[i]) && forall k :: 0 <= k < i ==> !p(s[k])
  {
    var i := FirstIndex(s, p);
    if i == -1 then None else Some(s[i])
  }

  /** The loop behind `findIndex`. */
  method FindIndex<T>(s: seq<T>, p: T -> bool) returns (i: int)
    ensures i == FirstIndex(s, p)
  {
    i := 0;
    while i < |s|
      invariant 0 <= i <= |s|
      invariant forall k :: 0 <= k < i ==> !p(s[k])
    {
      if p(s[i]) {
        return;
      }
      i := i + 1;
    }
    i := -1;
  }

  /** `splice(i, 1)`: the sequence without its element at index i. */
  function RemoveAt<T>(s: seq<T>, i: nat): seq<T>
    requires i < |s|
  {
    s[..i] + s[i + 1..]
  }

  /** `splice(i, 0, x)`: x inserted so that it ends up at index i. */
  function InsertAt<T>(s: seq<T>, i: nat, x: T): seq<T>
    requires i <= |s|
  {
    s[..i] + [x] + s[i..]
  }

  /** The element at `from` spliced out and spliced back in at `to`, where `to`
      is an index of the ORIGINAL sequence, applied to the shortened one. */
  function Move<T>(s: seq<T>, from: nat, to: nat): seq<T>
    requires from < |s| && to < |s|
  {
    InsertAt(RemoveAt(s, from), to, s[from])
  }

  /** Independent description of Move: the original index of the element that
      ends up at index k. */
  function MovedFrom(from: nat, to: nat, k: nat): nat {
    if k == to then from
    else if from < to && from <= k < to then k + 1
    else if to < k <= from then k - 1
    else k
  }

  // ----- Filter -----

  lemma {:induction false} FilterKeepsAll<T>(s: seq<T>, keep: T -> bool)
    requires forall i :: 0 <= i < |s| ==> keep(s[i])
    ensures Filter(s, keep) == s
  {
    if s != [] {
      FilterKeepsAll(s[1..], keep);
    }
  }

  lemma {:induction false} FilterConcat<T>(a: seq<T>, b: seq<T>, keep: T -> bool)
    ensures Filter(a + b, keep) == Filter(a, keep) + Filter(b, keep)
  {
    if a == [] {
      assert a + b == b;
    } else {
      assert (a + b)[1..] == a[1..] + b;
      FilterConcat(a[1..], b, keep);
    }
  }

  /** Filtering a sequence with an element appended: the element survives exactly when kept. */
  lemma FilterSnoc<T>(s: seq<T>, x: T, keep: T -> bool)
    ensures Filter(s + [x], keep) == Filter(s, keep) + (if keep(x) then [x] else [])
  {
    FilterConcat(s, [x], keep);
    assert Filter([x], keep) == (if keep(x) then [x] else []) + Filter([x][1..], keep);
  }

  /** Filtering out the one element at index k that is not kept is removing it there. */
  lemma {:induction false} FilterDropsOne<T>(s: seq<T>, k: nat, keep: T -> bool)
    requires k < |s| && !keep(s[k])
    requires forall i :: 0 <= i < |s| && i != k ==> keep(s[i])
    ensures Filter(s, keep) == RemoveAt(s, k)
  {
    var t := s[1..];
    assert Filter(s, keep) == (if keep(s[0]) then [s[0]] else []) + Filter(t, keep);
    if k == 0 {
      FilterKeepsAll(t, keep);
    } else {
      FilterDropsOne(t, k - 1, keep);
      assert [s[0]] + RemoveAt(t, k - 1) == RemoveAt(s, k);
    }
  }

  // ----- Move -----

  lemma MoveAt<T>(s: seq<T>, from: nat, to: nat, k: nat)
    requires from < |s| && to < |s| && k < |s|
    ensures |Move(s, from, to)| == |s|
    ensures MovedFrom(from, to, k) < |s|
    ensures Move(s, from, to)[k] == s[MovedFrom(from, to, k)]
  {
    var rest := RemoveAt(s, from);
    assert |rest| == |s| - 1;
    assert forall j :: 0 <= j < |rest| ==> rest[j] == (if j < from then s[j] else s[j + 1]);
    var r := InsertAt(rest, to, s[from]);
    assert forall j :: 0 <= j < |r| ==> r[j] == (if j < to then rest[j] else if j == to then s[from] else rest[j - 1]);
  }

  lemma MovePermutes<T>(s: seq<T>, from: nat, to: nat)
    requires from < |s| && to < |s|
    ensures multiset(Move(s, from, to)) == multiset(s)
  {
    var rest := RemoveAt(s, from);
    assert s == s[..from] + [s[from]] + s[from + 1..];
    assert multiset(rest) + multiset{s[from]} == multiset(s);
    assert rest == rest[..to] + rest[to..];
    assert multiset(InsertAt(rest, to, s[from])) == multiset(rest) + multiset{s[from]};
  }

  /** Dragged from a later position, the moved element lands immediately
      before the element that was at `to`. */
  lemma MoveBackwardLandsBefore<T>(s: seq<T>, from: nat, to: nat)
    requires to < from < |s|
    ensures Move(s, from, to)[to] == s[from]
    ensures Move(s, from, to)[to + 1] == s[to]
  {
    MoveAt(s, from, to, to);
    MoveAt(s, from, to, to + 1);
  }

  /** Dragged from an earlier position, the moved element lands immediately
      AFTER the element that was at `to`. */
  lemma MoveForwardLandsAfter<T>(s: seq<T>, from: nat, to: nat)
    requires from < to < |s|
    ensures Move(s, from, to)[to] == s[from]
    ensures Move(s, from, to)[to - 1] == s[to]
  {
    MoveAt(s, from, to, to);
    MoveAt(s, from, to, to - 1);
  }
}
