/** Counting elements of sets and sequences. */
module Counting {

  function Below(n: nat): (s: set<int>)
    ensures forall i :: i in s <==> 0 <= i < n
    ensures |s| == n
  {
    if n == 0 then {} else Below(n - 1) + {n - 1}
  }

  lemma {:induction false} SubsetCounts(a: set<int>, b: set<int>)
    requires a <= b
    ensures |a| <= |b| && (|a| == |b| ==> a == b)
  {
    assert b == a + (b - a);
    assert |b| == |a| + |b - a|;
  }

  /** The elements of a sequence. */
  function Elements(s: seq<int>): (e: set<int>)
    ensures forall x :: x in e <==> x in s
  {
    if s == [] then {} else Elements(s[..|s| - 1]) + {s[|s| - 1]}
  }

  /** Pigeonhole: different numbers below n, none of them i, are fewer than n. */
  lemma {:induction false} DistinctBelow(s: seq<int>, i: nat, n: nat)
    requires i < n && forall x :: 0 <= x < |s| ==> 0 <= s[x] < n && s[x] != i
    requires forall x, y :: 0 <= x < y < |s| ==> s[x] != s[y]
    ensures |s| <= n - 1
  {
    DistinctElements(s);
    SubsetCounts(Elements(s), Below(n) - {i});
  }

  lemma {:induction false} DistinctElements(s: seq<int>)
    requires forall x, y :: 0 <= x < y < |s| ==> s[x] != s[y]
    ensures |Elements(s)| == |s|
  {
    if s != [] { DistinctElements(s[..|s| - 1]); }
  }

  function RemoveAt<T>(s: seq<T>, i: nat): seq<T>
    requires i < |s|
  {
    s[..i] + s[i + 1..]
  }

  function CountIf<T>(s: seq<T>, p: T -> bool): nat {
    if s == [] then 0 else CountIf(s[..|s| - 1], p) + (if p(s[|s| - 1]) then 1 else 0)
  }

  lemma {:induction false} CountAppend<T>(s: seq<T>, x: T, p: T -> bool)
    ensures CountIf(s + [x], p) == CountIf(s, p) + if p(x) then 1 else 0
  {
    assert (s + [x])[..|s|] == s;
  }

  lemma {:induction false} CountRemove<T>(s: seq<T>, i: nat, p: T -> bool)
    requires i < |s|
    ensures CountIf(RemoveAt(s, i), p) == CountIf(s, p) - if p(s[i]) then 1 else 0
    ensures p(s[i]) ==> CountIf(s, p) >= 1
    decreases |s|
  {
    var n := |s| - 1;
    if i == n {
      assert RemoveAt(s, i) == s[..n];
    } else {
      CountRemove(s[..n], i, p);
      assert RemoveAt(s, i) == RemoveAt(s[..n], i) + [s[n]];
      CountAppend(RemoveAt(s[..n], i), s[n], p);
    }
  }

  lemma {:induction false} CountUpdate<T>(s: seq<T>, i: nat, x: T, p: T -> bool)
    requires i < |s|
    ensures CountIf(s[i := x], p) == CountIf(s, p) - (if p(s[i]) then 1 else 0) + if p(x) then 1 else 0
    decreases |s|
  {
    var n := |s| - 1;
    if i == n {
      assert s[i := x] == s[..n] + [x];
      CountAppend(s[..n], x, p);
    } else {
      CountUpdate(s[..n], i, x, p);
      assert s[i := x] == s[..n][i := x] + [s[n]];
      CountAppend(s[..n][i := x], s[n], p);
    }
  }

  lemma {:induction false} CountWeaker<T(!new)>(s: seq<T>, p: T -> bool, q: T -> bool)
    requires forall x :: p(x) ==> q(x)
    ensures CountIf(s, p) <= CountIf(s, q)
  {
    if s != [] { CountWeaker(s[..|s| - 1], p, q); }
  }

  lemma {:induction false} CountNone<T>(s: seq<T>, p: T -> bool)
    requires forall x :: x in s ==> !p(x)
    ensures CountIf(s, p) == 0
  {
    if s != [] { CountNone(s[..|s| - 1], p); }
  }
}
