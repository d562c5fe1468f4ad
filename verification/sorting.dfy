/** Ordering of run numbers: Python's `sorted()` on a list of integers, and
    the ascending list of the distinct runs found in a file. */
module Sorting {

  predicate Ascending(s: seq<int>)
  {
    forall i, j :: 0 <= i < j < |s| ==> s[i] <= s[j]
  }

  predicate StrictlyAscending(s: seq<int>)
  {
    forall i, j :: 0 <= i < j < |s| ==> s[i] < s[j]
  }

  function Elements(s: seq<int>): set<int>
  {
    set x | x in s
  }

  /** Inserts `x` into an ascending sequence, keeping it ascending. */
  function Insert(x: int, s: seq<int>): (r: seq<int>)
    requires Ascending(s)
    ensures Ascending(r)
    ensures multiset(r) == multiset(s) + multiset{x}
    ensures |r| == |s| + 1
    decreases |s|
  {
    if |s| == 0 || x <= s[0] then [x] + s
    else
      var rest := Insert(x, s[1..]);
      assert s == [s[0]] + s[1..];
      assert forall k :: 0 <= k < |rest| ==> s[0] <= rest[k] by {
        forall k | 0 <= k < |rest| ensures s[0] <= rest[k] {
          assert rest[k] in multiset(rest);
        }
      }
      [s[0]] + rest
  }

  /** Python `sorted(s)` on integers: the same elements, with the same
      multiplicities, in ascending order. */
  function Sort(s: seq<int>): (r: seq<int>)
    ensures Ascending(r)
    ensures multiset(r) == multiset(s)
    decreases |s|
  {
    if |s| == 0 then []
    else
      assert s == [s[0]] + s[1..];
      Insert(s[0], Sort(s[1..]))
  }

  lemma ElementsCons(a: int, s: seq<int>)
    ensures Elements([a] + s) == {a} + Elements(s)
  {
    forall y | y in Elements([a] + s) ensures y in {a} + Elements(s) {
      var k :| 0 <= k < |[a] + s| && ([a] + s)[k] == y;
      if k > 0 {
        assert s[k - 1] == y;
      }
    }
    forall y | y in Elements(s) ensures y in Elements([a] + s) {
      var k :| 0 <= k < |s| && s[k] == y;
      assert ([a] + s)[k + 1] == y;
    }
  }

  /** Inserts `x` into a strictly ascending sequence unless it is already
      there. */
  function InsertNew(x: int, s: seq<int>): (r: seq<int>)
    requires StrictlyAscending(s)
    ensures StrictlyAscending(r)
    ensures Elements(r) == Elements(s) + {x}
    decreases |s|
  {
    if |s| == 0 || x < s[0] then
      ElementsCons(x, s);
      [x] + s
    else if x == s[0] then s
    else
      var rest := InsertNew(x, s[1..]);
      ElementsCons(s[0], s[1..]);
      ElementsCons(s[0], rest);
      assert s == [s[0]] + s[1..];
      LowerBound(s[0], s[1..], x, rest);
      [s[0]] + rest
  }

  lemma LowerBound(a: int, s: seq<int>, x: int, r: seq<int>)
    requires forall k :: 0 <= k < |s| ==> a < s[k]
    requires a < x
    requires Elements(r) == Elements(s) + {x}
    ensures forall k :: 0 <= k < |r| ==> a < r[k]
  {
    forall k | 0 <= k < |r| ensures a < r[k] {
      assert r[k] in Elements(r);
      if r[k] != x {
        var j :| 0 <= j < |s| && s[j] == r[k];
      }
    }
  }

  /** The distinct values of `s`, in ascending order. */
  function SortDistinct(s: seq<int>): (r: seq<int>)
    ensures StrictlyAscending(r)
    ensures Elements(r) == Elements(s)
    decreases |s|
  {
    if |s| == 0 then []
    else
      assert s == [s[0]] + s[1..];
      ElementsCons(s[0], s[1..]);
      InsertNew(s[0], SortDistinct(s[1..]))
  }

  /** A strictly ascending sequence lists each of its elements once, so it is
      as long as its set of elements is large. */
  lemma {:induction false} StrictlyAscendingCard(s: seq<int>)
    requires StrictlyAscending(s)
    ensures |Elements(s)| == |s|
    decreases |s|
  {
    if |s| > 0 {
      assert s == [s[0]] + s[1..];
      ElementsCons(s[0], s[1..]);
      assert s[0] !in Elements(s[1..]);
      StrictlyAscendingCard(s[1..]);
    }
  }
}
