/** Priced time slots (`api.Rate`) and the stable sort by start time that
    `GetPlan` applies to the planner's output (`slices.SortStableFunc` with
    `planner.SortByTime`). Instants are nanoseconds; 0 is Go's zero `time.Time`. */
module Rates {

  datatype Slot = Slot(start: int, end: int, price: real)

  /** Ascending by start time. */
  predicate SortedByStart(s: seq<Slot>) {
    forall i, j :: 0 <= i < j < |s| ==> s[i].start <= s[j].start
  }

  /** The slots of `s` that start at `k`, in their order in `s`. A sort is
      stable exactly when it keeps each of these subsequences unchanged. */
  function WithStart(s: seq<Slot>, k: int): seq<Slot> {
    if s == [] then []
    else (if s[0].start == k then [s[0]] else []) + WithStart(s[1..], k)
  }

  /** Inserts `x` into sorted `t` after every slot whose start is not later
      than `x`'s, so that `x` follows the equal keys that came before it. */
  function Insert(t: seq<Slot>, x: Slot): seq<Slot> {
    if t == [] || t[|t| - 1].start <= x.start then t + [x]
    else Insert(t[..|t| - 1], x) + [t[|t| - 1]]
  }

  /** The stable sort of `s` by start time, by insertion from left to right. */
  function SortedByTime(s: seq<Slot>): seq<Slot> {
    if s == [] then [] else Insert(SortedByTime(s[..|s| - 1]), s[|s| - 1])
  }

  lemma {:induction false} WithStartAppend(a: seq<Slot>, b: seq<Slot>, k: int)
    ensures WithStart(a + b, k) == WithStart(a, k) + WithStart(b, k)
  {
    if a == [] {
      assert a + b == b;
    } else {
      var head := if a[0].start == k then [a[0]] else [];
      assert (a + b)[0] == a[0];
      assert (a + b)[1..] == a[1..] + b;
      calc {
        WithStart(a + b, k);
        head + WithStart(a[1..] + b, k);
        { WithStartAppend(a[1..], b, k); }
        head + (WithStart(a[1..], k) + WithStart(b, k));
        WithStart(a, k) + WithStart(b, k);
      }
    }
  }

  lemma {:induction false} WithStartMembers(s: seq<Slot>, k: int, x: Slot)
    requires x in WithStart(s, k)
    ensures x in s && x.start == k
  {
    if s != [] && x !in (if s[0].start == k then [s[0]] else []) {
      WithStartMembers(s[1..], k, x);
    }
  }

  lemma {:induction false} InsertSorted(t: seq<Slot>, x: Slot)
    requires SortedByStart(t)
    ensures SortedByStart(Insert(t, x))
    ensures multiset(Insert(t, x)) == multiset(t) + multiset{x}
  {
    if t == [] || t[|t| - 1].start <= x.start {
      SortedAppend(t, x);
    } else {
      var init, last := t[..|t| - 1], t[|t| - 1];
      assert t == init + [last];
      InsertSorted(init, x);
      InsertBounded(init, x, last.start);
      SortedAppend(Insert(init, x), last);
    }
  }

  lemma SortedAppend(s: seq<Slot>, y: Slot)
    requires SortedByStart(s)
    requires forall i :: 0 <= i < |s| ==> s[i].start <= y.start
    ensures SortedByStart(s + [y])
  {
  }

  /** Inserting a slot no later than `b` into slots no later than `b` keeps every start no later than `b`. */
  lemma {:induction false} InsertBounded(t: seq<Slot>, x: Slot, b: int)
    requires forall i :: 0 <= i < |t| ==> t[i].start <= b
    requires x.start <= b
    ensures forall i :: 0 <= i < |Insert(t, x)| ==> Insert(t, x)[i].start <= b
  {
    if t == [] || t[|t| - 1].start <= x.start {
    } else {
      InsertBounded(t[..|t| - 1], x, b);
    }
  }

  lemma {:induction false} InsertStable(t: seq<Slot>, x: Slot, k: int)
    ensures WithStart(Insert(t, x), k) == WithStart(t, k) + WithStart([x], k)
  {
    if t == [] || t[|t| - 1].start <= x.start {
      WithStartAppend(t, [x], k);
    } else {
      var init, last := t[..|t| - 1], t[|t| - 1];
      assert t == init + [last];
      InsertStable(init, x, k);
      WithStartAppend(Insert(init, x), [last], k);
      WithStartAppend(init, [last], k);
      assert WithStart([x], k) == [] || WithStart([last], k) == [] by {
        assert WithStart([x][1..], k) == [] && WithStart([last][1..], k) == [];
      }
    }
  }

  /** The stable sort is ordered by start and is a permutation of its input. */
  lemma {:induction false} SortedByTimeSorts(s: seq<Slot>)
    ensures SortedByStart(SortedByTime(s))
    ensures multiset(SortedByTime(s)) == multiset(s)
  {
    if s != [] {
      var init := s[..|s| - 1];
      assert s == init + [s[|s| - 1]];
      SortedByTimeSorts(init);
      InsertSorted(SortedByTime(init), s[|s| - 1]);
    }
  }

  /** Slots with equal start times keep their relative order. */
  lemma {:induction false} SortedByTimeStable(s: seq<Slot>, k: int)
    ensures WithStart(SortedByTime(s), k) == WithStart(s, k)
  {
    if s != [] {
      var init := s[..|s| - 1];
      assert s == init + [s[|s| - 1]];
      SortedByTimeStable(init, k);
      InsertStable(SortedByTime(init), s[|s| - 1], k);
      WithStartAppend(init, [s[|s| - 1]], k);
    }
  }

  function FirstKey(s: seq<Slot>): int {
    if s == [] then 0 else s[0].start
  }

  lemma EmptyIffNoFirstKey(s: seq<Slot>)
    ensures s == [] <==> WithStart(s, FirstKey(s)) == []
  {
  }

  /** Two arrangements sorted by start that agree on every key's subsequence are equal. */
  lemma {:induction false} SortedArrangementUnique(t1: seq<Slot>, t2: seq<Slot>)
    requires SortedByStart(t1) && SortedByStart(t2)
    requires forall k :: WithStart(t1, k) == WithStart(t2, k)
    ensures t1 == t2
  {
    EmptyIffNoFirstKey(t1);
    EmptyIffNoFirstKey(t2);
    if t1 == [] {
      assert WithStart(t2, FirstKey(t2)) == WithStart(t1, FirstKey(t2)) == [];
    } else {
      assert WithStart(t2, FirstKey(t1)) == WithStart(t1, FirstKey(t1)) != [];
      var m1, m2 := t1[0].start, t2[0].start;
      assert WithStart(t1, m1)[0] == t1[0];
      assert t1[0] in WithStart(t2, m1);
      WithStartMembers(t2, m1, t1[0]);
      assert t2[0] in WithStart(t1, m2);
      WithStartMembers(t1, m2, t2[0]);
      assert m1 == m2;
      assert t1[0] == WithStart(t1, m1)[0] == WithStart(t2, m1)[0] == t2[0];
      forall k ensures WithStart(t1[1..], k) == WithStart(t2[1..], k) {
        var h := if m1 == k then [t1[0]] else [];
        assert WithStart(t1, k) == h + WithStart(t1[1..], k);
        assert WithStart(t2, k) == h + WithStart(t2[1..], k);
        assert WithStart(t1[1..], k) == (h + WithStart(t1[1..], k))[|h|..];
        assert WithStart(t2[1..], k) == (h + WithStart(t2[1..], k))[|h|..];
      }
      SortedArrangementUnique(t1[1..], t2[1..]);
      assert t1 == [t1[0]] + t1[1..] && t2 == [t2[0]] + t2[1..];
    }
  }

  /** Whatever algorithm a stable sort by start uses, its result is `SortedByTime(s)`. */
  lemma StableSortUnique(s: seq<Slot>, t: seq<Slot>)
    requires SortedByStart(t)
    requires forall k :: WithStart(t, k) == WithStart(s, k)
    ensures t == SortedByTime(s)
  {
    SortedByTimeSorts(s);
    forall k ensures WithStart(t, k) == WithStart(SortedByTime(s), k) {
      SortedByTimeStable(s, k);
    }
    SortedArrangementUnique(t, SortedByTime(s));
  }

  /** `slices.SortStableFunc(plan, planner.SortByTime)`: sorts `a` in place by start, stably. */
  method SortStableByTime(a: array<Slot>)
    modifies a
    ensures a[..] == SortedByTime(old(a[..]))
  {
    ghost var s := a[..];
    var i := 0;
    while i < a.Length
      invariant 0 <= i <= a.Length
      invariant a[..i] == SortedByTime(s[..i])
      invariant forall k :: i <= k < a.Length ==> a[k] == s[k]
    {
      assert s[..i + 1][..i] == s[..i];
      InsertLast(a, i);
      i := i + 1;
    }
    assert a[..] == a[..a.Length];
    assert s == s[..a.Length];
  }

  /** Inserting `x` lands it right after the last slot of `p` that starts no later than it. */
  lemma {:induction false} InsertAt(p: seq<Slot>, x: Slot, j: int)
    requires 0 <= j <= |p|
    requires j == 0 || p[j - 1].start <= x.start
    requires forall k :: j <= k < |p| ==> p[k].start > x.start
    ensures Insert(p, x) == p[..j] + [x] + p[j..]
  {
    if j == |p| {
      assert p[..j] == p && p[j..] == [];
    } else {
      var init := p[..|p| - 1];
      assert init[..j] == p[..j];
      InsertAt(init, x, j);
      assert p[j..] == init[j..] + [p[|p| - 1]];
    }
  }

  /** A sequence that agrees with `p[..j] + [x] + p[j..]` index by index is that sequence. */
  lemma ShiftedIs(s: seq<Slot>, p: seq<Slot>, x: Slot, j: int)
    requires 0 <= j <= |p| && |s| == |p| + 1
    requires forall k :: 0 <= k < j ==> s[k] == p[k]
    requires s[j] == x
    requires forall k :: j <= k < |p| ==> s[k + 1] == p[k]
    ensures s == p[..j] + [x] + p[j..]
  {
    var q := p[..j] + [x] + p[j..];
    forall k | 0 <= k < |s| ensures s[k] == q[k] {
      if k > j {
        assert s[(k - 1) + 1] == p[k - 1];
      }
    }
  }

  /** Moves `a[i]` left past the slots of `a[..i]` that start later than it. */
  method InsertLast(a: array<Slot>, i: int)
    requires 0 <= i < a.Length
    modifies a
    ensures a[..i + 1] == Insert(old(a[..i]), old(a[i]))
    ensures forall k :: i < k < a.Length ==> a[k] == old(a[k])
  {
    var x := a[i];
    ghost var p := a[..i];
    var j := i;
    while j > 0 && a[j - 1].start > x.start
      invariant 0 <= j <= i
      invariant forall k :: 0 <= k < j ==> a[k] == p[k]
      invariant forall k :: j <= k < i ==> a[k + 1] == p[k]
      invariant forall k :: j <= k < i ==> p[k].start > x.start
      invariant forall k :: i < k < a.Length ==> a[k] == old(a[k])
    {
      a[j] := a[j - 1];
      j := j - 1;
    }
    a[j] := x;
    InsertAt(p, x, j);
    ShiftedIs(a[..i + 1], p, x, j);
  }
}
