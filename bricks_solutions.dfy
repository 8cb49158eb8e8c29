/**
 * The four algorithm exercises of the bricks project
 * (bricks/src/algo_questions/Solutions.java): greedy assignment of tasks to
 * time slots, the fewest leaps across lily leaves, the ways to fill a
 * trough with one or two buckets a trip, and the number of binary search
 * tree shapes. Java's int is modelled as an unbounded integer.
 */
module BricksSolutions {

  import opened Util

  // ---------------------------------------------------------------------
  // alotStudyTime

  /** Task `task` done in time slot `slot` (both indices). */
  datatype Pair = Pair(task: nat, slot: nat)

  /**
   * A one-to-one assignment of tasks to time slots at least as long: every
   * task and every slot is used at most once.
   */
  predicate IsMatching(tasks: seq<int>, slots: seq<int>, ps: seq<Pair>)
  {
    (forall k :: 0 <= k < |ps| ==>
      ps[k].task < |tasks| && ps[k].slot < |slots| && tasks[ps[k].task] <= slots[ps[k].slot]) &&
    (forall k, l :: 0 <= k < l < |ps| ==> ps[k].task != ps[l].task && ps[k].slot != ps[l].slot)
  }

  predicate Sorted(s: seq<int>)
  {
    forall i, j :: 0 <= i < j < |s| ==> s[i] <= s[j]
  }

  /**
   * The greedy scan of alotStudyTime over sorted tasks and slots: the
   * shortest task goes into the first slot that fits it.
   */
  function Greedy(tasks: seq<int>, slots: seq<int>): (r: nat)
    ensures r <= |tasks| && r <= |slots|
    decreases |slots|
  {
    if tasks == [] || slots == [] then 0
    else if tasks[0] <= slots[0] then 1 + Greedy(tasks[1..], slots[1..])
    else Greedy(tasks, slots[1..])
  }

  /** Every pair moved dt tasks and ds slots on. */
  function Shift(ps: seq<Pair>, dt: nat, ds: nat): (r: seq<Pair>)
    ensures |r| == |ps| && forall k :: 0 <= k < |ps| ==> r[k] == Pair(ps[k].task + dt, ps[k].slot + ds)
  {
    seq(|ps|, k requires 0 <= k < |ps| => Pair(ps[k].task + dt, ps[k].slot + ds))
  }

  /** Every pair moved dt tasks and ds slots back. */
  function Unshift(ps: seq<Pair>, dt: nat, ds: nat): (r: seq<Pair>)
    requires forall k :: 0 <= k < |ps| ==> ps[k].task >= dt && ps[k].slot >= ds
    ensures |r| == |ps| && forall k :: 0 <= k < |ps| ==> r[k] == Pair(ps[k].task - dt, ps[k].slot - ds)
  {
    seq(|ps|, k requires 0 <= k < |ps| => Pair(ps[k].task - dt, ps[k].slot - ds))
  }

  /** The greedy scan's count is met by an actual assignment. */
  lemma {:induction false} GreedyAchieved(tasks: seq<int>, slots: seq<int>) returns (ps: seq<Pair>)
    ensures IsMatching(tasks, slots, ps) && |ps| == Greedy(tasks, slots)
    decreases |slots|
  {
    if tasks == [] || slots == [] {
      ps := [];
    } else if tasks[0] <= slots[0] {
      var rest := GreedyAchieved(tasks[1..], slots[1..]);
      ps := [Pair(0, 0)] + Shift(rest, 1, 1);
    } else {
      var rest := GreedyAchieved(tasks, slots[1..]);
      ps := Shift(rest, 0, 1);
    }
  }

  /** Dropping one pair leaves an assignment. */
  lemma RemoveMatching(tasks: seq<int>, slots: seq<int>, ps: seq<Pair>, i: nat)
    requires IsMatching(tasks, slots, ps) && i < |ps|
    ensures IsMatching(tasks, slots, ps[..i] + ps[i + 1..])
    ensures forall p :: p in ps[..i] + ps[i + 1..] ==> p in ps
  {
    var r := ps[..i] + ps[i + 1..];
    assert forall k :: 0 <= k < |r| ==> r[k] == ps[if k < i then k else k + 1];
  }

  /**
   * With the shortest task fitting the shortest slot, an assignment can give
   * up at most one pair so that neither the first task nor the first slot is
   * used: when both are used, by (0, b) and (a, 0), the pairs are exchanged
   * for (a, b) and (0, 0), and (0, 0) is dropped.
   */
  lemma FreeFirst(tasks: seq<int>, slots: seq<int>, ps: seq<Pair>) returns (q: seq<Pair>)
    requires Sorted(tasks) && Sorted(slots) && tasks != [] && slots != [] && tasks[0] <= slots[0]
    requires IsMatching(tasks, slots, ps)
    ensures IsMatching(tasks, slots, q) && |q| + 1 >= |ps|
    ensures forall k :: 0 <= k < |q| ==> q[k].task != 0 && q[k].slot != 0
  {
    var usesTask := exists k :: 0 <= k < |ps| && ps[k].task == 0;
    var usesSlot := exists k :: 0 <= k < |ps| && ps[k].slot == 0;
    if !usesTask && !usesSlot {
      q := ps;
    } else if usesTask && usesSlot {
      var iA :| 0 <= iA < |ps| && ps[iA].task == 0;
      var iB :| 0 <= iB < |ps| && ps[iB].slot == 0;
      if iA == iB {
        q := DropAt(tasks, slots, ps, iA);
      } else {
        var swapped := Exchange(tasks, slots, ps, iA, iB);
        q := DropAt(tasks, slots, swapped, iB);
      }
    } else {
      var i :| 0 <= i < |ps| && (ps[i].task == 0 || ps[i].slot == 0);
      q := DropAt(tasks, slots, ps, i);
    }
  }

  /** Drop pair i, the only one using the first task or the first slot. */
  lemma DropAt(tasks: seq<int>, slots: seq<int>, ps: seq<Pair>, i: nat) returns (q: seq<Pair>)
    requires IsMatching(tasks, slots, ps) && i < |ps|
    requires forall k :: 0 <= k < |ps| && k != i ==> ps[k].task != 0 && ps[k].slot != 0
    ensures IsMatching(tasks, slots, q) && |q| + 1 == |ps|
    ensures forall k :: 0 <= k < |q| ==> q[k].task != 0 && q[k].slot != 0
  {
    q := ps[..i] + ps[i + 1..];
    RemoveMatching(tasks, slots, ps, i);
    assert forall k :: 0 <= k < |q| ==> q[k] == ps[if k < i then k else k + 1];
  }

  /** (0, b) at iA and (a, 0) at iB become (a, b) and (0, 0); it stays an assignment. */
  lemma Exchange(tasks: seq<int>, slots: seq<int>, ps: seq<Pair>, iA: nat, iB: nat) returns (r: seq<Pair>)
    requires Sorted(tasks) && Sorted(slots) && tasks != [] && slots != [] && tasks[0] <= slots[0]
    requires IsMatching(tasks, slots, ps) && iA < |ps| && iB < |ps| && iA != iB
    requires ps[iA].task == 0 && ps[iB].slot == 0
    ensures IsMatching(tasks, slots, r) && |r| == |ps| && r[iB] == Pair(0, 0)
    ensures forall k :: 0 <= k < |r| && k != iB ==> r[k].task != 0 && r[k].slot != 0
  {
    var a, b := ps[iB].task, ps[iA].slot;
    if iA < iB {
      assert ps[iA].task != ps[iB].task && ps[iA].slot != ps[iB].slot;
    } else {
      assert ps[iB].task != ps[iA].task && ps[iB].slot != ps[iA].slot;
    }
    assert 0 < a && 0 < b;
    assert tasks[a] <= slots[0] <= slots[b];
    r := ps[iA := Pair(a, b)][iB := Pair(0, 0)];
    forall k, l | 0 <= k < l < |r|
      ensures r[k].task != r[l].task && r[k].slot != r[l].slot
    {
      assert ps[k].task != ps[l].task && ps[k].slot != ps[l].slot;
    }
  }

  /** An assignment of some task needs a task and a slot. */
  lemma NonEmptyMatching(tasks: seq<int>, slots: seq<int>, ps: seq<Pair>)
    requires IsMatching(tasks, slots, ps)
    ensures ps != [] ==> tasks != [] && slots != []
  {
    if ps != [] {
      assert ps[0].task < |tasks| && ps[0].slot < |slots|;
    }
  }

  /** No assignment between sorted tasks and slots beats the greedy scan. */
  lemma {:induction false} GreedyOptimal(tasks: seq<int>, slots: seq<int>, ps: seq<Pair>)
    requires Sorted(tasks) && Sorted(slots) && IsMatching(tasks, slots, ps)
    ensures |ps| <= Greedy(tasks, slots)
    decreases |slots|
  {
    if tasks == [] || slots == [] {
      NonEmptyMatching(tasks, slots, ps);
    } else if tasks[0] > slots[0] {
      forall k | 0 <= k < |ps|
        ensures ps[k].slot >= 1
      {
        assert tasks[0] <= tasks[ps[k].task];
      }
      var rest := Unshift(ps, 0, 1);
      assert IsMatching(tasks, slots[1..], rest);
      GreedyOptimal(tasks, slots[1..], rest);
    } else {
      var q := FreeFirst(tasks, slots, ps);
      var rest := Unshift(q, 1, 1);
      assert IsMatching(tasks[1..], slots[1..], rest);
      GreedyOptimal(tasks[1..], slots[1..], rest);
    }
  }

  /** Every index of idx is a position of t. */
  predicate Indices(t: seq<int>, idx: seq<nat>)
  {
    forall k :: 0 <= k < |idx| ==> idx[k] < |t|
  }

  /** The positions idx list t's values in ascending order. */
  predicate SortedBy(t: seq<int>, idx: seq<nat>)
    requires Indices(t, idx)
  {
    forall i, j :: 0 <= i < j < |idx| ==> t[idx[i]] <= t[idx[j]]
  }

  /** Position x put into idx before the first position of a larger value. */
  function Insert(t: seq<int>, idx: seq<nat>, x: nat): (r: seq<nat>)
    requires x < |t| && Indices(t, idx)
    ensures |r| == |idx| + 1 && Indices(t, r)
    ensures forall y :: y in r <==> y in idx || y == x
    decreases |idx|
  {
    if idx == [] || t[x] <= t[idx[0]] then [x] + idx else [idx[0]] + Insert(t, idx[1..], x)
  }

  /** Inserting keeps the positions in ascending order of value. */
  lemma {:induction false} InsertSorted(t: seq<int>, idx: seq<nat>, x: nat)
    requires x < |t| && Indices(t, idx) && SortedBy(t, idx)
    ensures SortedBy(t, Insert(t, idx, x))
    decreases |idx|
  {
    if idx != [] && t[x] > t[idx[0]] {
      InsertSorted(t, idx[1..], x);
      var r := Insert(t, idx, x);
      assert r == [idx[0]] + Insert(t, idx[1..], x);
      forall j | 0 < j < |r|
        ensures t[r[0]] <= t[r[j]]
      {
        assert r[j] in Insert(t, idx[1..], x);
      }
    }
  }

  /** Inserting a new position lists every position once. */
  lemma {:induction false} InsertDistinct(t: seq<int>, idx: seq<nat>, x: nat)
    requires x < |t| && Indices(t, idx) && Distinct(idx) && x !in idx
    ensures Distinct(Insert(t, idx, x))
    decreases |idx|
  {
    if idx != [] && t[x] > t[idx[0]] {
      InsertDistinct(t, idx[1..], x);
      var r := Insert(t, idx, x);
      assert r == [idx[0]] + Insert(t, idx[1..], x);
      forall j | 0 < j < |r|
        ensures r[0] != r[j]
      {
        assert r[j] in Insert(t, idx[1..], x);
      }
    }
  }

  /** The positions 0 to n - 1 of t in ascending order of value: the order Arrays.sort puts them in. */
  function Order(t: seq<int>, n: nat): (r: seq<nat>)
    requires n <= |t|
    ensures |r| == n && Indices(t, r)
    ensures forall y: nat :: y in r <==> y < n
  {
    if n == 0 then [] else Insert(t, Order(t, n - 1), n - 1)
  }

  /** Order lists each position once, in ascending order of value. */
  lemma {:induction false} OrderSpec(t: seq<int>, n: nat)
    requires n <= |t|
    ensures SortedBy(t, Order(t, n)) && Distinct(Order(t, n))
  {
    if n > 0 {
      OrderSpec(t, n - 1);
      InsertSorted(t, Order(t, n - 1), n - 1);
      InsertDistinct(t, Order(t, n - 1), n - 1);
    }
  }

  /** A sorted copy of t: t's values taken in the order Order lists their positions. */
  function SortedCopy(t: seq<int>): (r: seq<int>)
    ensures |r| == |t| && forall k :: 0 <= k < |t| ==> r[k] == t[Order(t, |t|)[k]]
  {
    var idx := Order(t, |t|);
    seq(|t|, k requires 0 <= k < |t| => t[idx[k]])
  }

  /** The sorted copy is sorted. */
  lemma SortedCopySorted(t: seq<int>)
    ensures Sorted(SortedCopy(t))
  {
    OrderSpec(t, |t|);
  }

  /** The place of x in idx. */
  function Pos(idx: seq<nat>, x: nat): (k: nat)
    requires x in idx
    ensures k < |idx| && idx[k] == x
  {
    if idx[0] == x then 0 else 1 + Pos(idx[1..], x)
  }

  /** An assignment between tasks and slots is one of the same size between their sorted copies. */
  lemma ToSorted(tasks: seq<int>, slots: seq<int>, ps: seq<Pair>) returns (qs: seq<Pair>)
    requires IsMatching(tasks, slots, ps)
    ensures IsMatching(SortedCopy(tasks), SortedCopy(slots), qs) && |qs| == |ps|
  {
    var ot, os := Order(tasks, |tasks|), Order(slots, |slots|);
    qs := seq(|ps|, k requires 0 <= k < |ps| => Pair(Pos(ot, ps[k].task), Pos(os, ps[k].slot)));
    forall k, l | 0 <= k < l < |qs|
      ensures qs[k].task != qs[l].task && qs[k].slot != qs[l].slot
    {
      assert ot[qs[k].task] == ps[k].task && ot[qs[l].task] == ps[l].task;
      assert os[qs[k].slot] == ps[k].slot && os[qs[l].slot] == ps[l].slot;
    }
  }

  /** An assignment between the sorted copies is one of the same size between tasks and slots. */
  lemma FromSorted(tasks: seq<int>, slots: seq<int>, qs: seq<Pair>) returns (ps: seq<Pair>)
    requires IsMatching(SortedCopy(tasks), SortedCopy(slots), qs)
    ensures IsMatching(tasks, slots, ps) && |ps| == |qs|
  {
    var ot, os := Order(tasks, |tasks|), Order(slots, |slots|);
    OrderSpec(tasks, |tasks|);
    OrderSpec(slots, |slots|);
    ps := seq(|qs|, k requires 0 <= k < |qs| => Pair(ot[qs[k].task], os[qs[k].slot]));
    forall k, l | 0 <= k < l < |ps|
      ensures ps[k].task != ps[l].task && ps[k].slot != ps[l].slot
    {
      assert qs[k].task != qs[l].task && qs[k].slot != qs[l].slot;
    }
  }

  /**
   * alotStudyTime: sort copies of the tasks and the slots, then walk the
   * slots from the shortest, giving each the shortest task not yet done when
   * it fits. The count is the largest number of tasks any one-to-one
   * assignment to slots at least as long completes. The arrays are only read.
   */
  method AlotStudyTime(tasks: array<int>, timeSlots: array<int>) returns (numTasks: int)
    ensures numTasks <= tasks.Length && numTasks <= timeSlots.Length
    ensures exists ps :: IsMatching(tasks[..], timeSlots[..], ps) && |ps| == numTasks
    ensures forall ps :: IsMatching(tasks[..], timeSlots[..], ps) ==> |ps| <= numTasks
  {
    var sortedTasks := SortedCopy(tasks[..]);
    var sortedTimeSlots := SortedCopy(timeSlots[..]);
    numTasks := 0;
    var j := 0;
    var i := 0;
    while i < |sortedTimeSlots| && j < |sortedTasks|
      invariant 0 <= i <= |sortedTimeSlots| && 0 <= j <= |sortedTasks| && numTasks == j
      invariant j + Greedy(sortedTasks[j..], sortedTimeSlots[i..]) == Greedy(sortedTasks, sortedTimeSlots)
    {
      assert sortedTasks[j..][1..] == sortedTasks[j + 1..] && sortedTimeSlots[i..][1..] == sortedTimeSlots[i + 1..];
      if sortedTasks[j] <= sortedTimeSlots[i] {
        numTasks := numTasks + 1;
        j := j + 1;
      }
      i := i + 1;
    }
    Matched(tasks[..], timeSlots[..], numTasks);
  }

  /** The greedy count over the sorted copies is met by an assignment, and none beats it. */
  lemma Matched(tasks: seq<int>, slots: seq<int>, n: int)
    requires n == Greedy(SortedCopy(tasks), SortedCopy(slots))
    ensures exists ps :: IsMatching(tasks, slots, ps) && |ps| == n
    ensures forall ps :: IsMatching(tasks, slots, ps) ==> |ps| <= n
  {
    var qs := GreedyAchieved(SortedCopy(tasks), SortedCopy(slots));
    var ps := FromSorted(tasks, slots, qs);
    SortedCopySorted(tasks);
    SortedCopySorted(slots);
    forall ps | IsMatching(tasks, slots, ps)
      ensures |ps| <= n
    {
      var qs := ToSorted(tasks, slots, ps);
      GreedyOptimal(SortedCopy(tasks), SortedCopy(slots), qs);
    }
  }

  // ---------------------------------------------------------------------
  // minLeap

  /** p visits leaves of a, and each leap from leaf p[k] goes 1 to a[p[k]] leaves ahead. */
  predicate Leaps(a: seq<int>, p: seq<int>)
  {
    (forall k :: 0 <= k < |p| ==> 0 <= p[k] < |a|) &&
    (forall k :: 0 <= k < |p| - 1 ==> p[k] < p[k + 1] <= p[k] + a[p[k]])
  }

  /** p leaps from the first leaf to leaf x, in |p| - 1 leaps. */
  predicate IsPath(a: seq<int>, p: seq<int>, x: int)
  {
    |p| >= 1 && p[0] == 0 && p[|p| - 1] == x && Leaps(a, p)
  }

  /** p leaps from the first leaf to the last. */
  predicate Crosses(a: seq<int>, p: seq<int>)
  {
    IsPath(a, p, |a| - 1)
  }

  /** The farthest leaf any of the first m leaves leaps to: maxReach after leaf m - 1. */
  function FarthestFrom(a: seq<int>, m: nat): int
    requires 1 <= m <= |a|
  {
    if m == 1 then a[0]
    else
      var prev := FarthestFrom(a, m - 1);
      if m - 1 + a[m - 1] > prev then m - 1 + a[m - 1] else prev
  }

  /** FarthestFrom(a, m) is the largest l + a[l] over the first m leaves: no leaf leaps past it, and one leaps to it. */
  lemma {:induction false} FarthestSpec(a: seq<int>, m: nat) returns (l: nat)
    requires 1 <= m <= |a|
    ensures forall i :: 0 <= i < m ==> i + a[i] <= FarthestFrom(a, m)
    ensures l < m && FarthestFrom(a, m) == l + a[l]
  {
    if m == 1 {
      l := 0;
    } else {
      l := FarthestSpec(a, m - 1);
      if m - 1 + a[m - 1] > FarthestFrom(a, m - 1) {
        l := m - 1;
      }
    }
  }

  /** The farthest leaf within k leaps: every leaf up to it is reached in k leaps or fewer. */
  function Reach(a: seq<int>, k: nat): nat
    requires |a| >= 1
  {
    if k == 0 then 0 else Further(a, Reach(a, k - 1))
  }

  /** One more leap from the leaves up to prev: as far as any of them allows, and not less than prev. */
  function Further(a: seq<int>, prev: nat): (r: nat)
    requires |a| >= 1
    ensures r >= prev
  {
    var far := FarthestFrom(a, (if prev < |a| - 1 then prev else |a| - 1) + 1);
    if far > prev then far else prev
  }

  /** More leaps reach at least as far. */
  lemma {:induction false} ReachMono(a: seq<int>, i: nat, j: nat)
    requires |a| >= 1
    ensures i <= j ==> Reach(a, i) <= Reach(a, j)
    decreases j
  {
    if i < j {
      ReachMono(a, i, j - 1);
    }
  }

  /** Once one more leap reaches no farther, no number of leaps does. */
  lemma {:induction false} ReachStuck(a: seq<int>, k: nat, d: nat)
    requires |a| >= 1
    ensures Reach(a, k + 1) == Reach(a, k) ==> Reach(a, k + d) == Reach(a, k)
    decreases d
  {
    if d > 1 {
      ReachStuck(a, k, d - 1);
    }
  }

  /** A path of m leaps ends no farther than Reach(a, m). */
  lemma {:induction false} PathBound(a: seq<int>, p: seq<int>, x: int)
    requires IsPath(a, p, x)
    ensures x <= Reach(a, |p| - 1)
    decreases |p|
  {
    if |p| > 1 {
      var q := p[..|p| - 1];
      var y := p[|p| - 2];
      assert IsPath(a, q, y);
      PathBound(a, q, y);
      var prev := Reach(a, |p| - 2);
      var _ := FarthestSpec(a, (if prev < |a| - 1 then prev else |a| - 1) + 1);
      assert x <= y + a[y];
    }
  }

  /** Every leaf up to Reach(a, k) is reached in k leaps or fewer. */
  lemma {:induction false} PathTo(a: seq<int>, k: nat, x: int) returns (p: seq<int>)
    requires 0 <= x < |a| && x <= Reach(a, k)
    ensures IsPath(a, p, x) && |p| <= k + 1
    decreases k
  {
    if k == 0 {
      p := [0];
    } else if x <= Reach(a, k - 1) {
      p := PathTo(a, k - 1, x);
    } else {
      var prev := Reach(a, k - 1);
      var m := (if prev < |a| - 1 then prev else |a| - 1) + 1;
      var l := FarthestSpec(a, m);
      var q := PathTo(a, k - 1, l);
      p := q + [x];
      assert forall i :: 0 <= i < |q| ==> p[i] == q[i];
    }
  }

  /** When the last leaf can be reached, each leap short of it reaches farther. */
  lemma ReachableGrows(a: seq<int>, k: nat)
    requires |a| >= 1 && (exists p :: Crosses(a, p)) && Reach(a, k) < |a| - 1
    ensures Reach(a, k + 1) > Reach(a, k)
  {
    var p :| Crosses(a, p);
    PathBound(a, p, |a| - 1);
    ReachMono(a, |p| - 1, k);
    ReachStuck(a, k, if |p| - 1 >= k then |p| - 1 - k else 0);
  }

  /** With Reach(a, j - 1) short of the last leaf and Reach(a, j) at it, j leaps is the fewest. */
  lemma LeastLeaps(a: seq<int>, j: nat)
    requires |a| >= 1 && j >= 1 && Reach(a, j - 1) < |a| - 1 <= Reach(a, j)
    ensures forall p :: Crosses(a, p) ==> j <= |p| - 1
    ensures exists p :: Crosses(a, p) && |p| - 1 == j
  {
    forall q | Crosses(a, q)
      ensures j <= |q| - 1
    {
      PathBound(a, q, |a| - 1);
      ReachMono(a, |q| - 1, j - 1);
    }
    var p := PathTo(a, j, |a| - 1);
    assert Crosses(a, p);
  }

  /**
   * minLeap: numJumps leaps cover the leaves up to the end of the current
   * leap (steps leaves ahead); when the end is passed, one more leap takes
   * the frog as far as any leaf seen so far allows (maxReach). When the
   * last leaf can be reached, the count is the fewest leaps from the first
   * leaf to the last; no leaves or one leaf need no leap.
   */
  method MinLeap(leapNum: array<int>) returns (numJumps: int)
    ensures leapNum.Length <= 1 ==> numJumps == 0
    ensures forall p :: Crosses(leapNum[..], p) ==> numJumps <= |p| - 1
    ensures (exists p :: Crosses(leapNum[..], p)) ==> exists p :: Crosses(leapNum[..], p) && |p| - 1 == numJumps
  {
    ghost var a := leapNum[..];
    if leapNum.Length <= 1 {
      if leapNum.Length == 1 {
        assert Crosses(a, [0]);
      }
      return 0;
    }
    ghost var reachable := exists p :: Crosses(a, p);
    var maxReach := leapNum[0];
    var steps := leapNum[0];
    numJumps := 1;
    var i := 1;
    if reachable {
      ReachableGrows(a, 0);
    }
    while i < leapNum.Length - 1
      invariant 1 <= i <= leapNum.Length - 1 && numJumps >= 1
      invariant maxReach == FarthestFrom(a, i)
      invariant reachable ==> Reach(a, numJumps - 1) < i <= Reach(a, numJumps)
      invariant reachable ==> steps == Reach(a, numJumps) - (i - 1)
    {
      if i + leapNum[i] > maxReach {
        maxReach := i + leapNum[i];
      }
      steps := steps - 1;
      if steps == 0 {
        if reachable {
          ReachableGrows(a, numJumps);
        }
        numJumps := numJumps + 1;
        steps := maxReach - i;
      }
      i := i + 1;
    }
    if reachable {
      LeastLeaps(a, numJumps);
    }
  }

  // ---------------------------------------------------------------------
  // bucketWalk

  /** The number of ways to fill n litres, by the recurrence of bucketWalk. */
  function Ways(n: nat): nat
  {
    if n <= 1 then 1 else Ways(n - 1) + Ways(n - 2)
  }

  /**
   * bucketWalk: the table result[i] = result[i - 1] + result[i - 2] from
   * result[0] = result[1] = 1, read at n. A negative n makes Java throw
   * (a negative array size, or index 1 of a one-entry array for n = -1):
   * None here.
   */
  method BucketWalk(n: int) returns (ways: Option<int>)
    ensures ways.None? <==> n < 0
    ensures n >= 0 ==> ways == Some(Ways(n))
  {
    if n == 0 {
      return Some(1);
    }
    if n < 0 {
      return None;
    }
    var result := new int[n + 1];
    result[0] := 1;
    result[1] := 1;
    var i := 2;
    while i <= n
      invariant 2 <= i <= n + 1
      invariant forall k {:trigger result[k]} :: 0 <= k < i ==> result[k] == Ways(k)
    {
      result[i] := result[i - 1] + result[i - 2];
      i := i + 1;
    }
    return Some(result[n]);
  }

  /** The litres a sequence of trips brings. */
  function Total(trips: seq<nat>): nat
  {
    if trips == [] then 0 else trips[0] + Total(trips[1..])
  }

  /** A way to fill n litres: trips of one or two buckets, n litres in all. */
  predicate IsFill(trips: seq<nat>, n: nat)
  {
    (forall i :: 0 <= i < |trips| ==> trips[i] == 1 || trips[i] == 2) && Total(trips) == n
  }

  /** Every sequence of ss with x put in front. */
  function Prepend(x: nat, ss: seq<seq<nat>>): (r: seq<seq<nat>>)
    ensures |r| == |ss| && forall i :: 0 <= i < |ss| ==> r[i] == [x] + ss[i]
  {
    seq(|ss|, i requires 0 <= i < |ss| => [x] + ss[i])
  }

  /** All ways to fill n litres: first a one-bucket trip, then a two-bucket trip. */
  function Fills(n: nat): seq<seq<nat>>
  {
    if n == 0 then [[]]
    else Prepend(1, Fills(n - 1)) + (if n >= 2 then Prepend(2, Fills(n - 2)) else [])
  }

  predicate Distinct<T(==)>(s: seq<T>)
  {
    forall i, j :: 0 <= i < j < |s| ==> s[i] != s[j]
  }

  /** A trip in front adds its litres. */
  lemma TotalCons(x: nat, trips: seq<nat>)
    ensures Total([x] + trips) == x + Total(trips)
  {
    assert ([x] + trips)[1..] == trips;
  }

  /** A trip of one or two buckets in front of a way to fill m litres is a way to fill m + x. */
  lemma PrependFills(x: nat, ss: seq<seq<nat>>, m: nat)
    requires x == 1 || x == 2
    requires forall i :: 0 <= i < |ss| ==> IsFill(ss[i], m)
    ensures forall i :: 0 <= i < |ss| ==> IsFill(Prepend(x, ss)[i], m + x)
  {
    forall i | 0 <= i < |ss|
      ensures IsFill(Prepend(x, ss)[i], m + x)
    {
      TotalCons(x, ss[i]);
    }
  }

  /** The same trip in front of different ways keeps them different. */
  lemma PrependDistinct(x: nat, ss: seq<seq<nat>>)
    requires Distinct(ss)
    ensures Distinct(Prepend(x, ss))
  {
    var r := Prepend(x, ss);
    forall i, j | 0 <= i < j < |ss|
      ensures r[i] != r[j]
    {
      assert r[i][1..] == ss[i] && r[j][1..] == ss[j];
    }
  }

  /** Two lists without repeats and without a common member join without repeats. */
  lemma JoinDistinct<T>(xs: seq<T>, ys: seq<T>)
    requires Distinct(xs) && Distinct(ys)
    requires forall i, j :: 0 <= i < |xs| && 0 <= j < |ys| ==> xs[i] != ys[j]
    ensures Distinct(xs + ys)
  {
    var zs := xs + ys;
    forall i, j | 0 <= i < j < |zs|
      ensures zs[i] != zs[j]
    {
      if j >= |xs| && i < |xs| {
        assert zs[i] == xs[i] && zs[j] == ys[j - |xs|];
      }
    }
  }

  /** There are Ways(n) ways in Fills(n), as bucketWalk counts them. */
  lemma {:induction false} FillsCount(n: nat)
    ensures |Fills(n)| == Ways(n)
  {
    if n >= 1 {
      FillsCount(n - 1);
    }
    if n >= 2 {
      FillsCount(n - 2);
    }
  }

  /** Every member of Fills(n) is a way to fill n litres. */
  lemma {:induction false} FillsAreFills(n: nat)
    ensures forall i :: 0 <= i < |Fills(n)| ==> IsFill(Fills(n)[i], n)
  {
    if n >= 1 {
      FillsAreFills(n - 1);
      PrependFills(1, Fills(n - 1), n - 1);
    }
    if n >= 2 {
      FillsAreFills(n - 2);
      PrependFills(2, Fills(n - 2), n - 2);
      assert Fills(n) == Prepend(1, Fills(n - 1)) + Prepend(2, Fills(n - 2));
    }
  }

  /** No way is listed twice in Fills(n). */
  lemma {:induction false} FillsDistinct(n: nat)
    ensures Distinct(Fills(n))
  {
    if n >= 1 {
      FillsDistinct(n - 1);
      PrependDistinct(1, Fills(n - 1));
    }
    if n >= 2 {
      FillsDistinct(n - 2);
      PrependDistinct(2, Fills(n - 2));
      var ones, twos := Prepend(1, Fills(n - 1)), Prepend(2, Fills(n - 2));
      assert forall i, j :: 0 <= i < |ones| && 0 <= j < |twos| ==> ones[i][0] == 1 && twos[j][0] == 2;
      JoinDistinct(ones, twos);
    }
  }

  /** The trips after the first fill what the first leaves. */
  lemma RestFills(trips: seq<nat>, n: nat)
    requires IsFill(trips, n) && trips != []
    ensures trips[0] <= n && IsFill(trips[1..], n - trips[0])
  {
    assert trips == [trips[0]] + trips[1..];
    TotalCons(trips[0], trips[1..]);
  }

  /** Prepend keeps every member, with x in front. */
  lemma PrependHas(x: nat, ss: seq<seq<nat>>, s: seq<nat>)
    requires s in ss
    ensures [x] + s in Prepend(x, ss)
  {
    var k :| 0 <= k < |ss| && ss[k] == s;
    assert Prepend(x, ss)[k] == [x] + s;
  }

  /** A trip of x buckets in front of a listed way to fill n - x litres is listed for n. */
  lemma PrependListed(x: nat, rest: seq<nat>, n: nat)
    requires (x == 1 || x == 2) && x <= n && rest in Fills(n - x)
    ensures [x] + rest in Fills(n)
  {
    PrependHas(x, Fills(n - x), rest);
    var ones := Prepend(1, Fills(n - 1));
    if x == 2 {
      assert Fills(n) == ones + Prepend(2, Fills(n - 2));
    }
  }

  /** Every way to fill n litres is listed in Fills(n). */
  lemma {:induction false} FillsComplete(trips: seq<nat>, n: nat)
    requires IsFill(trips, n)
    ensures trips in Fills(n)
    decreases n
  {
    if trips == [] {
      assert n == 0;
    } else {
      RestFills(trips, n);
      FillsComplete(trips[1..], n - trips[0]);
      PrependListed(trips[0], trips[1..], n);
      assert trips == [trips[0]] + trips[1..];
    }
  }

  // ---------------------------------------------------------------------
  // numTrees

  /** CatalanSum(i, j) = sum over k in [1, j] of Catalan(k - 1) * Catalan(i - k). */
  function CatalanSum(i: nat, j: nat): nat
    requires j <= i
    decreases i, j
  {
    if j == 0 then 0 else CatalanSum(i, j - 1) + Catalan(j - 1) * Catalan(i - j)
  }

  /** The number of tree shapes with n nodes, by the recurrence numTrees fills its table with. */
  function Catalan(n: nat): nat
    decreases n, n + 1
  {
    if n == 0 then 1 else CatalanSum(n, n)
  }

  /**
   * numTrees: result[i] accumulates result[j - 1] * result[i - j] for j from
   * 1 to i. A table of length n + 1 has result[1] only for n >= 1: numTrees(0)
   * fails on it, so n >= 1 is required.
   */
  method NumTrees(n: nat) returns (count: int)
    requires n >= 1
    ensures count == Catalan(n)
  {
    var result := new int[n + 1](_ => 0);
    result[0] := 1;
    result[1] := 1;
    var i := 2;
    while i <= n
      invariant 2 <= i <= n + 1
      invariant forall k {:trigger result[k]} :: 0 <= k < i ==> result[k] == Catalan(k)
      invariant forall k :: i <= k <= n ==> result[k] == 0
    {
      var j := 1;
      while j <= i
        invariant 1 <= j <= i + 1
        invariant forall k {:trigger result[k]} :: 0 <= k < i ==> result[k] == Catalan(k)
        invariant forall k :: i < k <= n ==> result[k] == 0
        invariant result[i] == CatalanSum(i, j - 1)
      {
        result[i] := result[i] + result[j - 1] * result[i - j];
        j := j + 1;
      }
      i := i + 1;
    }
    return result[n];
  }

  /** The shape of a binary tree. */
  datatype Shape = Empty | Node(left: Shape, right: Shape)

  function Size(t: Shape): nat
  {
    match t
    case Empty => 0
    case Node(l, r) => Size(l) + Size(r) + 1
  }

  /** The shapes with left subtree l and each right subtree of rs. */
  function Row(l: Shape, rs: seq<Shape>): (r: seq<Shape>)
    ensures |r| == |rs| && forall i :: 0 <= i < |rs| ==> r[i] == Node(l, rs[i])
  {
    seq(|rs|, i requires 0 <= i < |rs| => Node(l, rs[i]))
  }

  /** Every shape with a left subtree from ls and a right subtree from rs. */
  function Pairs(ls: seq<Shape>, rs: seq<Shape>): seq<Shape>
  {
    if ls == [] then [] else Row(ls[0], rs) + Pairs(ls[1..], rs)
  }

  /** The shapes of n nodes whose left subtree has fewer than j nodes. */
  function SplitShapes(n: nat, j: nat): seq<Shape>
    requires j <= n
    decreases n, j
  {
    if j == 0 then [] else SplitShapes(n, j - 1) + Pairs(Shapes(j - 1), Shapes(n - j))
  }

  /** All binary tree shapes with n nodes. */
  function Shapes(n: nat): seq<Shape>
    decreases n, n + 1
  {
    if n == 0 then [Empty] else SplitShapes(n, n)
  }

  /** Node(l, r) for every l of ls and r of rs: the left subtree is from ls, the right from rs, and each pair once. */
  lemma {:induction false} PairsSpec(ls: seq<Shape>, rs: seq<Shape>)
    ensures |Pairs(ls, rs)| == |ls| * |rs|
    ensures forall t :: t in Pairs(ls, rs) ==> t.Node? && t.left in ls && t.right in rs
    ensures Distinct(ls) && Distinct(rs) ==> Distinct(Pairs(ls, rs))
    decreases |ls|
  {
    if ls != [] {
      var row, rest := Row(ls[0], rs), Pairs(ls[1..], rs);
      PairsSpec(ls[1..], rs);
      assert |ls| * |rs| == |rs| + |ls[1..]| * |rs|;
      if Distinct(ls) && Distinct(rs) {
        forall i, j | 0 <= i < |row| && 0 <= j < |rest|
          ensures row[i] != rest[j]
        {
          assert rest[j] in rest;
          var k :| 1 <= k < |ls| && ls[k] == rest[j].left;
        }
        JoinDistinct(row, rest);
      }
    }
  }

  /** Node(l, r) is among the pairs when l is among ls and r among rs. */
  lemma {:induction false} PairsHas(ls: seq<Shape>, rs: seq<Shape>, l: Shape, r: Shape)
    requires l in ls && r in rs
    ensures Node(l, r) in Pairs(ls, rs)
    decreases |ls|
  {
    if ls[0] == l {
      var k :| 0 <= k < |rs| && rs[k] == r;
      assert Row(l, rs)[k] == Node(l, r);
    } else {
      PairsHas(ls[1..], rs, l, r);
    }
  }

  /** There are Catalan(n) shapes in Shapes(n), as numTrees counts them. */
  lemma {:induction false} ShapesCount(n: nat)
    ensures |Shapes(n)| == Catalan(n)
    decreases n, n + 1
  {
    if n > 0 {
      SplitCount(n, n);
    }
  }

  lemma {:induction false} SplitCount(n: nat, j: nat)
    requires j <= n
    ensures |SplitShapes(n, j)| == CatalanSum(n, j)
    decreases n, j
  {
    if j > 0 {
      SplitCount(n, j - 1);
      ShapesCount(j - 1);
      ShapesCount(n - j);
      PairsSpec(Shapes(j - 1), Shapes(n - j));
    }
  }

  /** Every shape in Shapes(n) has n nodes. */
  lemma {:induction false} ShapesSizes(n: nat)
    ensures forall t :: t in Shapes(n) ==> Size(t) == n
    decreases n, n + 1
  {
    if n > 0 {
      SplitSizes(n, n);
    }
  }

  lemma {:induction false} SplitSizes(n: nat, j: nat)
    requires j <= n
    ensures forall t :: t in SplitShapes(n, j) ==> t.Node? && Size(t) == n && Size(t.left) < j
    decreases n, j
  {
    if j > 0 {
      SplitSizes(n, j - 1);
      ShapesSizes(j - 1);
      ShapesSizes(n - j);
      PairsSizes(Shapes(j - 1), Shapes(n - j), j - 1, n - j);
    }
  }

  /** No shape is listed twice in Shapes(n). */
  lemma {:induction false} ShapesDistinct(n: nat)
    ensures Distinct(Shapes(n))
    decreases n, n + 1
  {
    if n > 0 {
      SplitDistinct(n, n);
    }
  }

  lemma {:induction false} SplitDistinct(n: nat, j: nat)
    requires j <= n
    ensures Distinct(SplitShapes(n, j))
    decreases n, j
  {
    if j > 0 {
      var before, ls, rs := SplitShapes(n, j - 1), Shapes(j - 1), Shapes(n - j);
      SplitDistinct(n, j - 1);
      ShapesDistinct(j - 1);
      ShapesDistinct(n - j);
      PairsSpec(ls, rs);
      SplitSizes(n, j - 1);
      ShapesSizes(j - 1);
      ShapesSizes(n - j);
      PairsSizes(ls, rs, j - 1, n - j);
      SplitJoin(before, Pairs(ls, rs), n, j);
    }
  }

  /** Pairs of shapes of a and b nodes have a + b + 1 nodes, a of them on the left. */
  lemma PairsSizes(ls: seq<Shape>, rs: seq<Shape>, a: nat, b: nat)
    requires forall t :: t in ls ==> Size(t) == a
    requires forall t :: t in rs ==> Size(t) == b
    ensures forall t :: t in Pairs(ls, rs) ==> t.Node? && Size(t) == a + b + 1 && Size(t.left) == a
  {
    PairsSpec(ls, rs);
  }

  /** The shapes with a smaller left subtree and those with one of j - 1 nodes are different shapes. */
  lemma SplitJoin(before: seq<Shape>, now: seq<Shape>, n: nat, j: nat)
    requires j >= 1 && Distinct(before) && Distinct(now)
    requires forall t :: t in before ==> t.Node? && Size(t) == n && Size(t.left) < j - 1
    requires forall t :: t in now ==> t.Node? && Size(t) == n && Size(t.left) == j - 1
    ensures forall t :: t in before + now ==> t.Node? && Size(t) == n && Size(t.left) < j
    ensures Distinct(before + now)
  {
    forall a, b | 0 <= a < |before| && 0 <= b < |now|
      ensures before[a] != now[b]
    {
      assert before[a] in before && now[b] in now;
    }
    JoinDistinct(before, now);
  }

  /** Node(l, r), with l among the shapes of a nodes and r among those of b, is in SplitShapes(a + b + 1, j) once a < j. */
  lemma {:induction false} SplitHas(n: nat, j: nat, a: nat, b: nat, l: Shape, r: Shape)
    requires j <= n && a + b + 1 == n && a < j
    requires l in Shapes(a) && r in Shapes(b)
    ensures Node(l, r) in SplitShapes(n, j)
    decreases j
  {
    if a == j - 1 {
      PairsHas(Shapes(a), Shapes(b), l, r);
    } else {
      SplitHas(n, j - 1, a, b, l, r);
    }
  }

  /** Every shape is listed among the shapes of its size. */
  lemma {:induction false} ShapesComplete(t: Shape)
    ensures t in Shapes(Size(t))
    decreases t
  {
    if t.Node? {
      ShapesComplete(t.left);
      ShapesComplete(t.right);
      SplitHas(Size(t), Size(t), Size(t.left), Size(t.right), t.left, t.right);
    }
  }
}
