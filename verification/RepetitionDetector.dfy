/** The degenerate-repetition detector: what it reports is there, and a run it skips into is
    still counted to within one copy. */
module RepetitionDetector {
  import Arith

  datatype Best = Best(reps: nat, unit: string)

  predicate Allowed(u: string, alnum: char -> bool) {
    '\n' !in u && exists k | 0 <= k < |u| :: alnum(u[k])
  }

  /** The unit occurs at j. */
  predicate At(s: string, u: string, j: nat) {
    j + |u| <= |s| && s[j..j + |u|] == u
  }

  /** Consecutive copies of the unit from j. */
  function Copies(s: string, u: string, j: nat): nat
    requires u != ""
    decreases if j <= |s| then |s| - j else 0
  {
    if At(s, u, j) then 1 + Copies(s, u, j + |u|) else 0
  }

  function Better(best: Best, reps: nat, u: string, minReps: nat): Best {
    if reps >= minReps && reps > best.reps then Best(reps, u) else best
  }

  /** The scan for units of one size, from position i on. */
  function Scan(s: string, size: nat, i: nat, minReps: nat, alnum: char -> bool, best: Best): Best
    requires size > 0
    decreases if i <= |s| then |s| - i else 0
  {
    if i + size >= |s| then best
    else
      var u := s[i..i + size];
      if !Allowed(u, alnum) then Scan(s, size, i + 1, minReps, alnum, best)
      else
        var reps := Copies(s, u, i);
        Skips(reps, size);
        Scan(s, size, i + reps * size, minReps, alnum, Better(best, reps, u, minReps))
  }

  function ScanSizes(s: string, size: nat, minReps: nat, maxUnit: nat, alnum: char -> bool, best: Best): Best
    requires size > 0
    decreases if size <= maxUnit then maxUnit + 1 - size else 0
  {
    if size > maxUnit then best
    else ScanSizes(s, size + 1, minReps, maxUnit, alnum, Scan(s, size, 0, minReps, alnum, best))
  }

  /** What find_loop returns. */
  function Report(s: string, minReps: nat, maxUnit: nat, alnum: char -> bool): Best {
    ScanSizes(s, 2, minReps, maxUnit, alnum, Best(0, ""))
  }

  lemma Skips(reps: nat, size: nat)
    requires reps >= 1
    ensures reps * size >= size
  {}

  /** The innermost loop: consecutive copies of the unit at i. */
  method CountRun(s: string, unit: string, i: nat) returns (reps: nat)
    requires unit != "" && At(s, unit, i)
    ensures reps == Copies(s, unit, i) && reps >= 1
  {
    reps := 1;
    var j := i + |unit|;
    while At(s, unit, j)
      invariant 1 <= reps && i <= j <= |s|
      invariant reps + Copies(s, unit, j) == Copies(s, unit, i)
      decreases |s| - j
    {
      reps := reps + 1;
      j := j + |unit|;
    }
  }

  /** The scan over start positions for one unit size. */
  method ScanSize(s: string, size: nat, minReps: nat, alnum: char -> bool, start: Best) returns (best: Best)
    requires size > 0
    ensures best == Scan(s, size, 0, minReps, alnum, start)
  {
    best := start;
    var i: nat := 0;
    while i < |s| - size
      invariant Scan(s, size, i, minReps, alnum, best) == Scan(s, size, 0, minReps, alnum, start)
      decreases |s| - size - i
    {
      hide Allowed, Copies, Better;
      var unit := s[i..i + size];
      if !Allowed(unit, alnum) {
        i := i + 1;
        continue;
      }
      var reps := CountRun(s, unit, i);
      best := Better(best, reps, unit, minReps);
      Skips(reps, size);
      i := i + reps * size;
    }
  }

  /** find_loop. */
  method FindLoop(s: string, minReps: nat, maxUnit: nat, alnum: char -> bool) returns (best: Best)
    ensures best == Report(s, minReps, maxUnit, alnum)
  {
    best := Best(0, "");
    var size := 2;
    while size < maxUnit + 1
      invariant 2 <= size
      invariant ScanSizes(s, size, minReps, maxUnit, alnum, best) == Report(s, minReps, maxUnit, alnum)
      decreases maxUnit + 1 - size
    {
      best := ScanSize(s, size, minReps, alnum, best);
      size := size + 1;
    }
  }

  // ---- Which run is reported -----------------------------------------------------------------------

  /** The runs that a scan counts, in its order. */
  function Tries(s: string, size: nat, i: nat, alnum: char -> bool): seq<Best>
    requires size > 0
    decreases if i <= |s| then |s| - i else 0
  {
    if i + size >= |s| then []
    else
      var u := s[i..i + size];
      if !Allowed(u, alnum) then Tries(s, size, i + 1, alnum)
      else
        var reps := Copies(s, u, i);
        Skips(reps, size);
        [Best(reps, u)] + Tries(s, size, i + reps * size, alnum)
  }

  /** Shorter units first. */
  function AllTries(s: string, size: nat, maxUnit: nat, alnum: char -> bool): seq<Best>
    requires size > 0
    decreases if size <= maxUnit then maxUnit + 1 - size else 0
  {
    if size > maxUnit then [] else Tries(s, size, 0, alnum) + AllTries(s, size + 1, maxUnit, alnum)
  }

  /** best is the first of the runs with the largest count, if that reaches the threshold. */
  ghost predicate FirstMost(tries: seq<Best>, minReps: nat, best: Best) {
    && (forall j | 0 <= j < |tries| && tries[j].reps >= minReps :: tries[j].reps <= best.reps)
    && (best == Best(0, "") ||
        exists k :: 0 <= k < |tries| && tries[k] == best && best.reps >= minReps
                    && forall j | 0 <= j < k :: tries[j].reps < best.reps)
  }

  lemma FirstNext(done: seq<Best>, minReps: nat, best: Best, reps: nat, u: string)
    requires FirstMost(done, minReps, best)
    ensures FirstMost(done + [Best(reps, u)], minReps, Better(best, reps, u, minReps))
  {
    var all, now := done + [Best(reps, u)], Better(best, reps, u, minReps);
    assert all[|done|] == Best(reps, u);
    if reps >= minReps && reps > best.reps {
      forall j | 0 <= j < |done|
        ensures all[j].reps < now.reps
      {
        assert all[j] == done[j];
      }
      assert all[|done|] == now;
    } else if best != Best(0, "") {
      var k :| 0 <= k < |done| && done[k] == best && best.reps >= minReps
               && forall j | 0 <= j < k :: done[j].reps < best.reps;
      assert all[k] == best && forall j | 0 <= j < k :: all[j] == done[j];
    }
  }

  lemma {:induction false} ScanPicks(s: string, size: nat, i: nat, minReps: nat, alnum: char -> bool, best: Best,
          done: seq<Best>)
    requires size > 0 && FirstMost(done, minReps, best)
    ensures FirstMost(done + Tries(s, size, i, alnum), minReps, Scan(s, size, i, minReps, alnum, best))
    decreases if i <= |s| then |s| - i else 0
  {
    hide FirstMost, Better, Allowed, Copies;
    if i + size >= |s| {
      assert done + Tries(s, size, i, alnum) == done;
    } else {
      var u := s[i..i + size];
      if !Allowed(u, alnum) {
        ScanPicks(s, size, i + 1, minReps, alnum, best, done);
      } else {
        CopiesOnce(s, u, i);
        var reps := Copies(s, u, i);
        Skips(reps, size);
        FirstNext(done, minReps, best, reps, u);
        ScanPicks(s, size, i + reps * size, minReps, alnum, Better(best, reps, u, minReps), done + [Best(reps, u)]);
        assert done + ([Best(reps, u)] + Tries(s, size, i + reps * size, alnum))
            == (done + [Best(reps, u)]) + Tries(s, size, i + reps * size, alnum);
      }
    }
  }

  lemma {:induction false} SizesPick(s: string, size: nat, minReps: nat, maxUnit: nat, alnum: char -> bool, best: Best,
          done: seq<Best>)
    requires size > 0 && FirstMost(done, minReps, best)
    ensures FirstMost(done + AllTries(s, size, maxUnit, alnum), minReps,
                ScanSizes(s, size, minReps, maxUnit, alnum, best))
    decreases if size <= maxUnit then maxUnit + 1 - size else 0
  {
    hide FirstMost, Scan, Tries;
    if size > maxUnit {
      assert done + AllTries(s, size, maxUnit, alnum) == done;
    } else {
      var tries := Tries(s, size, 0, alnum);
      ScanPicks(s, size, 0, minReps, alnum, best, done);
      SizesPick(s, size + 1, minReps, maxUnit, alnum, Scan(s, size, 0, minReps, alnum, best), done + tries);
      assert done + (tries + AllTries(s, size + 1, maxUnit, alnum))
          == (done + tries) + AllTries(s, size + 1, maxUnit, alnum);
    }
  }

  /** Of the runs counted, shorter units first and then from left to right, the report is the first with the
      largest count that reaches the threshold, or nothing when none does. */
  lemma ReportIsFirst(s: string, minReps: nat, maxUnit: nat, alnum: char -> bool)
    ensures FirstMost(AllTries(s, 2, maxUnit, alnum), minReps, Report(s, minReps, maxUnit, alnum))
  {
    hide ScanSizes, AllTries;
    SizesPick(s, 2, minReps, maxUnit, alnum, Best(0, ""), []);
    assert [] + AllTries(s, 2, maxUnit, alnum) == AllTries(s, 2, maxUnit, alnum);
  }

  // ---- Periods and copies ------------------------------------------------------------------------

  function Repeat(u: string, n: nat): string {
    if n == 0 then "" else u + Repeat(u, n - 1)
  }

  /** s repeats with the given period between a and b. */
  ghost predicate Period(s: string, a: nat, b: nat, size: nat) {
    b <= |s| && forall k, m | a <= k && m == k + size < b :: s[k] == s[m]
  }

  lemma {:induction false} RepeatLength(u: string, n: nat)
    ensures |Repeat(u, n)| == n * |u|
  {
    if n > 0 {
      RepeatLength(u, n - 1);
    }
  }

  /** Copies of a unit are the unit repeated. */
  lemma {:induction false} CopiesOccur(s: string, u: string, j: nat)
    requires u != ""
    ensures j + Copies(s, u, j) * |u| <= |s| || (Copies(s, u, j) == 0 && j > |s|)
    ensures j <= |s| ==> s[j..j + Copies(s, u, j) * |u|] == Repeat(u, Copies(s, u, j))
    decreases if j <= |s| then |s| - j else 0
  {
    if At(s, u, j) {
      var m, n := j + |u|, Copies(s, u, j + |u|);
      CopiesOccur(s, u, m);
      var len := n * |u|;
      assert (n + 1) * |u| == len + |u|;
      assert s[j..m + len] == s[j..m] + s[m..m + len];
    } else {
      assert j <= |s| ==> s[j..j] == "";
    }
  }

  lemma {:induction false} RepeatIsPeriodic(s: string, p: nat, u: string, n: nat)
    requires u != "" && p + n * |u| <= |s| && s[p..p + n * |u|] == Repeat(u, n)
    ensures Period(s, p, p + n * |u|, |u|)
    ensures n > 0 ==> |u| <= n * |u| && s[p..p + |u|] == u
    decreases n
  {
    if n > 0 {
      var w, rest := |u|, (n - 1) * |u|;
      RepeatLength(u, n - 1);
      assert n * w == rest + w;
      assert s[p..p + n * w] == u + Repeat(u, n - 1);
      assert s[p..p + w] == s[p..p + n * w][..w] == u;
      assert s[p + w..p + w + rest] == s[p..p + n * w][w..] == Repeat(u, n - 1);
      RepeatIsPeriodic(s, p + w, u, n - 1);
      forall k, m | p <= k && m == k + w < p + n * w
        ensures s[k] == s[m]
      {
        if k < p + w {
          Skips(n - 1, w);
          assert s[p + w..p + w + w] == u;
          assert s[k] == u[k - p] && s[m] == s[p + w..p + w + w][k - p];
        }
      }
    }
  }

  lemma CopiesPeriodic(s: string, u: string, i: nat)
    requires u != "" && i <= |s|
    ensures i + Copies(s, u, i) * |u| <= |s| && Period(s, i, i + Copies(s, u, i) * |u|, |u|)
  {
    CopiesOccur(s, u, i);
    RepeatIsPeriodic(s, i, u, Copies(s, u, i));
  }

  /** Within a period the copies reach the last whole unit. */
  lemma {:induction false} CopiesReach(s: string, u: string, i: nat, b: nat)
    requires u != "" && At(s, u, i) && Period(s, i, b, |u|)
    ensures i + Copies(s, u, i) * |u| + |u| > b
    decreases |s| - i
  {
    var w, j := |u|, i + |u|;
    var n := Copies(s, u, j);
    assert (n + 1) * w == n * w + w;
    if j + w <= b {
      assert s[j..j + w] == u by {
        forall k | 0 <= k < w
          ensures s[j..j + w][k] == u[k]
        {
          assert s[i + k] == s[j + k] && s[i..i + w][k] == u[k];
        }
      }
      CopiesReach(s, u, j, b);
    } else {
      CopiesOccur(s, u, j);
    }
  }

  /** Every window of one period holds the same characters, so it is allowed alike. */
  lemma Rotated(s: string, p: nat, i: nat, b: nat, size: nat, alnum: char -> bool)
    requires size > 0 && p <= i < p + size && i + size <= b && Period(s, p, b, size)
    requires Allowed(s[p..p + size], alnum)
    ensures Allowed(s[i..i + size], alnum)
  {
    var u, v := s[p..p + size], s[i..i + size];
    forall k | 0 <= k < size
      ensures v[k] != '\n'
    {
      var x := i + k;
      if x < p + size {
        assert v[k] == u[x - p];
      } else {
        assert s[x - size] == s[x] && v[k] == u[x - size - p];
      }
    }
    var k :| 0 <= k < |u| && alnum(u[k]);
    var y := p + k;
    if y >= i {
      assert v[y - i] == u[k];
    } else {
      var z := y + size;
      assert s[y] == s[z] && v[z - i] == u[k];
    }
  }

  // ---- What is found --------------------------------------------------------------------------------

  lemma {:induction false} ScanKeeps(s: string, size: nat, i: nat, minReps: nat, alnum: char -> bool, best: Best)
    requires size > 0
    ensures Scan(s, size, i, minReps, alnum, best).reps >= best.reps
    decreases if i <= |s| then |s| - i else 0
  {
    if i + size < |s| {
      var u := s[i..i + size];
      if !Allowed(u, alnum) {
        ScanKeeps(s, size, i + 1, minReps, alnum, best);
      } else {
        var reps := Copies(s, u, i);
        Skips(reps, size);
        ScanKeeps(s, size, i + reps * size, minReps, alnum, Better(best, reps, u, minReps));
      }
    }
  }

  /** Counting copies: more than (r - 1) units long is at least r copies. */
  lemma AtLeast(reps: int, r: int, size: nat)
    requires size > 0 && reps * size > (r - 1) * size
    ensures reps >= r
  {
    if reps <= r - 1 {
      Arith.MulLe(reps, r - 1, size);
    }
  }

  lemma InUnit(s: string, u: string, j: nat, e: nat)
    requires At(s, u, j) && j <= e < j + |u|
    ensures s[e] in u
  {
    assert s[j..j + |u|][e - j] == s[e];
  }

  /** No copy of a unit without newline runs over a newline. */
  lemma {:induction false} StopsBefore(s: string, u: string, j: nat, e: nat)
    requires u != "" && '\n' !in u && j <= e < |s| && s[e] == '\n'
    ensures j + Copies(s, u, j) * |u| <= e
    decreases |s| - j
  {
    if At(s, u, j) {
      if e < j + |u| {
        InUnit(s, u, j, e);
      }
      StopsBefore(s, u, j + |u|, e);
      assert Copies(s, u, j) * |u| == Copies(s, u, j + |u|) * |u| + |u|;
    }
  }

  lemma PeriodEnd(s: string, p: nat, b: nat, size: nat)
    requires Period(s, p, b, size)
    ensures b <= |s|
  {}

  /** The scan, standing at i, will try position p itself. */
  ghost predicate Meets(s: string, i: nat, p: nat) {
    i == p || (i < p <= |s| && s[p - 1] == '\n')
  }

  lemma AllowedMeets(s: string, i: nat, p: nat, u: string, alnum: char -> bool)
    requires i < p && u != "" && At(s, u, i) && Allowed(u, alnum)
    ensures Meets(s, i, p) ==> Meets(s, i + Copies(s, u, i) * |u|, p)
  {
    if Meets(s, i, p) {
      StopsBefore(s, u, i, p - 1);
    }
  }

  lemma MeetsNext(s: string, i: nat, p: nat)
    requires i < p
    ensures Meets(s, i, p) ==> Meets(s, i + 1, p)
  {}

  lemma CopiesOnce(s: string, u: string, i: nat)
    requires u != "" && At(s, u, i)
    ensures Copies(s, u, i) >= 1
  {}

  /** s[p..b] is a run: it has the period, and its first unit is allowed. */
  ghost predicate Run(s: string, p: nat, b: nat, size: nat, alnum: char -> bool) {
    size > 0 && p + size <= b && Period(s, p, b, size) && Allowed(s[p..p + size], alnum)
  }

  /** How much of a run the scan can lose: nothing when it tries p itself, else a unit less one character. */
  ghost function Slack(s: string, i: nat, p: nat, size: nat): (n: int)
    ensures n <= size
  {
    if Meets(s, i, p) then 0 else size - 1
  }

  lemma SlackKept(s: string, i: nat, j: nat, p: nat, size: nat)
    requires size > 0 && (Meets(s, i, p) ==> Meets(s, j, p))
    ensures Slack(s, j, p, size) <= Slack(s, i, p, size)
  {}

  /** A run between p and b is counted even when the scan jumps into it. */
  lemma {:induction false} ScanFinds(s: string, size: nat, i: nat, minReps: nat, alnum: char -> bool, best: Best,
          p: nat, b: nat, r: nat)
    requires Run(s, p, b, size, alnum) && i < p + size && p + 2 * size <= b
    requires r >= minReps && p + r * size + Slack(s, i, p, size) <= b
    ensures Scan(s, size, i, minReps, alnum, best).reps >= r
    decreases if i <= |s| then |s| - i else 0
  {
    hide Allowed, Period, Meets, Copies, Slack;
    PeriodEnd(s, p, b, size);
    var u := s[i..i + size];
    if i >= p {
      Rotated(s, p, i, b, size, alnum);
    }
    var reps := Copies(s, u, i);
    if !Allowed(u, alnum) {
      MeetsNext(s, i, p);
      SlackKept(s, i, i + 1, p, size);
      ScanFinds(s, size, i + 1, minReps, alnum, best, p, b, r);
    } else {
      CopiesOnce(s, u, i);
      Skips(reps, size);
      var stop := i + reps * size;
      if stop < p + size && i < p {
        AllowedMeets(s, i, p, u, alnum);
        SlackKept(s, i, stop, p, size);
        ScanFinds(s, size, stop, minReps, alnum, Better(best, reps, u, minReps), p, b, r);
      } else {
        Reached(s, u, i, p, b, r);
        ScanKeeps(s, size, stop, minReps, alnum, Better(best, reps, u, minReps));
      }
    }
  }

  /** Copies counted from inside the run, or from before it and into it, reach its last unit. */
  lemma Reached(s: string, u: string, i: nat, p: nat, b: nat, r: nat)
    requires u != "" && At(s, u, i) && i < p + |u| && Period(s, p, b, |u|)
    requires p + r * |u| + Slack(s, i, p, |u|) <= b
    requires i >= p || i + Copies(s, u, i) * |u| >= p + |u|
    ensures Copies(s, u, i) >= r
  {
    var w, reps := |u|, Copies(s, u, i);
    CopiesPeriodic(s, u, i);
    assert Period(s, i, b, w) by {
      forall k, m | i <= k && m == k + w < b
        ensures s[k] == s[m]
      {}
    }
    CopiesReach(s, u, i, b);
    assert r * w == (r - 1) * w + w;
    AtLeast(reps, r, w);
  }

  ghost predicate Occurs(s: string, u: string, reps: nat) {
    exists p: nat, q: nat | p <= q <= |s| :: s[p..q] == Repeat(u, reps)
  }

  /** What a report may say: nothing, or an allowed unit that occurs that often in a row. */
  ghost predicate Sound(s: string, minReps: nat, maxUnit: nat, alnum: char -> bool, best: Best) {
    best == Best(0, "")
    || (best.reps > 0 && best.reps >= minReps && 2 <= |best.unit| <= maxUnit
        && Allowed(best.unit, alnum) && Occurs(s, best.unit, best.reps))
  }

  lemma {:induction false} ScanSound(s: string, size: nat, i: nat, minReps: nat, maxUnit: nat, alnum: char -> bool,
          best: Best)
    requires 2 <= size <= maxUnit && Sound(s, minReps, maxUnit, alnum, best)
    ensures Sound(s, minReps, maxUnit, alnum, Scan(s, size, i, minReps, alnum, best))
    decreases if i <= |s| then |s| - i else 0
  {
    hide Allowed;
    if i + size < |s| {
      var u := s[i..i + size];
      if !Allowed(u, alnum) {
        ScanSound(s, size, i + 1, minReps, maxUnit, alnum, best);
      } else {
        var reps := Copies(s, u, i);
        Skips(reps, size);
        CopiesOccur(s, u, i);
        assert Occurs(s, u, reps);
        ScanSound(s, size, i + reps * size, minReps, maxUnit, alnum, Better(best, reps, u, minReps));
      }
    }
  }

  lemma {:induction false} ScanSizesSound(s: string, size: nat, minReps: nat, maxUnit: nat, alnum: char -> bool,
          best: Best)
    requires 2 <= size && Sound(s, minReps, maxUnit, alnum, best)
    ensures Sound(s, minReps, maxUnit, alnum, ScanSizes(s, size, minReps, maxUnit, alnum, best))
    decreases if size <= maxUnit then maxUnit + 1 - size else 0
  {
    if size <= maxUnit {
      ScanSound(s, size, 0, minReps, maxUnit, alnum, best);
      ScanSizesSound(s, size + 1, minReps, maxUnit, alnum, Scan(s, size, 0, minReps, alnum, best));
    }
  }

  lemma {:induction false} ScanSizesKeep(s: string, size: nat, minReps: nat, maxUnit: nat, alnum: char -> bool,
          best: Best)
    requires 2 <= size
    ensures ScanSizes(s, size, minReps, maxUnit, alnum, best).reps >= best.reps
    decreases if size <= maxUnit then maxUnit + 1 - size else 0
  {
    if size <= maxUnit {
      ScanKeeps(s, size, 0, minReps, alnum, best);
      ScanSizesKeep(s, size + 1, minReps, maxUnit, alnum, Scan(s, size, 0, minReps, alnum, best));
    }
  }

  /** The scan for a size that gets a run of that size right decides the report. */
  lemma {:induction false} SizeDecides(s: string, size: nat, minReps: nat, maxUnit: nat, alnum: char -> bool,
          best: Best, target: nat, r: nat)
    requires 2 <= size <= target <= maxUnit
    requires forall any: Best :: Scan(s, target, 0, minReps, alnum, any).reps >= r
    ensures ScanSizes(s, size, minReps, maxUnit, alnum, best).reps >= r
    decreases target - size
  {
    var next := Scan(s, size, 0, minReps, alnum, best);
    if size == target {
      ScanSizesKeep(s, size + 1, minReps, maxUnit, alnum, next);
    } else {
      SizeDecides(s, size + 1, minReps, maxUnit, alnum, next, target, r);
    }
  }

  /** Whatever is reported is there. */
  lemma ReportSound(s: string, minReps: nat, maxUnit: nat, alnum: char -> bool)
    ensures Sound(s, minReps, maxUnit, alnum, Report(s, minReps, maxUnit, alnum))
  {
    ScanSizesSound(s, 2, minReps, maxUnit, alnum, Best(0, ""));
  }

  // ---- Which runs are counted in full ------------------------------------------------------------

  /** A run long enough for what the scan can lose of it is reported as at least r copies. */
  lemma RunReported(s: string, p: nat, b: nat, size: nat, minReps: nat, maxUnit: nat, alnum: char -> bool, r: nat)
    requires Run(s, p, b, size, alnum) && 2 <= size <= maxUnit && p + 2 * size <= b
    requires r >= minReps && p + r * size + Slack(s, 0, p, size) <= b
    ensures Report(s, minReps, maxUnit, alnum).reps >= r
  {
    forall any: Best
      ensures Scan(s, size, 0, minReps, alnum, any).reps >= r
    {
      ScanFinds(s, size, 0, minReps, alnum, any, p, b, r);
    }
    SizeDecides(s, 2, minReps, maxUnit, alnum, Best(0, ""), size, r);
  }

  lemma Twice(r: nat, size: nat)
    requires r >= 2
    ensures r * size >= 2 * size
  {
    assert r * size == (r - 2) * size + 2 * size;
  }

  /** Inside a run that ends the text, the scan counts what is left of it and stops. */
  lemma ScanTail(s: string, p: nat, i: nat, size: nat, minReps: nat, alnum: char -> bool, best: Best, r: nat)
    requires Run(s, p, |s|, size, alnum) && p <= i < p + size && |s| < i + r * size && best.reps < r
    ensures Scan(s, size, i, minReps, alnum, best).reps < r
  {
    if i + size < |s| {
      var u := s[i..i + size];
      Rotated(s, p, i, |s|, size, alnum);
      var reps := Copies(s, u, i);
      CopiesPeriodic(s, u, i);
      assert Period(s, i, |s|, size);
      CopiesReach(s, u, i, |s|);
      if reps >= r {
        Arith.MulLe(r, reps, size);
      }
      Skips(reps, size);
      assert Scan(s, size, i + reps * size, minReps, alnum, Better(best, reps, u, minReps))
          == Better(best, reps, u, minReps);
    }
  }

  lemma FirstOf(s: string, u: string, j: nat)
    requires u != ""
    ensures At(s, u, j) ==> j < |s| && s[j] == u[0]
  {
    if At(s, u, j) {
      assert s[j..j + |u|][0] == s[j];
    }
  }

  /** One alphanumeric character in front of a run hides all but a character of its first unit. */
  lemma ScanMisses(t: string, size: nat, minReps: nat, alnum: char -> bool, best: Best, c: char, r: nat)
    requires Run(t, 0, |t|, size, alnum) && r >= 2 && |t| < r * size + size - 1 && best.reps < r
    requires alnum(c) && c != '\n' && c != t[size - 1]
    ensures Scan([c] + t, size, 0, minReps, alnum, best).reps < r
  {
    var s, u := [c] + t, ([c] + t)[0..size];
    if size < |s| {
      assert Run(s, 1, |s|, size, alnum) by {
        assert s[1..1 + size] == t[0..size];
        forall k, m | 1 <= k && m == k + size < |s|
          ensures s[k] == s[m]
        {
          assert t[k - 1] == t[m - 1];
        }
      }
      assert u == [c] + t[0..size][..size - 1];
      assert u[0] == c && Allowed(u, alnum);
      FirstOf(s, u, size);
      assert Copies(s, u, 0) == 1;
      ScanTail(s, 1, size, size, minReps, alnum, Better(best, 1, u, minReps), r);
    }
  }

  /** For every run on its own: the scan for its unit size counts it r times in every text if and
      only if it is at least r units and all but one character of another long. */
  lemma ScanCountsExactly(t: string, size: nat, minReps: nat, alnum: char -> bool, c: char, r: nat)
    requires Run(t, 0, |t|, size, alnum) && r >= 2 && r >= minReps
    requires alnum(c) && c != '\n' && c != t[size - 1]
    ensures (forall before: string, after: string ::
               Scan(before + t + after, size, 0, minReps, alnum, Best(0, "")).reps >= r)
            <==> |t| >= r * size + size - 1
  {
    var none := Best(0, "");
    if |t| >= r * size + size - 1 {
      forall before: string, after: string
        ensures Scan(before + t + after, size, 0, minReps, alnum, none).reps >= r
      {
        var s, p, b := before + t + after, |before|, |before| + |t|;
        assert Run(s, p, b, size, alnum) by {
          assert s[p..p + size] == t[0..size];
          forall k, m | p <= k && m == k + size < b
            ensures s[k] == s[m]
          {
            assert t[k - p] == t[m - p];
          }
        }
        Twice(r, size);
        ScanFinds(s, size, 0, minReps, alnum, none, p, b, r);
      }
    } else {
      ScanMisses(t, size, minReps, alnum, none, c, r);
      assert [c] + t + "" == [c] + t;
    }
  }

  /** Every run of that width and length, in any text, is reported as at least r copies. */
  ghost predicate AlwaysReported(size: nat, len: nat, minReps: nat, maxUnit: nat, alnum: char -> bool, r: nat) {
    forall s: string, p: nat, b: nat | Run(s, p, b, size, alnum) && b - p == len ::
      Report(s, minReps, maxUnit, alnum).reps >= r
  }

  ghost predicate Opens(s: string, p: nat) {
    p == 0 || (p <= |s| && s[p - 1] == '\n')
  }

  /** The same for the runs that open the text or a line. */
  ghost predicate OpeningReported(size: nat, len: nat, minReps: nat, maxUnit: nat, alnum: char -> bool, r: nat) {
    forall s: string, p: nat, b: nat | Run(s, p, b, size, alnum) && b - p == len && Opens(s, p) ::
      Report(s, minReps, maxUnit, alnum).reps >= r
  }

  predicate OnBeat(k: int, size: nat)
    requires size > 0
  {
    k % size == 0
  }

  /** A run with one alphanumeric character x in each unit, after pre. */
  function Sparse(pre: string, len: nat, size: nat, x: char, gap: char): (s: string)
    requires size > 0
    ensures |s| == |pre| + len
    ensures forall k | 0 <= k < |pre| :: s[k] == pre[k]
    ensures forall k | |pre| <= k < |s| :: s[k] == if OnBeat(k - |pre|, size) then x else gap
  {
    pre + seq(len, k requires k >= 0 => if OnBeat(k, size) then x else gap)
  }

  lemma BeatStep(k: int, size: nat)
    requires size > 0
    ensures OnBeat(k, size) == OnBeat(k + size, size)
  {
    Arith.ModStep(k + size, size);
  }

  /** Two beats are a unit apart or at least two. */
  lemma Beats(k: int, m: int, size: nat)
    requires size > 0 && k < m && m - k != size && OnBeat(k, size) && OnBeat(m, size)
    ensures m - k >= 2 * size
  {
    Arith.ModAlike(k, m, size);
    Arith.SecondMultiple(m - k, size);
  }

  lemma SparseRuns(pre: string, len: nat, size: nat, x: char, gap: char, alnum: char -> bool)
    requires 0 < size <= len && alnum(x) && '\n' !in [x, gap]
    ensures Run(Sparse(pre, len, size, x, gap), |pre|, |pre| + len, size, alnum)
  {
    hide Sparse;
    var s, p := Sparse(pre, len, size, x, gap), |pre|;
    assert OnBeat(0, size) && s[p..p + size][0] == x;
    hide OnBeat;
    forall k, m | p <= k && m == k + size < p + len
      ensures s[k] == s[m]
    {
      BeatStep(k - p, size);
    }
  }

  /** No other unit size repeats in it. */
  lemma SparseAlone(pre: string, len: nat, size: nat, x: char, gap: char, alnum: char -> bool, u: string, i: nat,
          r: nat)
    requires |pre| <= 1 && '\n' !in [x, gap] && !alnum(gap) && x !in pre && r >= 2
    requires size > 0 && len < r * size + size - 1 && |u| >= 2 && |u| != size && Allowed(u, alnum)
    requires At(Sparse(pre, len, size, x, gap), u, i)
    ensures Copies(Sparse(pre, len, size, x, gap), u, i) < r
  {
    hide Sparse, OnBeat;
    var s, z, d := Sparse(pre, len, size, x, gap), |u|, |pre|;
    if Copies(s, u, i) >= r {
      CopiesPeriodic(s, u, i);
      Arith.MulLe(r, Copies(s, u, i), z);
      Twice(r, z);
      var k :| 0 <= k < |u| && alnum(u[k]);
      var y, m := i + k, i + k + z;
      assert s[y] == s[i..i + z][k] == u[k] && s[m] == s[y];
      assert s[m] == x && s[y] == x;
      Beats(y - d, m - d, size);
      TooLong(r, size, z);
    }
  }

  lemma TooLong(r: nat, size: nat, z: nat)
    requires z >= 2 * size && r > 0 && size > 0
    ensures r * z >= r * size + size
  {
    Arith.MulLe(2 * size, z, r);
    assert r * (2 * size) == r * size + r * size;
    Skips(r, size);
  }

  lemma {:induction false} ScanBelow(s: string, size: nat, i: nat, minReps: nat, alnum: char -> bool, best: Best,
          r: nat)
    requires size > 0 && best.reps < r
    requires forall u: string, j: nat | |u| == size && At(s, u, j) && Allowed(u, alnum) :: Copies(s, u, j) < r
    ensures Scan(s, size, i, minReps, alnum, best).reps < r
    decreases if i <= |s| then |s| - i else 0
  {
    hide Allowed, Copies;
    if i + size < |s| {
      var u := s[i..i + size];
      if !Allowed(u, alnum) {
        ScanBelow(s, size, i + 1, minReps, alnum, best, r);
      } else {
        assert At(s, u, i);
        var reps := Copies(s, u, i);
        CopiesOnce(s, u, i);
        Skips(reps, size);
        ScanBelow(s, size, i + reps * size, minReps, alnum, Better(best, reps, u, minReps), r);
      }
    }
  }

  /** Nothing in the text repeats r times but the run, and too little of the run is left for it. */
  lemma {:induction false} SizesBelow(pre: string, len: nat, size: nat, x: char, gap: char, z: nat, minReps: nat,
          maxUnit: nat, alnum: char -> bool, best: Best, r: nat)
    requires '\n' !in [x, gap] && alnum(x) && !alnum(gap) && x !in pre && r >= 2 && best.reps < r
    requires 2 <= size <= len && z >= 2
    requires (pre == "" && len < r * size)
             || (|pre| == 1 && alnum(pre[0]) && pre[0] != '\n' && len < r * size + size - 1)
    ensures ScanSizes(Sparse(pre, len, size, x, gap), z, minReps, maxUnit, alnum, best).reps < r
    decreases if z <= maxUnit then maxUnit + 1 - z else 0
  {
    hide Scan, Allowed, Copies, Run;
    if z <= maxUnit {
      var s := Sparse(pre, len, size, x, gap);
      var next := Scan(s, z, 0, minReps, alnum, best);
      assert next.reps < r by {
        if z == size {
          SparseBelow(pre, len, size, x, gap, minReps, alnum, best, r);
        } else {
          forall u: string, j: nat | |u| == z && At(s, u, j) && Allowed(u, alnum)
            ensures Copies(s, u, j) < r
          {
            SparseAlone(pre, len, size, x, gap, alnum, u, j, r);
          }
          ScanBelow(s, z, 0, minReps, alnum, best, r);
        }
      }
      SizesBelow(pre, len, size, x, gap, z + 1, minReps, maxUnit, alnum, next, r);
    }
  }

  lemma OffBeat(size: nat)
    requires size >= 2
    ensures !OnBeat(size - 1, size)
  {
    Arith.ModSmall(size - 1, size);
  }

  lemma SparseBelow(pre: string, len: nat, size: nat, x: char, gap: char, minReps: nat, alnum: char -> bool,
          best: Best, r: nat)
    requires '\n' !in [x, gap] && alnum(x) && !alnum(gap) && x !in pre && r >= 2 && best.reps < r && 2 <= size <= len
    requires (pre == "" && len < r * size)
             || (|pre| == 1 && alnum(pre[0]) && pre[0] != '\n' && len < r * size + size - 1)
    ensures Scan(Sparse(pre, len, size, x, gap), size, 0, minReps, alnum, best).reps < r
  {
    hide Scan, Allowed, Copies, Run, Sparse, OnBeat;
    var s, t := Sparse(pre, len, size, x, gap), Sparse("", len, size, x, gap);
    SparseRuns("", len, size, x, gap, alnum);
    if pre == "" {
      ScanTail(s, 0, 0, size, minReps, alnum, best, r);
    } else {
      OffBeat(size);
      assert t[size - 1] == gap;
      assert s == [pre[0]] + t;
      ScanMisses(t, size, minReps, alnum, best, pre[0], r);
    }
  }

  /** find_loop counts r copies of every run of a width if and only if the runs are at least r units
      and all but one character of another long; r units are enough if and only if the run opens the
      text or a line. */
  lemma ReportCountsExactly(size: nat, len: nat, minReps: nat, maxUnit: nat, alnum: char -> bool, r: nat,
          x: char, c: char, gap: char)
    requires 2 <= size <= maxUnit && size <= len && r >= 2 && r >= minReps
    requires alnum(x) && alnum(c) && x != c && !alnum(gap) && '\n' !in [x, c, gap]
    ensures AlwaysReported(size, len, minReps, maxUnit, alnum, r) <==> len >= r * size + size - 1
    ensures OpeningReported(size, len, minReps, maxUnit, alnum, r) <==> len >= r * size
  {
    hide Run, Report, Sparse;
    Twice(r, size);
    if len >= r * size + size - 1 {
      forall s: string, p: nat, b: nat | Run(s, p, b, size, alnum) && b - p == len
        ensures Report(s, minReps, maxUnit, alnum).reps >= r
      {
        RunReported(s, p, b, size, minReps, maxUnit, alnum, r);
      }
    } else {
      SparseRuns([c], len, size, x, gap, alnum);
      ReportBelow([c], len, size, x, gap, minReps, maxUnit, alnum, r);
    }
    if len >= r * size {
      forall s: string, p: nat, b: nat | Run(s, p, b, size, alnum) && b - p == len && Opens(s, p)
        ensures Report(s, minReps, maxUnit, alnum).reps >= r
      {
        RunInside(s, p, b, size, alnum);
        OpeningSlack(s, p, size);
        RunReported(s, p, b, size, minReps, maxUnit, alnum, r);
      }
    } else {
      SparseRuns("", len, size, x, gap, alnum);
      assert Opens(Sparse("", len, size, x, gap), 0);
      ReportBelow("", len, size, x, gap, minReps, maxUnit, alnum, r);
    }
  }

  lemma RunInside(s: string, p: nat, b: nat, size: nat, alnum: char -> bool)
    requires Run(s, p, b, size, alnum)
    ensures p + size <= b <= |s|
  {}

  lemma OpeningSlack(s: string, p: nat, size: nat)
    requires p <= |s| && Opens(s, p)
    ensures Slack(s, 0, p, size) == 0
  {}

  lemma ReportBelow(pre: string, len: nat, size: nat, x: char, gap: char, minReps: nat, maxUnit: nat,
          alnum: char -> bool, r: nat)
    requires '\n' !in [x, gap] && alnum(x) && !alnum(gap) && x !in pre && r >= 2 && 2 <= size <= len
    requires (pre == "" && len < r * size)
             || (|pre| == 1 && alnum(pre[0]) && pre[0] != '\n' && len < r * size + size - 1)
    ensures Report(Sparse(pre, len, size, x, gap), minReps, maxUnit, alnum).reps < r
  {
    SizesBelow(pre, len, size, x, gap, 2, minReps, maxUnit, alnum, Best(0, ""), r);
  }

  /** So r copies in a row of an allowed unit are reported as at least r - 1, and as at least r when
      they open the text or a line. */
  lemma ReportComplete(s: string, minReps: nat, maxUnit: nat, alnum: char -> bool, p: nat, u: string, r: nat)
    requires 2 <= |u| <= maxUnit && Allowed(u, alnum)
    requires p + r * |u| <= |s| && s[p..p + r * |u|] == Repeat(u, r)
    requires r >= minReps
    ensures r >= minReps + 1 ==> Report(s, minReps, maxUnit, alnum).reps >= r - 1
    ensures r >= 2 && (p == 0 || s[p - 1] == '\n') ==> Report(s, minReps, maxUnit, alnum).reps >= r
  {
    if r >= 2 {
      var size, b := |u|, p + r * |u|;
      RepeatIsPeriodic(s, p, u, r);
      Twice(r, size);
      assert r * size == (r - 1) * size + size;
      if r >= minReps + 1 {
        RunReported(s, p, b, size, minReps, maxUnit, alnum, r - 1);
      }
      if p == 0 || s[p - 1] == '\n' {
        OpeningSlack(s, p, size);
        RunReported(s, p, b, size, minReps, maxUnit, alnum, r);
      }
    }
  }

  /** And two copies with min_reps = 2 are reported clean when the scan jumps past the first. */
  lemma RunMissed(alnum: char -> bool)
    requires alnum('a') && alnum('b') && alnum('x')
    ensures Repeat("ab", 2) == "abab" && "xabab"[1..5] == "abab"
    ensures Report("xabab", 2, 2, alnum) == Best(0, "")
  {
    assert Repeat("ab", 0) == "" && Repeat("ab", 1) == "ab";
    var t := "abab";
    assert t[0..2] == "ab" && "ab"[0] == 'a' && t[1] == 'b';
    assert Run(t, 0, 4, 2, alnum);
    ScanMisses(t, 2, 2, alnum, Best(0, ""), 'x', 2);
    assert ['x'] + t == "xabab";
    ReportSound("xabab", 2, 2, alnum);
  }
}
