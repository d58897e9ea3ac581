/**
 * Busy and idle time of the browser (the sweep over finished commands in
 * `_build_browser_actions_metrics_from_records`, buyer/app/runner.py). Times are milliseconds.
 */
module IntervalSweep {
  import opened Common
  import opened StableSort

  datatype Label = Label(command: string, commandId: Option<string>, attemptId: Option<string>)

  /** A command's two times come from different records, so it can finish before it starts. */
  datatype Command = Command(started: int, finished: int, who: Label)

  datatype Gap = Gap(from: int, to: int, after: Label, before: Label) {
    function Duration(): int {
      to - from
    }
  }

  datatype Metrics = Metrics(busy: int, idle: int, lastFinish: Option<int>, gaps: seq<Gap>)

  // ----- sorting by start

  predicate StartsBefore(a: Command, b: Command) {
    a.started < b.started
  }

  function SortByStart(commands: seq<Command>): seq<Command> {
    Sort(commands, StartsBefore)
  }

  predicate IsSorted(commands: seq<Command>) {
    forall i, j | 0 <= i < j < |commands| :: commands[i].started <= commands[j].started
  }

  lemma SortByStartSorts(commands: seq<Command>)
    ensures IsSorted(SortByStart(commands)) && multiset(SortByStart(commands)) == multiset(commands)
  {
    SortSorts(commands, StartsBefore);
    SortPermutes(commands, StartsBefore);
    assert forall i, j | 0 <= i < j < |SortByStart(commands)| ::
        !StartsBefore(SortByStart(commands)[j], SortByStart(commands)[i]);
  }

  // ----- the measure

  /** The instants from a up to, not including, b. */
  function Range(a: int, b: int): (r: set<int>)
    ensures forall t :: t in r <==> a <= t < b
    ensures |r| == if a < b then b - a else 0
    decreases b - a
  {
    if a < b then {a} + Range(a + 1, b) else {}
  }

  /** The instants at which some command runs. */
  function Covered(commands: seq<Command>): set<int> {
    if commands == [] then {}
    else
      var last := commands[|commands| - 1];
      Covered(commands[..|commands| - 1]) + Range(last.started, last.finished)
  }

  predicate Runs(c: Command, t: int) {
    c.started <= t < c.finished
  }

  lemma {:induction false} CoveredMeans(commands: seq<Command>, t: int)
    ensures t in Covered(commands) <==> exists c :: c in commands && Runs(c, t)
  {
    if commands != [] {
      var front, last := commands[..|commands| - 1], commands[|commands| - 1];
      CoveredMeans(front, t);
      assert commands == front + [last];
      assert t in Range(last.started, last.finished) <==> Runs(last, t);
    }
  }

  lemma CoveredIgnoresOrder(a: seq<Command>, b: seq<Command>)
    requires multiset(a) == multiset(b)
    ensures Covered(a) == Covered(b)
  {
    forall t
      ensures t in Covered(a) <==> t in Covered(b)
    {
      CoveredMeans(a, t);
      CoveredMeans(b, t);
      assert forall c :: c in a <==> c in multiset(a);
      assert forall c :: c in b <==> c in multiset(b);
    }
  }

  function Max(a: int, b: int): int {
    if a < b then b else a
  }

  function MaxFinish(commands: seq<Command>): int
    requires commands != []
  {
    var last := commands[|commands| - 1];
    if |commands| == 1 then last.finished else Max(MaxFinish(commands[..|commands| - 1]), last.finished)
  }

  lemma {:induction false} MaxFinishBounds(commands: seq<Command>, k: nat)
    requires k < |commands|
    ensures commands[k].finished <= MaxFinish(commands)
  {
    if k < |commands| - 1 {
      MaxFinishBounds(commands[..|commands| - 1], k);
    }
  }

  lemma {:induction false} MaxFinishReached(commands: seq<Command>) returns (k: nat)
    requires commands != []
    ensures k < |commands| && commands[k].finished == MaxFinish(commands)
  {
    k := |commands| - 1;
    if |commands| > 1 && commands[k].finished < MaxFinish(commands) {
      k := MaxFinishReached(commands[..k]);
    }
  }

  /** A command that starts last adds what it runs after everything before it has finished. */
  lemma LastCommandAdds(front: seq<Command>, c: Command)
    requires front != [] && forall x | x in front :: x.started <= c.started
    ensures |Covered(front + [c])| == |Covered(front)| + |Range(Max(c.started, MaxFinish(front)), c.finished)|
  {
    var rest := Range(Max(c.started, MaxFinish(front)), c.finished);
    assert (front + [c])[..|front|] == front;
    var k := MaxFinishReached(front);
    forall t
      ensures t in Covered(front + [c]) <==> t in Covered(front) || t in rest
      ensures !(t in Covered(front) && t in rest)
    {
      CoveredMeans(front, t);
      if c.started <= t < MaxFinish(front) {
        assert front[k] in front && Runs(front[k], t);
      }
      if t in Covered(front) {
        var x :| x in front && Runs(x, t);
        var i :| 0 <= i < |front| && front[i] == x;
        MaxFinishBounds(front, i);
      }
    }
    assert Covered(front + [c]) == Covered(front) + rest && Covered(front) !! rest;
  }

  // ----- commands that finish before they start

  /** Sorted by start, this command opens a stretch of browser time but finishes before it starts. */
  predicate Harmful(front: seq<Command>, c: Command) {
    c.finished < c.started && (front == [] || MaxFinish(front) < c.started)
  }

  /** How much the sweep undercounts busy time. */
  function Penalty(sorted: seq<Command>): nat {
    if sorted == [] then 0
    else
      var front, last := sorted[..|sorted| - 1], sorted[|sorted| - 1];
      Penalty(front) + if Harmful(front, last) then last.started - last.finished else 0
  }

  /** Every command that finishes before it starts does so while an earlier one is still running. */
  predicate Harmless(sorted: seq<Command>) {
    forall i | 0 <= i < |sorted| :: !Harmful(sorted[..i], sorted[i])
  }

  /** How much the sweep's times exceed the span: commands that start after a gap and finish before it. */
  function Overshoot(sorted: seq<Command>): nat {
    if sorted == [] then 0
    else
      var front, last := sorted[..|sorted| - 1], sorted[|sorted| - 1];
      Overshoot(front)
      + if front != [] && last.finished < MaxFinish(front) < last.started then MaxFinish(front) - last.finished else 0
  }

  lemma HarmlessStep(front: seq<Command>, last: Command)
    ensures Harmless(front + [last]) <==> Harmless(front) && !Harmful(front, last)
  {
    var all := front + [last];
    assert forall i | 0 <= i < |front| :: all[..i] == front[..i] && all[i] == front[i];
    assert all[..|front|] == front && all[|front|] == last;
    assert Harmless(all) ==> !Harmful(all[..|front|], all[|front|]);
  }

  /** The sweep is exact if and only if no command is harmful. */
  lemma {:induction false} PenaltyIsHarm(sorted: seq<Command>)
    ensures Penalty(sorted) == 0 <==> Harmless(sorted)
    ensures Penalty(sorted) == 0 ==> Overshoot(sorted) == 0
  {
    if sorted != [] {
      var front, last := sorted[..|sorted| - 1], sorted[|sorted| - 1];
      PenaltyIsHarm(front);
      HarmlessStep(front, last);
      assert front + [last] == sorted;
    }
  }

  function GapSum(gaps: seq<Gap>): int {
    if gaps == [] then 0 else GapSum(gaps[..|gaps| - 1]) + gaps[|gaps| - 1].Duration()
  }

  /** A gap lies between the latest finish so far and the next start, and names the two commands. */
  ghost predicate IsGap(sorted: seq<Command>, g: Gap) {
    exists i, j | 0 <= i < j < |sorted| :: IsGapBetween(sorted, g, i, j)
  }

  ghost predicate IsGapBetween(sorted: seq<Command>, g: Gap, i: nat, j: nat)
    requires i < j < |sorted|
  {
    && g.from == MaxFinish(sorted[..j]) == sorted[i].finished < g.to == sorted[j].started
    && g.after == sorted[i].who && g.before == sorted[j].who
  }

  lemma FinishesBy(sorted: seq<Command>, j: nat, k: nat)
    requires k < j <= |sorted|
    ensures sorted[k].finished <= MaxFinish(sorted[..j])
  {
    MaxFinishBounds(sorted[..j], k);
  }

  /** No command runs at any instant of a reported gap. */
  lemma NothingRunsInAGap(sorted: seq<Command>, g: Gap, t: int)
    requires IsSorted(sorted) && IsGap(sorted, g) && g.from <= t < g.to
    ensures t !in Covered(sorted)
  {
    var i, j :| 0 <= i < j < |sorted| && IsGapBetween(sorted, g, i, j);
    forall k | 0 <= k < |sorted|
      ensures !Runs(sorted[k], t)
    {
      if k < j {
        FinishesBy(sorted, j, k);
      }
    }
    CoveredMeans(sorted, t);
  }

  // ----- the sweep

  /** What the loop knows after the commands of `done`. */
  ghost predicate Swept(done: seq<Command>, busy: int, idle: int, last: Option<int>) {
    && busy == |Covered(done)| - Penalty(done)
    && (done == [] ==> last == None && idle == 0)
    && (done != [] ==> last == Some(MaxFinish(done))
                       && busy + idle == MaxFinish(done) - done[0].started - Overshoot(done))
  }

  /** What one command adds to the busy time, to the idle time and to the latest finish. */
  function Busier(last: Option<int>, c: Command): int {
    if last.None? || c.started > last.value then c.finished - c.started
    else if c.finished > last.value then c.finished - last.value
    else 0
  }

  function Idler(last: Option<int>, c: Command): int {
    if last.Some? && c.started > last.value then c.started - last.value else 0
  }

  function Later(last: Option<int>, c: Command): int {
    if last.None? then c.finished else Max(last.value, c.finished)
  }

  lemma SweptFirst(c: Command)
    ensures Swept([c], c.finished - c.started, 0, Some(c.finished))
  {
    assert [c][..0] == [];
    assert Covered([c]) == Range(c.started, c.finished);
    assert Penalty([c]) == Penalty([]) + if Harmful([], c) then c.started - c.finished else 0;
    assert Overshoot([c]) == Overshoot([]);
  }

  lemma Appended(done: seq<Command>, c: Command)
    requires done != []
    ensures MaxFinish(done + [c]) == Max(MaxFinish(done), c.finished)
    ensures Penalty(done + [c]) == Penalty(done) + if Harmful(done, c) then c.started - c.finished else 0
    ensures Overshoot(done + [c]) == Overshoot(done)
              + if c.finished < MaxFinish(done) < c.started then MaxFinish(done) - c.finished else 0
  {
    assert (done + [c])[..|done|] == done && (done + [c])[|done|] == c;
  }

  lemma SweptNext(done: seq<Command>, c: Command, busy: int, idle: int, last: Option<int>)
    requires Swept(done, busy, idle, last) && forall x | x in done :: x.started <= c.started
    ensures Swept(done + [c], busy + Busier(last, c), idle + Idler(last, c), Some(Later(last, c)))
  {
    if done == [] {
      SweptFirst(c);
      assert done + [c] == [c] && |Covered(done)| == 0;
    } else {
      LastCommandAdds(done, c);
      Appended(done, c);
      assert (done + [c])[0] == done[0];
    }
  }

  lemma GapSumAppend(gaps: seq<Gap>, g: Gap)
    ensures GapSum(gaps + [g]) == GapSum(gaps) + g.Duration()
  {
    assert (gaps + [g])[..|gaps|] == gaps;
  }

  lemma FinishWithin(a: seq<Command>, b: seq<Command>)
    requires a != [] && b != [] && multiset(a) == multiset(b)
    ensures MaxFinish(a) <= MaxFinish(b)
  {
    var k := MaxFinishReached(a);
    assert a[k] in multiset(b);
    var i :| 0 <= i < |b| && b[i] == a[k];
    MaxFinishBounds(b, i);
  }

  lemma FinishIgnoresOrder(a: seq<Command>, b: seq<Command>)
    requires a != [] && b != [] && multiset(a) == multiset(b)
    ensures MaxFinish(a) == MaxFinish(b)
  {
    FinishWithin(a, b);
    FinishWithin(b, a);
  }

  /** Among the first n commands, number `at` finished last. */
  ghost predicate FinishedLast(sorted: seq<Command>, n: nat, at: nat, last: Option<int>, after: Option<Label>)
    requires n <= |sorted|
  {
    if n == 0 then last == None && after == None
    else at < n && last == Some(sorted[at].finished) == Some(MaxFinish(sorted[..n])) && after == Some(sorted[at].who)
  }

  /** What the loop knows after the first n commands. */
  ghost predicate SweptTo(sorted: seq<Command>, n: nat, busy: int, idle: int, last: Option<int>)
    requires n <= |sorted|
  {
    Swept(sorted[..n], busy, idle, last)
  }

  lemma SweptStep(sorted: seq<Command>, n: nat, busy: int, idle: int, last: Option<int>)
    requires IsSorted(sorted) && n < |sorted| && SweptTo(sorted, n, busy, idle, last)
    ensures var c := sorted[n];
            SweptTo(sorted, n + 1, busy + Busier(last, c), idle + Idler(last, c), Some(Later(last, c)))
  {
    assert sorted[..n + 1] == sorted[..n] + [sorted[n]];
    SweptNext(sorted[..n], sorted[n], busy, idle, last);
  }

  lemma MaxFinishStep(sorted: seq<Command>, n: nat)
    requires n < |sorted|
    ensures MaxFinish(sorted[..n + 1])
         == if n == 0 then sorted[0].finished else Max(MaxFinish(sorted[..n]), sorted[n].finished)
  {
    assert sorted[..n + 1][..n] == sorted[..n];
  }

  lemma FinishedLastStep(sorted: seq<Command>, n: nat, at: nat, last: Option<int>, after: Option<Label>)
    requires n < |sorted| && FinishedLast(sorted, n, at, last, after)
    ensures last.None? || sorted[n].finished >= last.value
      ==> FinishedLast(sorted, n + 1, n, Some(sorted[n].finished), Some(sorted[n].who))
    ensures last.Some? && sorted[n].finished < last.value ==> FinishedLast(sorted, n + 1, at, last, after)
  {
    MaxFinishStep(sorted, n);
  }

  lemma GapFound(sorted: seq<Command>, n: nat, at: nat, last: Option<int>, after: Option<Label>)
    requires n < |sorted| && FinishedLast(sorted, n, at, last, after) && last.Some? && sorted[n].started > last.value
    ensures after.Some? && IsGap(sorted, Gap(last.value, sorted[n].started, after.value, sorted[n].who))
  {
    assert IsGapBetween(sorted, Gap(last.value, sorted[n].started, after.value, sorted[n].who), at, n);
  }

  /** The loop over the sorted commands. */
  method SweepSorted(sorted: seq<Command>) returns (busy: int, idle: int, last: Option<int>, gaps: seq<Gap>)
    requires IsSorted(sorted)
    ensures Swept(sorted, busy, idle, last)
    ensures GapSum(gaps) == idle && forall g | g in gaps :: IsGap(sorted, g)
  {
    busy, idle, last, gaps := 0, 0, None, [];
    var after: Option<Label> := None;
    ghost var at := 0;
    for i := 0 to |sorted|
      invariant SweptTo(sorted, i, busy, idle, last) && GapSum(gaps) == idle
      invariant FinishedLast(sorted, i, at, last, after)
      invariant forall g | g in gaps :: IsGap(sorted, g)
    {
      var c := sorted[i];
      SweptStep(sorted, i, busy, idle, last);
      FinishedLastStep(sorted, i, at, last, after);
      if last.Some? && c.started > last.value {
        GapFound(sorted, i, at, last, after);
        var g := Gap(last.value, c.started, after.value, c.who);
        GapSumAppend(gaps, g);
        gaps := gaps + [g];
        idle := idle + g.Duration();
        busy := busy + (c.finished - c.started);
      } else if last.None? {
        busy := busy + (c.finished - c.started);
      } else if c.finished > last.value {
        busy := busy + (c.finished - last.value);
      }
      if last.None? || c.finished >= last.value {
        last, after, at := Some(c.finished), Some(c.who), i;
      }
    }
    assert sorted[..|sorted|] == sorted;
  }

  /**
   * Busy time is the number of instants at which some command runs, idle time is the rest of the span
   * from the first start to the last finish and the sum of the gaps; commands that finish before they
   * start are charged exactly as `Penalty` and `Overshoot` say.
   */
  ghost predicate Measures(m: Metrics, commands: seq<Command>) {
    var sorted := SortByStart(commands);
    && m.busy == |Covered(commands)| - Penalty(sorted)
    && (commands == [] ==> m.lastFinish == None && m.idle == 0)
    && (commands != [] ==>
          && m.lastFinish == Some(MaxFinish(commands)) && |sorted| > 0
          && m.busy + m.idle == MaxFinish(commands) - sorted[0].started - Overshoot(sorted))
    && GapSum(m.gaps) == m.idle
    && (forall g | g in m.gaps :: IsGap(sorted, g))
  }

  /** The sweep over the finished commands. */
  method Sweep(commands: seq<Command>) returns (m: Metrics)
    ensures Measures(m, commands)
  {
    var sorted := SortByStart(commands);
    SortByStartSorts(commands);
    CoveredIgnoresOrder(commands, sorted);
    if commands != [] {
      FinishIgnoresOrder(commands, sorted);
    }
    var busy, idle, last, gaps := SweepSorted(sorted);
    m := Metrics(busy, idle, last, gaps);
  }

  /** The sweep is exact if and only if no command is harmful. */
  lemma SweepIsExact(m: Metrics, commands: seq<Command>)
    requires Measures(m, commands)
    ensures m.busy == |Covered(commands)| <==> Harmless(SortByStart(commands))
    ensures Harmless(SortByStart(commands)) && commands != [] ==>
      |SortByStart(commands)| > 0 && m.idle == MaxFinish(commands) - SortByStart(commands)[0].started - m.busy
  {
    PenaltyIsHarm(SortByStart(commands));
  }

  lemma OrderedIsHarmless(sorted: seq<Command>)
    requires forall c | c in sorted :: c.started <= c.finished
    ensures Harmless(sorted)
  {
    assert forall i | 0 <= i < |sorted| :: sorted[i] in sorted;
  }

  lemma CoveredIsInSpan(commands: seq<Command>, first: int)
    requires commands != [] && forall c | c in commands :: first <= c.started
    ensures Covered(commands) <= Range(first, MaxFinish(commands))
  {
    forall t | t in Covered(commands)
      ensures t in Range(first, MaxFinish(commands))
    {
      CoveredMeans(commands, t);
      var c :| c in commands && Runs(c, t);
      var i :| 0 <= i < |commands| && commands[i] == c;
      MaxFinishBounds(commands, i);
    }
  }

  lemma SortedMembers(commands: seq<Command>, c: Command)
    ensures c in SortByStart(commands) <==> c in commands
  {
    SortByStartSorts(commands);
    assert c in SortByStart(commands) <==> c in multiset(SortByStart(commands));
    assert c in commands <==> c in multiset(commands);
  }

  lemma FirstStart(commands: seq<Command>, k: nat)
    requires k < |commands| && forall c | c in commands :: commands[k].started <= c.started
    ensures |SortByStart(commands)| > 0 && SortByStart(commands)[0].started == commands[k].started
  {
    var sorted := SortByStart(commands);
    SortedMembers(commands, commands[k]);
    SortByStartSorts(commands);
    var i :| 0 <= i < |sorted| && sorted[i] == commands[k];
    SortedMembers(commands, sorted[0]);
  }

  lemma UncoveredSize(commands: seq<Command>, first: int)
    requires commands != [] && forall c | c in commands :: first <= c.started <= c.finished
    ensures |Range(first, MaxFinish(commands)) - Covered(commands)|
         == MaxFinish(commands) - first - |Covered(commands)|
  {
    CoveredIsInSpan(commands, first);
    var span, covered := Range(first, MaxFinish(commands)), Covered(commands);
    assert span == (span - covered) + covered;
    assert commands[0] in commands;
    MaxFinishBounds(commands, 0);
  }

  /**
   * If every command starts before it finishes, busy time is the measure of the union of the commands
   * and idle time is the measure of the rest of the span from the first start to the last finish.
   */
  lemma BusyAndIdlePartitionTheSpan(m: Metrics, commands: seq<Command>, k: nat)
    requires Measures(m, commands) && k < |commands|
    requires forall c | c in commands :: commands[k].started <= c.started <= c.finished
    ensures m.busy == |Covered(commands)|
    ensures m.idle == |Range(commands[k].started, MaxFinish(commands)) - Covered(commands)|
  {
    forall c | c in SortByStart(commands)
      ensures c.started <= c.finished
    {
      SortedMembers(commands, c);
    }
    OrderedIsHarmless(SortByStart(commands));
    SweepIsExact(m, commands);
    FirstStart(commands, k);
    UncoveredSize(commands, commands[k].started);
  }
}
