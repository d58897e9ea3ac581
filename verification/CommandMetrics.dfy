/**
 * The browser metrics of a run and their independent recount: all of
 * `_build_browser_actions_metrics_from_records` (buyer/app/runner.py) against
 * `_build_actions_summary` (eval_service/app/trace_collector.py).
 */
module CommandMetrics {
  import opened Common
  import opened CommandPairing
  import IntervalSweep

  datatype Stats = Stats(count: nat, duration: nat, errors: nat)

  const NO_STATS := Stats(0, 0, 0)

  /** The runner counts a finish without a true `ok` as an error, the collector one with `ok` false. */
  predicate FailsForRunner(r: Record) {
    r.event == Failed || r.ok != Truthy
  }

  predicate FailsForCollector(r: Record) {
    r.event == Failed || r.ok == IsFalse
  }

  /** A finish that only the runner counts as an error. */
  predicate IsDisputed(r: Record) {
    r.IsFinish() && r.event == Finished && r.ok in {Absent, Falsy}
  }

  function Add(s: Stats, r: Record, failed: bool): Stats {
    Stats(s.count + 1, s.duration + r.duration, s.errors + if failed then 1 else 0)
  }

  /** Count, duration and errors of one command. */
  function StatsOf(records: seq<Record>, command: string, fails: Record -> bool): Stats {
    if records == [] then NO_STATS
    else
      var s, last := StatsOf(records[..|records| - 1], command, fails), records[|records| - 1];
      if last.IsFinish() && last.command == command then Add(s, last, fails(last)) else s
  }

  function TotalDuration(records: seq<Record>): nat {
    if records == [] then 0
    else
      var last := records[|records| - 1];
      TotalDuration(records[..|records| - 1]) + if last.IsFinish() then last.duration else 0
  }

  function Failures(records: seq<Record>, fails: Record -> bool): nat {
    if records == [] then 0
    else
      var last := records[|records| - 1];
      Failures(records[..|records| - 1], fails) + if last.IsFinish() && fails(last) then 1 else 0
  }

  /** A dictionary in insertion order: one entry for every command that finished, with its stats. */
  datatype Breakdown = Breakdown(keys: seq<string>, stats: map<string, Stats>) {
    function Get(command: string): Stats {
      if command in stats then stats[command] else NO_STATS
    }

    function Set(command: string, s: Stats): Breakdown {
      Breakdown(if command in stats then keys else keys + [command], stats[command := s])
    }
  }

  ghost predicate Describes(b: Breakdown, records: seq<Record>, fails: Record -> bool) {
    && (forall i, j | 0 <= i < j < |b.keys| :: b.keys[i] != b.keys[j])
    && (forall c :: c in b.keys <==> c in b.stats)
    && (forall c :: c in b.stats <==> StatsOf(records, c, fails).count > 0)
    && (forall c :: b.Get(c) == StatsOf(records, c, fails))
  }

  lemma StatsAppend(records: seq<Record>, r: Record, command: string, fails: Record -> bool)
    ensures StatsOf(records + [r], command, fails)
         == if r.IsFinish() && r.command == command then Add(StatsOf(records, command, fails), r, fails(r))
            else StatsOf(records, command, fails)
  {
    assert (records + [r])[..|records|] == records;
  }

  lemma {:induction false} NoFinishNoStats(records: seq<Record>, command: string, fails: Record -> bool)
    requires StatsOf(records, command, fails).count == 0
    ensures StatsOf(records, command, fails) == NO_STATS
  {
    if records != [] {
      NoFinishNoStats(records[..|records| - 1], command, fails);
    }
  }

  /** Counting one more record. */
  lemma DescribesMore(b: Breakdown, records: seq<Record>, r: Record, fails: Record -> bool)
    requires Describes(b, records, fails)
    ensures r.IsFinish() ==> Describes(b.Set(r.command, Add(b.Get(r.command), r, fails(r))), records + [r], fails)
    ensures !r.IsFinish() ==> Describes(b, records + [r], fails)
  {
    forall c
      ensures StatsOf(records + [r], c, fails)
           == if r.IsFinish() && r.command == c then Add(StatsOf(records, c, fails), r, fails(r))
              else StatsOf(records, c, fails)
    {
      StatsAppend(records, r, c, fails);
    }
  }

  function ErrorsOver(keys: seq<string>, records: seq<Record>, fails: Record -> bool): nat {
    if keys == [] then 0
    else ErrorsOver(keys[..|keys| - 1], records, fails) + StatsOf(records, keys[|keys| - 1], fails).errors
  }

  lemma {:induction false} ErrorsOverNothing(keys: seq<string>, fails: Record -> bool)
    ensures ErrorsOver(keys, [], fails) == 0
  {
    if keys != [] {
      ErrorsOverNothing(keys[..|keys| - 1], fails);
    }
  }

  lemma {:induction false} ErrorsOverAppend(keys: seq<string>, records: seq<Record>, r: Record, fails: Record -> bool)
    requires forall i, j | 0 <= i < j < |keys| :: keys[i] != keys[j]
    ensures ErrorsOver(keys, records + [r], fails)
         == ErrorsOver(keys, records, fails) + if r.IsFinish() && r.command in keys && fails(r) then 1 else 0
  {
    if keys != [] {
      var front, last := keys[..|keys| - 1], keys[|keys| - 1];
      assert keys == front + [last];
      ErrorsOverAppend(front, records, r, fails);
      StatsAppend(records, r, last, fails);
    }
  }

  /** Summing the errors per command counts every failed finish once. */
  lemma {:induction false} ErrorsAddUp(keys: seq<string>, records: seq<Record>, fails: Record -> bool)
    requires forall i, j | 0 <= i < j < |keys| :: keys[i] != keys[j]
    requires forall r | r in records && r.IsFinish() :: r.command in keys
    ensures ErrorsOver(keys, records, fails) == Failures(records, fails)
  {
    if records == [] {
      ErrorsOverNothing(keys, fails);
    } else {
      var front, last := records[..|records| - 1], records[|records| - 1];
      assert records == front + [last];
      ErrorsAddUp(keys, front, fails);
      ErrorsOverAppend(keys, front, last, fails);
    }
  }

  lemma {:induction false} FinishIsCounted(records: seq<Record>, r: Record, fails: Record -> bool)
    requires r in records && r.IsFinish()
    ensures StatsOf(records, r.command, fails).count > 0
  {
    if r != records[|records| - 1] {
      assert r in records[..|records| - 1];
      FinishIsCounted(records[..|records| - 1], r, fails);
    }
  }

  /** `command_errors`: the errors of the breakdown, summed. */
  method SumErrors(b: Breakdown, ghost records: seq<Record>, ghost fails: Record -> bool) returns (errors: nat)
    requires Describes(b, records, fails)
    ensures errors == Failures(records, fails)
  {
    errors := 0;
    for i := 0 to |b.keys|
      invariant errors == ErrorsOver(b.keys[..i], records, fails)
    {
      assert b.keys[..i + 1][..i] == b.keys[..i];
      errors := errors + b.Get(b.keys[i]).errors;
    }
    assert b.keys[..|b.keys|] == b.keys;
    forall r | r in records && r.IsFinish()
      ensures r.command in b.keys
    {
      FinishIsCounted(records, r, fails);
    }
    ErrorsAddUp(b.keys, records, fails);
  }

  /** `_build_actions_summary`. */
  method BuildActionsSummary(records: seq<Record>) returns (duration: nat, errors: nat, breakdown: Breakdown)
    ensures duration == TotalDuration(records)
    ensures errors == Failures(records, FailsForCollector)
    ensures Describes(breakdown, records, FailsForCollector)
  {
    duration, breakdown := 0, Breakdown([], map[]);
    for i := 0 to |records|
      invariant duration == TotalDuration(records[..i]) && Describes(breakdown, records[..i], FailsForCollector)
    {
      var r := records[i];
      assert records[..i + 1] == records[..i] + [r] && (records[..i] + [r])[..i] == records[..i];
      DescribesMore(breakdown, records[..i], r, FailsForCollector);
      if r.command == "" || r.event !in {Finished, Failed} {
        continue;
      }
      breakdown := breakdown.Set(r.command, Add(breakdown.Get(r.command), r, FailsForCollector(r)));
      duration := duration + r.duration;
    }
    assert records[..|records|] == records;
    errors := SumErrors(breakdown, records, FailsForCollector);
  }

  /** The interval of a paired command, where its times are known. */
  function Timed(p: Pair): Option<IntervalSweep.Command> {
    var finished := p.finish.ts;
    var started :=
      if p.start.Some? && p.start.value.ts.Some? then p.start.value.ts
      else if finished.Some? && p.finish.duration > 0 then
        Some(if finished.value - p.finish.duration > 0 then finished.value - p.finish.duration else 0)
      else None;
    if started.Some? && finished.Some? then
      Some(IntervalSweep.Command(started.value, finished.value, IntervalSweep.Label(p.finish.command,
        if p.finish.id != "" then Some(p.finish.id) else None, p.finish.attemptId)))
    else None
  }

  function TimedAll(pairs: seq<Pair>): seq<IntervalSweep.Command> {
    if pairs == [] then []
    else
      var last := Timed(pairs[|pairs| - 1]);
      TimedAll(pairs[..|pairs| - 1]) + if last.Some? then [last.value] else []
  }

  /** What the queues, the id table and the pairs of the loop stand for. */
  lemma PairNext(records: seq<Record>, i: nat)
    requires i < |records|
    ensures PairAll(records[..i + 1]) == PairRecord(PairAll(records[..i]), records[i])
    ensures TotalDuration(records[..i + 1])
         == TotalDuration(records[..i]) + if records[i].IsFinish() then records[i].duration else 0
  {
    assert records[..i + 1][..i] == records[..i];
  }

  lemma TimedNext(pairs: seq<Pair>, p: Pair)
    ensures TimedAll(pairs + [p]) == TimedAll(pairs) + if Timed(p).Some? then [Timed(p).value] else []
  {
    assert (pairs + [p])[..|pairs|] == pairs;
  }

  /** How a finish finds its start: by id if that start still waits, else first in, first out. */
  method TakeStart(queues: map<string, seq<Record>>, byId: map<string, Record>, r: Record, ghost pairs: seq<Pair>)
    returns (start: Option<Record>, queues': map<string, seq<Record>>, byId': map<string, Record>)
    requires r.IsFinish()
    ensures Pairing(queues', byId', pairs + [Pair(start, r)]) == PairRecord(Pairing(queues, byId, pairs), r)
  {
    start, queues', byId' := None, queues, byId;
    if r.id != "" {
      start := if r.id in byId then Some(byId[r.id]) else None;
      byId' := byId - {r.id};
    }
    if r.command in queues {
      var queue := queues[r.command];
      if start.Some? && start.value in queue {
        queues' := queues[r.command := RemoveFirst(queue, start.value)];
      } else if queue != [] {
        start := Some(queue[0]);
        queues' := queues[r.command := queue[1..]];
      } else {
        assert queues[r.command := queue] == queues;
      }
    }
  }

  /** `_build_browser_actions_metrics_from_records`. */
  method BuildMetrics(records: seq<Record>)
    returns (duration: nat, errors: nat, breakdown: Breakdown, sweep: IntervalSweep.Metrics, ghost pairs: seq<Pair>)
    ensures duration == TotalDuration(records)
    ensures errors == Failures(records, FailsForRunner)
    ensures Describes(breakdown, records, FailsForRunner)
    ensures pairs == PairAll(records).pairs
    ensures IntervalSweep.Measures(sweep, TimedAll(pairs))
  {
    duration, breakdown, pairs := 0, Breakdown([], map[]), [];
    var queues: map<string, seq<Record>>, byId: map<string, Record> := map[], map[];
    var finished: seq<IntervalSweep.Command> := [];
    for i := 0 to |records|
      invariant duration == TotalDuration(records[..i]) && Describes(breakdown, records[..i], FailsForRunner)
      invariant Pairing(queues, byId, pairs) == PairAll(records[..i])
      invariant finished == TimedAll(pairs)
    {
      var r := records[i];
      PairNext(records, i);
      assert records[..i + 1] == records[..i] + [r];
      DescribesMore(breakdown, records[..i], r, FailsForRunner);
      if r.command == "" {
        continue;
      }
      if r.event == Started {
        queues := queues[r.command := (if r.command in queues then queues[r.command] else []) + [r]];
        if r.id != "" {
          byId := byId[r.id := r];
        }
      } else if r.event == Finished || r.event == Failed {
        var start;
        start, queues, byId := TakeStart(queues, byId, r, pairs);
        duration := duration + r.duration;
        breakdown := breakdown.Set(r.command, Add(breakdown.Get(r.command), r, FailsForRunner(r)));
        TimedNext(pairs, Pair(start, r));
        pairs := pairs + [Pair(start, r)];
        var command := Timed(Pair(start, r));
        if command.Some? {
          finished := finished + [command.value];
        }
      }
    }
    assert records[..|records|] == records;
    errors := SumErrors(breakdown, records, FailsForRunner);
    sweep := IntervalSweep.Sweep(finished);
  }

  // ----- where the two agree

  lemma {:induction false} StatsDiffer(records: seq<Record>, command: string)
    ensures var runner, collector := StatsOf(records, command, FailsForRunner), StatsOf(records, command, FailsForCollector);
            && runner.count == collector.count && runner.duration == collector.duration
            && runner.errors == collector.errors + DisputedOf(records, command)
  {
    if records != [] {
      StatsDiffer(records[..|records| - 1], command);
    }
  }

  function DisputedOf(records: seq<Record>, command: string): nat {
    if records == [] then 0
    else
      var last := records[|records| - 1];
      DisputedOf(records[..|records| - 1], command) + if IsDisputed(last) && last.command == command then 1 else 0
  }

  lemma {:induction false} NoDispute(records: seq<Record>, command: string)
    ensures DisputedOf(records, command) == 0 <==> forall r | r in records && r.command == command :: !IsDisputed(r)
  {
    if records != [] {
      NoDispute(records[..|records| - 1], command);
      assert records == records[..|records| - 1] + [records[|records| - 1]];
    }
  }

  lemma {:induction false} FailuresDiffer(records: seq<Record>)
    ensures Failures(records, FailsForRunner) >= Failures(records, FailsForCollector)
    ensures Failures(records, FailsForRunner) == Failures(records, FailsForCollector)
       <==> forall r | r in records :: !IsDisputed(r)
  {
    if records != [] {
      var front, last := records[..|records| - 1], records[|records| - 1];
      FailuresDiffer(front);
      assert records == front + [last] && last in records;
      assert (forall r | r in records :: !IsDisputed(r)) <==> (forall r | r in front :: !IsDisputed(r)) && !IsDisputed(last);
    }
  }

  /**
   * The runner and the collector always agree on every command's count and duration; they agree on
   * its errors if and only if none of its finishes carries an `ok` that is false without being `false`.
   */
  lemma MetricsAgree(records: seq<Record>, runner: Breakdown, collector: Breakdown)
    requires Describes(runner, records, FailsForRunner) && Describes(collector, records, FailsForCollector)
    ensures runner.stats.Keys == collector.stats.Keys
    ensures forall c | c in runner.stats :: runner.stats[c].count == collector.stats[c].count
                                         && runner.stats[c].duration == collector.stats[c].duration
    ensures runner.stats == collector.stats <==> forall r | r in records :: !IsDisputed(r)
    ensures runner.stats == collector.stats <==> Failures(records, FailsForRunner) == Failures(records, FailsForCollector)
  {
    forall c
      ensures c in runner.stats <==> c in collector.stats
      ensures c in runner.stats ==> runner.stats[c].count == collector.stats[c].count
      ensures c in runner.stats ==> runner.stats[c].duration == collector.stats[c].duration
      ensures c in runner.stats ==> (runner.stats[c] == collector.stats[c] <==> DisputedOf(records, c) == 0)
    {
      StatsDiffer(records, c);
      assert runner.Get(c) == StatsOf(records, c, FailsForRunner);
      assert collector.Get(c) == StatsOf(records, c, FailsForCollector);
    }
    FailuresDiffer(records);
    if runner.stats == collector.stats {
      forall r | r in records
        ensures !IsDisputed(r)
      {
        if IsDisputed(r) {
          FinishIsCounted(records, r, FailsForRunner);
          NoDispute(records, r.command);
        }
      }
    } else if forall r | r in records :: !IsDisputed(r) {
      forall c | c in runner.stats
        ensures runner.stats[c] == collector.stats[c]
      {
        NoDispute(records, c);
      }
    }
  }
}
