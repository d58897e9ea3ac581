/** The dashboards by case and by host, built from the rows of a summary (eval_service/app/dashboard.py). */
module Dashboard {
  import opened Common
  import opened KeyOrder
  import opened Aggregation
  import opened StableSort

  datatype GroupBy = ByCase | ByHost

  function KeyOf(row: Evaluation, field: GroupBy): string {
    match field
    case ByCase => row.caseId
    case ByHost => row.host
  }

  /** The rows of one group, in order. */
  function RowsOf(rows: seq<Evaluation>, field: GroupBy, key: string): seq<Evaluation> {
    if rows == [] then []
    else
      var last := rows[|rows| - 1];
      RowsOf(rows[..|rows| - 1], field, key) + if KeyOf(last, field) == key then [last] else []
  }

  /** `_group_rows`. */
  method GroupRows(rows: seq<Evaluation>, field: GroupBy) returns (groups: map<string, seq<Evaluation>>)
    ensures forall key: string :: Group(groups, key) == RowsOf(rows, field, key)
    ensures forall key: string :: key in groups <==> |RowsOf(rows, field, key)| > 0
  {
    groups := map[];
    for i := 0 to |rows|
      invariant forall key: string :: Group(groups, key) == RowsOf(rows[..i], field, key)
      invariant forall key: string :: key in groups <==> |RowsOf(rows[..i], field, key)| > 0
    {
      var key := KeyOf(rows[i], field);
      assert rows[..i + 1][..i] == rows[..i];
      groups := groups[key := Group(groups, key) + [rows[i]]];
    }
    assert rows[..|rows|] == rows;
  }

  datatype Tally = Tally(passed: nat, notOk: nat, skipped: nat)

  function TallyOf(rows: seq<Evaluation>, name: CheckName): Tally {
    Tally(StatusCount(rows, name, CheckStatus.Passed), StatusCount(rows, name, NotOk), StatusCount(rows, name, Skipped))
  }

  ghost predicate Tallies(counts: map<CheckName, Tally>, rows: seq<Evaluation>) {
    forall name: CheckName :: name in counts && counts[name] == TallyOf(rows, name)
  }

  function AddTally(t: Tally, status: CheckStatus): Tally {
    match status
    case Passed => t.(passed := t.passed + 1)
    case NotOk => t.(notOk := t.notOk + 1)
    case Skipped => t.(skipped := t.skipped + 1)
  }

  lemma TallyAppend(rows: seq<Evaluation>, row: Evaluation, name: CheckName)
    ensures TallyOf(rows + [row], name) == AddTally(TallyOf(rows, name), row.checks.Get(name).status)
  {
    assert (rows + [row])[..|rows|] == rows;
  }

  /** The inner loop of `_check_counts`. */
  method CountRow(counts: map<CheckName, Tally>, row: Evaluation) returns (counts': map<CheckName, Tally>)
    requires forall name: CheckName :: name in counts
    ensures forall name: CheckName ::
              name in counts' && counts'[name] == AddTally(counts[name], row.checks.Get(name).status)
  {
    counts' := counts;
    for k := 0 to |CHECK_NAMES|
      invariant forall name: CheckName :: name in counts'
                  && counts'[name] == if Rank(name) < k then AddTally(counts[name], row.checks.Get(name).status)
                                      else counts[name]
    {
      var name := CHECK_NAMES[k];
      assert forall other: CheckName :: Rank(other) == k <==> other == name;
      counts' := counts'[name := AddTally(counts'[name], row.checks.Get(name).status)];
    }
  }

  /** `_check_counts`. */
  method CheckCounts(rows: seq<Evaluation>) returns (counts: map<CheckName, Tally>)
    ensures Tallies(counts, rows)
  {
    var none := Tally(0, 0, 0);
    counts := map[OutcomeOk := none, SafetyOk := none, PaymentBoundaryOk := none, EvidenceOk := none,
                  RecommendationsOk := none];
    forall name: CheckName
      ensures name in counts && counts[name] == none
    {
      match name
      case OutcomeOk =>
      case SafetyOk =>
      case PaymentBoundaryOk =>
      case EvidenceOk =>
      case RecommendationsOk =>
    }
    for i := 0 to |rows|
      invariant Tallies(counts, rows[..i])
    {
      assert rows[..i + 1] == rows[..i] + [rows[i]];
      forall name: CheckName
        ensures TallyOf(rows[..i + 1], name) == AddTally(TallyOf(rows[..i], name), rows[i].checks.Get(name).status)
      {
        TallyAppend(rows[..i], rows[i], name);
      }
      counts := CountRow(counts, rows[i]);
    }
    assert rows[..|rows|] == rows;
  }

  // ----- the payload

  datatype Entry = Entry(key: string, total: nat, counts: map<CheckName, Tally>, duration: Option<real>, tokens: Option<real>)

  predicate IsAscending(keys: seq<string>) {
    forall i, j | 0 <= i < j < |keys| :: TextBefore(keys[i], keys[j])
  }

  lemma {:induction false} InsertKeyAscends(keys: seq<string>, key: string)
    requires IsAscending(keys) && key !in keys
    ensures IsAscending(Insert(keys, key, TextBefore))
    ensures forall k :: k in Insert(keys, key, TextBefore) <==> k in keys || k == key
  {
    forall k
      ensures k in Insert(keys, key, TextBefore) <==> k in keys || k == key
    {
      InsertMembers(keys, key, TextBefore, k);
    }
    if keys != [] {
      var front, last := keys[..|keys| - 1], keys[|keys| - 1];
      TextsCompare(key, last);
      if TextBefore(key, last) {
        InsertKeyAscends(front, key);
        forall i | 0 <= i < |Insert(front, key, TextBefore)|
          ensures TextBefore(Insert(front, key, TextBefore)[i], last)
        {
          assert Insert(front, key, TextBefore)[i] in Insert(front, key, TextBefore);
        }
      } else {
        forall i | 0 <= i < |keys| - 1
          ensures TextBefore(keys[i], key)
        {
          TextsChain(keys[i], last, key);
        }
      }
    }
  }

  /** `sorted` on the keys of a dictionary. */
  method SortKeys(keys: set<string>) returns (sorted: seq<string>)
    ensures IsAscending(sorted) && forall k :: k in sorted <==> k in keys
  {
    var todo := keys;
    sorted := [];
    while todo != {}
      invariant todo <= keys && IsAscending(sorted) && forall k :: k in sorted <==> k in keys - todo
      decreases |todo|
    {
      var key :| key in todo;
      InsertKeyAscends(sorted, key);
      sorted, todo := Insert(sorted, key, TextBefore), todo - {key};
    }
  }

  /** An entry counts the rows of its group. */
  ghost predicate Describes(e: Entry, rows: seq<Evaluation>) {
    && e.total == |rows| && Tallies(e.counts, rows)
    && e.duration == Medians.Median(Durations(rows)) && e.tokens == Medians.Median(Tokens(rows))
  }

  /** One entry, in key order, for each key that some row has, and no other. */
  ghost predicate IsPayload(entries: seq<Entry>, rows: seq<Evaluation>, field: GroupBy) {
    && (forall i, j | 0 <= i < j < |entries| :: TextBefore(entries[i].key, entries[j].key))
    && (forall i | 0 <= i < |entries| ::
          entries[i].total > 0 && Describes(entries[i], RowsOf(rows, field, entries[i].key)))
    && (forall r | r in rows :: exists i | 0 <= i < |entries| :: entries[i].key == KeyOf(r, field))
  }

  lemma {:induction false} RowIsGrouped(rows: seq<Evaluation>, field: GroupBy, r: Evaluation)
    requires r in rows
    ensures |RowsOf(rows, field, KeyOf(r, field))| > 0
  {
    if r != rows[|rows| - 1] {
      assert r in rows[..|rows| - 1];
      RowIsGrouped(rows[..|rows| - 1], field, r);
    }
  }

  /** An entry exists for the group of every row if the entries have the keys of the groups. */
  lemma RowsHaveEntries(rows: seq<Evaluation>, field: GroupBy, keys: seq<string>, entries: seq<Entry>)
    requires |entries| == |keys| && forall i | 0 <= i < |keys| :: entries[i].key == keys[i]
    requires forall key: string | |RowsOf(rows, field, key)| > 0 :: key in keys
    ensures forall r | r in rows :: exists i | 0 <= i < |entries| :: entries[i].key == KeyOf(r, field)
  {
    forall r | r in rows
      ensures exists i | 0 <= i < |entries| :: entries[i].key == KeyOf(r, field)
    {
      RowIsGrouped(rows, field, r);
      var i :| 0 <= i < |keys| && keys[i] == KeyOf(r, field);
      assert entries[i].key == KeyOf(r, field);
    }
  }

  /** The entry of one group. */
  method BuildEntry(key: string, group: seq<Evaluation>) returns (e: Entry)
    ensures e.key == key && Describes(e, group)
  {
    var counts := CheckCounts(group);
    e := Entry(key, |group|, counts, Medians.Median(Durations(group)), Medians.Median(Tokens(group)));
  }

  /** The first entries, one for each of the first keys. */
  ghost predicate EntriesFor(entries: seq<Entry>, keys: seq<string>, rows: seq<Evaluation>, field: GroupBy) {
    && |entries| <= |keys|
    && forall n | 0 <= n < |entries| ::
         entries[n].key == keys[n] && Describes(entries[n], RowsOf(rows, field, keys[n]))
  }

  lemma EntriesAppend(entries: seq<Entry>, e: Entry, keys: seq<string>, rows: seq<Evaluation>, field: GroupBy)
    requires EntriesFor(entries, keys, rows, field) && |entries| < |keys|
    requires e.key == keys[|entries|] && Describes(e, RowsOf(rows, field, e.key))
    ensures EntriesFor(entries + [e], keys, rows, field)
  {
    forall n | 0 <= n < |entries| + 1
      ensures (entries + [e])[n].key == keys[n] && Describes((entries + [e])[n], RowsOf(rows, field, keys[n]))
    {
      if n < |entries| {
        assert (entries + [e])[n] == entries[n];
      }
    }
  }

  lemma EntriesArePayload(entries: seq<Entry>, keys: seq<string>, rows: seq<Evaluation>, field: GroupBy)
    requires EntriesFor(entries, keys, rows, field) && |entries| == |keys| && IsAscending(keys)
    requires forall key: string :: key in keys <==> |RowsOf(rows, field, key)| > 0
    ensures IsPayload(entries, rows, field)
  {
    RowsHaveEntries(rows, field, keys, entries);
    forall i | 0 <= i < |entries|
      ensures entries[i].total > 0
    {
      assert keys[i] in keys;
    }
  }

  /** The counts in `build_cases_payload` and `build_hosts_payload`. */
  method BuildPayload(rows: seq<Evaluation>, field: GroupBy) returns (entries: seq<Entry>)
    ensures IsPayload(entries, rows, field)
  {
    var groups := GroupRows(rows, field);
    var keys := SortKeys(groups.Keys);
    entries := [];
    for i := 0 to |keys|
      invariant |entries| == i && EntriesFor(entries, keys, rows, field)
    {
      var e := BuildEntry(keys[i], Group(groups, keys[i]));
      EntriesAppend(entries, e, keys, rows, field);
      entries := entries + [e];
    }
    EntriesArePayload(entries, keys, rows, field);
  }

  // ----- the dashboards add up to the summary

  function SumStatus(keys: seq<string>, rows: seq<Evaluation>, field: GroupBy, name: CheckName, status: CheckStatus): nat {
    if keys == [] then 0
    else
      SumStatus(keys[..|keys| - 1], rows, field, name, status)
      + StatusCount(RowsOf(rows, field, keys[|keys| - 1]), name, status)
  }

  lemma {:induction false} SumStatusOfNothing(keys: seq<string>, field: GroupBy, name: CheckName, status: CheckStatus)
    ensures SumStatus(keys, [], field, name, status) == 0
  {
    if keys != [] {
      SumStatusOfNothing(keys[..|keys| - 1], field, name, status);
    }
  }

  function One(row: Evaluation, name: CheckName, status: CheckStatus): nat {
    if row.checks.Get(name).status == status then 1 else 0
  }

  lemma GroupAppend(rows: seq<Evaluation>, row: Evaluation, field: GroupBy, key: string, name: CheckName, status: CheckStatus)
    ensures StatusCount(RowsOf(rows + [row], field, key), name, status)
         == StatusCount(RowsOf(rows, field, key), name, status) + if KeyOf(row, field) == key then One(row, name, status) else 0
  {
    assert (rows + [row])[..|rows|] == rows;
    var group := RowsOf(rows, field, key);
    assert (group + [row])[..|group|] == group && group + [] == group;
  }

  lemma {:induction false} SumStatusAppend(keys: seq<string>, rows: seq<Evaluation>, row: Evaluation, field: GroupBy,
                                           name: CheckName, status: CheckStatus)
    requires NoDuplicates(keys)
    ensures SumStatus(keys, rows + [row], field, name, status)
         == SumStatus(keys, rows, field, name, status) + if KeyOf(row, field) in keys then One(row, name, status) else 0
  {
    if keys != [] {
      var front, last := keys[..|keys| - 1], keys[|keys| - 1];
      SumStatusAppend(front, rows, row, field, name, status);
      GroupAppend(rows, row, field, last, name, status);
      assert keys == front + [last];
    }
  }

  /** Over keys that cover the rows, the counts of the groups sum to the counts of all rows. */
  lemma {:induction false} GroupsAddUp(keys: seq<string>, rows: seq<Evaluation>, field: GroupBy, name: CheckName, status: CheckStatus)
    requires NoDuplicates(keys) && forall r | r in rows :: KeyOf(r, field) in keys
    ensures SumStatus(keys, rows, field, name, status) == StatusCount(rows, name, status)
  {
    if rows == [] {
      SumStatusOfNothing(keys, field, name, status);
    } else {
      var front, last := rows[..|rows| - 1], rows[|rows| - 1];
      assert rows == front + [last];
      GroupsAddUp(keys, front, field, name, status);
      SumStatusAppend(keys, front, last, field, name, status);
    }
  }

  function KeysOf(entries: seq<Entry>): (keys: seq<string>)
    ensures |keys| == |entries| && forall i | 0 <= i < |keys| :: keys[i] == entries[i].key
  {
    if entries == [] then [] else KeysOf(entries[..|entries| - 1]) + [entries[|entries| - 1].key]
  }

  function Read(t: Tally, status: CheckStatus): nat {
    match status
    case Passed => t.passed
    case NotOk => t.notOk
    case Skipped => t.skipped
  }

  /** The sum of one counter over the entries. */
  function SumEntries(entries: seq<Entry>, name: CheckName, status: CheckStatus): nat {
    if entries == [] then 0
    else
      var counts := entries[|entries| - 1].counts;
      SumEntries(entries[..|entries| - 1], name, status) + if name in counts then Read(counts[name], status) else 0
  }

  lemma {:induction false} EntriesSum(entries: seq<Entry>, rows: seq<Evaluation>, field: GroupBy, name: CheckName, status: CheckStatus)
    requires forall i | 0 <= i < |entries| :: Describes(entries[i], RowsOf(rows, field, entries[i].key))
    ensures SumEntries(entries, name, status) == SumStatus(KeysOf(entries), rows, field, name, status)
  {
    if entries != [] {
      var front, last := entries[..|entries| - 1], entries[|entries| - 1];
      EntriesSum(front, rows, field, name, status);
      assert KeysOf(entries)[..|entries| - 1] == KeysOf(front);
      assert Describes(last, RowsOf(rows, field, last.key));
    }
  }

  /** Summing over the cases or over the hosts gives the counts of the summary. */
  lemma DashboardMatchesSummary(s: Summary, items: seq<Evaluation>, entries: seq<Entry>, field: GroupBy, name: CheckName)
    requires IsSummaryOf(s, items) && IsPayload(entries, s.rows, field)
    ensures name in s.checks
    ensures SumEntries(entries, name, CheckStatus.Passed) == s.checks[name].passed
    ensures SumEntries(entries, name, NotOk) == s.checks[name].notOk
    ensures SumEntries(entries, name, Skipped) == s.checks[name].skipped
  {
    var keys := KeysOf(entries);
    ChecksAddUp(items, name);
    forall i, j | 0 <= i < j < |keys|
      ensures keys[i] != keys[j]
    {
      TextsCompare(keys[i], keys[i]);
    }
    forall r | r in items
      ensures KeyOf(r, field) in keys
    {
      var i :| 0 <= i < |entries| && entries[i].key == KeyOf(r, field);
      assert keys[i] == KeyOf(r, field);
    }
    forall status: CheckStatus
      ensures SumEntries(entries, name, status) == StatusCount(items, name, status)
    {
      EntriesSum(entries, items, field, name, status);
      GroupsAddUp(keys, items, field, name, status);
    }
  }
}
