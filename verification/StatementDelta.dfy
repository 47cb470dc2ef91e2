/**
 The difference of two snapshots of database statement counters. It is complete only when nothing was
 reset, evicted, truncated, repeated or lost between them, and only then does it report totals.
 */
module StatementDelta {
  import opened Common

  datatype Identity = Identity(userId: string, queryId: string, topLevel: bool)

  datatype Counters = Counters(calls: int, rows: int, walBytes: int, execTime: real)

  datatype Entry = Entry(identity: Identity, counters: Counters, statsSince: string, query: string)

  datatype Snapshot = Snapshot(statsReset: string, deallocations: int, entryCount: int, entries: seq<Entry>)

  datatype Row = Row(delta: Counters, identity: Identity, query: string)

  /** Which of the reported reasons there are for calling a delta incomplete. */
  datatype Reasons = Reasons(
    sharedStatisticsReset: bool, sharedStatisticsEviction: bool, queryEntryLimitExceeded: bool,
    duplicateQueryIdentity: bool, queryEntriesDisappeared: bool, queryStatisticsReset: bool,
      queryCountersDecreased: bool)

  datatype Report = Report(complete: bool, reasons: Reasons, totals: Option<Counters>, entries: seq<Row>)

  const ZERO := Counters(0, 0, 0, 0.0)

  function Plus(a: Counters, b: Counters): Counters {
    Counters(a.calls + b.calls, a.rows + b.rows, a.walBytes + b.walBytes, a.execTime + b.execTime)
  }

  function Minus(a: Counters, b: Counters): Counters {
    Counters(a.calls - b.calls, a.rows - b.rows, a.walBytes - b.walBytes, a.execTime - b.execTime)
  }

  predicate Decreased(delta: Counters) {
    delta.calls < 0 || delta.rows < 0 || delta.walBytes < 0 || delta.execTime < 0.0
  }

  /** The entries by identity; a repeated identity keeps its last entry. */
  function Keyed(entries: seq<Entry>): map<Identity, Entry> {
    if entries == [] then map[]
    else Keyed(entries[..|entries| - 1])[entries[|entries| - 1].identity := entries[|entries| - 1]]
  }

  /** The identities in the order in which they first occur. */
  function Order(entries: seq<Entry>): seq<Identity> {
    if entries == [] then []
    else
      var front, last := entries[..|entries| - 1], entries[|entries| - 1].identity;
      Order(front) + (if last in Keyed(front) then [] else [last])
  }

  function CountersOf(m: map<Identity, Entry>, identity: Identity): Counters {
    if identity in m then m[identity].counters else ZERO
  }

  function DeltaOf(prior: map<Identity, Entry>, entry: Entry): Counters {
    Minus(entry.counters, CountersOf(prior, entry.identity))
  }

  /** The rows of the statements whose counters moved. */
  function RowsOf(prior: map<Identity, Entry>, current: map<Identity, Entry>, order: seq<Identity>): seq<Row>
    requires forall identity <- order :: identity in current
  {
    if order == [] then []
    else
      var front, entry := order[..|order| - 1], current[order[|order| - 1]];
      RowsOf(prior, current, front) +
      (if DeltaOf(prior, entry) == ZERO then [] else [Row(DeltaOf(prior, entry), entry.identity, entry.query)])
  }

  function InsertByTime(sorted: seq<Row>, row: Row): seq<Row> {
    if sorted == [] || sorted[|sorted| - 1].delta.execTime >= row.delta.execTime then sorted + [row]
    else InsertByTime(sorted[..|sorted| - 1], row) + [sorted[|sorted| - 1]]
  }

  /** A stable sort, the longest total time first. */
  function SortByTime(rows: seq<Row>): seq<Row> {
    if rows == [] then [] else InsertByTime(SortByTime(rows[..|rows| - 1]), rows[|rows| - 1])
  }

  function SumRows(rows: seq<Row>): Counters {
    if rows == [] then ZERO else Plus(SumRows(rows[..|rows| - 1]), rows[|rows| - 1].delta)
  }

  /** The sum of the counters of a snapshot, as the database reports them. */
  function SumEntries(entries: seq<Entry>): Counters {
    if entries == [] then ZERO else Plus(SumEntries(entries[..|entries| - 1]), entries[|entries| - 1].counters)
  }

  // ----- When a delta is complete -----

  ghost predicate DistinctIdentities(entries: seq<Entry>) {
    forall i, j | 0 <= i < j < |entries| :: entries[i].identity != entries[j].identity
  }

  /** What went wrong between two snapshots, stated on the snapshots. */
  ghost function Trouble(before: Snapshot, after: Snapshot): Reasons {
    var prior, current := Keyed(before.entries), Keyed(after.entries);
    Reasons(
      before.statsReset != after.statsReset,
      before.deallocations != after.deallocations,
      before.entryCount != |before.entries| || after.entryCount != |after.entries|,
      !DistinctIdentities(before.entries) || !DistinctIdentities(after.entries),
      exists identity <- prior :: identity !in current,
      exists identity <- current :: identity in prior && prior[identity].statsSince != current[identity].statsSince,
      exists identity <- current :: Decreased(DeltaOf(prior, current[identity])))
  }

  ghost predicate Complete(before: Snapshot, after: Snapshot) {
    Trouble(before, after) == Reasons(false, false, false, false, false, false, false)
  }

  lemma {:induction false} KeyedHas(entries: seq<Entry>, identity: Identity)
    ensures identity in Keyed(entries) <==> exists i | 0 <= i < |entries| :: entries[i].identity == identity
    ensures identity in Keyed(entries) ==> Keyed(entries)[identity].identity == identity
  {
    if entries != [] {
      var front, last := entries[..|entries| - 1], entries[|entries| - 1];
      KeyedHas(front, identity);
      if identity in Keyed(front) {
        var i :| 0 <= i < |front| && front[i].identity == identity;
        assert entries[i].identity == identity;
      } else if last.identity != identity {
        forall i | 0 <= i < |entries|
          ensures entries[i].identity != identity
        {
          assert i < |front| ==> front[i] == entries[i];
        }
      }
    }
  }

  /** The dictionary is as long as the list exactly when no identity is repeated. */
  lemma {:induction false} KeyedSize(entries: seq<Entry>)
    ensures |Keyed(entries)| <= |entries|
    ensures |Keyed(entries)| == |entries| <==> DistinctIdentities(entries)
  {
    if entries != [] {
      var front, last := entries[..|entries| - 1], entries[|entries| - 1];
      KeyedSize(front);
      KeyedHas(front, last.identity);
      assert Keyed(entries).Keys == Keyed(front).Keys + {last.identity};
      DistinctSplits(entries);
    }
  }

  lemma DistinctSplits(entries: seq<Entry>)
    requires entries != []
    ensures var front, last := entries[..|entries| - 1], entries[|entries| - 1];
      DistinctIdentities(entries) <==>
      DistinctIdentities(front) && forall i | 0 <= i < |front| :: front[i].identity != last.identity
  {
    var front := entries[..|entries| - 1];
    assert forall i | 0 <= i < |front| :: front[i] == entries[i];
  }

  /** Without a repetition the keys come out in list order, each once. */
  lemma {:induction false} OrderOfDistinct(entries: seq<Entry>)
    requires DistinctIdentities(entries)
    ensures |Order(entries)| == |entries|
    ensures forall i | 0 <= i < |entries| ::
      Order(entries)[i] == entries[i].identity && entries[i].identity in Keyed(entries) &&
      Keyed(entries)[entries[i].identity] == entries[i]
  {
    if entries != [] {
      DistinctSplits(entries);
      var front, last := entries[..|entries| - 1], entries[|entries| - 1];
      OrderOfDistinct(front);
      KeyedHas(front, last.identity);
      assert forall i | 0 <= i < |front| :: front[i] == entries[i];
    }
  }

  lemma {:induction false} OrderIsKeys(entries: seq<Entry>)
    ensures forall identity <- Order(entries) :: identity in Keyed(entries)
    ensures forall identity <- Keyed(entries) :: identity in Order(entries)
  {
    if entries != [] {
      OrderIsKeys(entries[..|entries| - 1]);
    }
  }

  // ----- Totals -----

  lemma {:induction false} InsertKeepsSum(sorted: seq<Row>, row: Row)
    ensures SumRows(InsertByTime(sorted, row)) == Plus(SumRows(sorted), row.delta)
  {
    if sorted == [] || sorted[|sorted| - 1].delta.execTime >= row.delta.execTime {
      assert (sorted + [row])[..|sorted|] == sorted;
    } else {
      var front := sorted[..|sorted| - 1];
      InsertKeepsSum(front, row);
      var longer := InsertByTime(front, row) + [sorted[|sorted| - 1]];
      assert longer[..|longer| - 1] == InsertByTime(front, row);
    }
  }

  lemma {:induction false} SortKeepsSum(rows: seq<Row>)
    ensures SumRows(SortByTime(rows)) == SumRows(rows)
  {
    if rows != [] {
      SortKeepsSum(rows[..|rows| - 1]);
      InsertKeepsSum(SortByTime(rows[..|rows| - 1]), rows[|rows| - 1]);
    }
  }

  /** The sum over a list of identities of what a dictionary has for them. */
  function SumOver(m: map<Identity, Entry>, order: seq<Identity>): Counters {
    if order == [] then ZERO
    else Plus(SumOver(m, order[..|order| - 1]), CountersOf(m, order[|order| - 1]))
  }

  lemma {:induction false} RowsAddUp(prior: map<Identity, Entry>, current: map<Identity, Entry>, order: seq<Identity>)
    requires forall identity <- order :: identity in current && current[identity].identity == identity
    ensures SumRows(RowsOf(prior, current, order)) == Minus(SumOver(current, order), SumOver(prior, order))
  {
    if order != [] {
      var front, last := order[..|order| - 1], order[|order| - 1];
      assert last in order;
      RowsAddUp(prior, current, front);
      var entry := current[last];
      AppendRow(RowsOf(prior, current, front), Row(DeltaOf(prior, entry), entry.identity, entry.query));
      Rearrange(SumOver(current, front), entry.counters, SumOver(prior, front), CountersOf(prior, last));
    }
  }

  lemma AppendRow(rows: seq<Row>, row: Row)
    ensures SumRows(rows + (if row.delta == ZERO then [] else [row])) == Plus(SumRows(rows), row.delta)
  {
    assert (rows + [row])[..|rows|] == rows;
    assert rows + [] == rows;
  }

  lemma Rearrange(a: Counters, b: Counters, c: Counters, d: Counters)
    ensures Plus(Minus(a, c), Minus(b, d)) == Minus(Plus(a, b), Plus(c, d))
  {
  }

  ghost predicate DistinctOrder(order: seq<Identity>) {
    forall i, j | 0 <= i < j < |order| :: order[i] != order[j]
  }

  /** Binding one more identity, which the list names once, adds its counters once. */
  lemma {:induction false} SumOverAdds(m: map<Identity, Entry>, entry: Entry, order: seq<Identity>)
    requires DistinctOrder(order) && entry.identity !in m
    ensures SumOver(m[entry.identity := entry], order) ==
            if entry.identity in order then Plus(SumOver(m, order), entry.counters) else SumOver(m, order)
  {
    if order != [] {
      var front, last := order[..|order| - 1], order[|order| - 1];
      SumOverAdds(m, entry, front);
      FrontAndLast(order);
      assert entry.identity == last ==> entry.identity !in front;
      PlusMoves(SumOver(m, front), entry.counters, CountersOf(m, last));
    }
  }

  lemma PlusMoves(a: Counters, b: Counters, c: Counters)
    ensures Plus(Plus(a, b), c) == Plus(Plus(a, c), b)
    ensures c == ZERO ==> Plus(a, c) == a
  {
  }

  lemma {:induction false} SumOverNothing(order: seq<Identity>)
    ensures SumOver(map[], order) == ZERO
  {
    if order != [] {
      SumOverNothing(order[..|order| - 1]);
    }
  }

  /** Summing a snapshot's counters over any list that names each of its identities once gives its total. */
  lemma {:induction false} SumOverIsTotal(entries: seq<Entry>, order: seq<Identity>)
    requires DistinctIdentities(entries) && DistinctOrder(order)
    requires forall i | 0 <= i < |entries| :: entries[i].identity in order
    ensures SumOver(Keyed(entries), order) == SumEntries(entries)
  {
    if entries == [] {
      SumOverNothing(order);
    } else {
      var front, last := entries[..|entries| - 1], entries[|entries| - 1];
      DistinctSplits(entries);
      assert forall i | 0 <= i < |front| :: front[i] == entries[i];
      SumOverIsTotal(front, order);
      KeyedHas(front, last.identity);
      SumOverAdds(Keyed(front), last, order);
    }
  }

  /** The rows of a complete delta add up to the second snapshot's total minus the first's. */
  lemma CompleteTotals(before: Snapshot, after: Snapshot)
    requires Complete(before, after)
    ensures forall identity <- Order(after.entries) :: identity in Keyed(after.entries)
    ensures SumRows(SortByTime(RowsOf(Keyed(before.entries), Keyed(after.entries), Order(after.entries)))) ==
            Minus(SumEntries(after.entries), SumEntries(before.entries))
  {
    var prior, current, order := Keyed(before.entries), Keyed(after.entries), Order(after.entries);
    OrderIsKeys(after.entries);
    OrderOfDistinct(after.entries);
    forall identity | identity in order
      ensures current[identity].identity == identity
    {
      KeyedHas(after.entries, identity);
    }
    SortKeepsSum(RowsOf(prior, current, order));
    RowsAddUp(prior, current, order);
    forall i | 0 <= i < |after.entries|
      ensures after.entries[i].identity in order
    {
      assert order[i] == after.entries[i].identity;
    }
    SumOverIsTotal(after.entries, order);
    forall i | 0 <= i < |before.entries|
      ensures before.entries[i].identity in order
    {
      KeyedHas(before.entries, before.entries[i].identity);
    }
    SumOverIsTotal(before.entries, order);
  }

  // ----- The report -----

  method StatementDelta(before: Snapshot, after: Snapshot) returns (report: Report)
    ensures report.reasons == Trouble(before, after)
    ensures report.complete <==> Complete(before, after)
    ensures report.totals ==
      if report.complete then Some(Minus(SumEntries(after.entries), SumEntries(before.entries))) else None
    ensures forall identity <- Order(after.entries) :: identity in Keyed(after.entries)
    ensures report.entries == SortByTime(RowsOf(Keyed(before.entries), Keyed(after.entries), Order(after.entries)))
  {
    var prior, current, order := Keyed(before.entries), Keyed(after.entries), Order(after.entries);
    OrderIsKeys(after.entries);
    KeyedSize(before.entries);
    KeyedSize(after.entries);
    var reset, decreased, rows := MovedRows(prior, current, order);
    var reasons := Reasons(
      before.statsReset != after.statsReset,
      before.deallocations != after.deallocations,
      before.entryCount != |before.entries| || after.entryCount != |after.entries|,
      |prior| != |before.entries| || |current| != |after.entries|,
      exists identity <- prior :: identity !in current,
      reset, decreased);
    var complete := reasons == Reasons(false, false, false, false, false, false, false);
    if complete {
      CompleteTotals(before, after);
    }
    rows := SortByTime(rows);
    return Report(complete, reasons, if complete then Some(SumRows(rows)) else None, rows);
  }

  predicate WasReset(prior: map<Identity, Entry>, current: map<Identity, Entry>, identity: Identity)
    requires identity in current
  {
    identity in prior && prior[identity].statsSince != current[identity].statsSince
  }

  function AnyReset(prior: map<Identity, Entry>, current: map<Identity, Entry>, order: seq<Identity>): (any: bool)
    requires forall identity <- order :: identity in current
    ensures any <==> exists i :: 0 <= i < |order| && WasReset(prior, current, order[i])
  {
    order != [] &&
    (AnyReset(prior, current, order[..|order| - 1]) || WasReset(prior, current, order[|order| - 1]))
  }

  function AnyDecreased(prior: map<Identity, Entry>, current: map<Identity, Entry>, order: seq<Identity>): (any: bool)
    requires forall identity <- order :: identity in current
    ensures any <==> exists i :: 0 <= i < |order| && Decreased(DeltaOf(prior, current[order[i]]))
  {
    order != [] &&
    (AnyDecreased(prior, current, order[..|order| - 1]) || Decreased(DeltaOf(prior, current[order[|order| - 1]])))
  }

  /** The loop over the current statements. */
  method MovedRows(prior: map<Identity, Entry>, current: map<Identity, Entry>, order: seq<Identity>)
    returns (reset: bool, decreased: bool, rows: seq<Row>)
    requires forall identity <- order :: identity in current
    ensures rows == RowsOf(prior, current, order)
    ensures reset == AnyReset(prior, current, order)
    ensures decreased == AnyDecreased(prior, current, order)
  {
    reset, decreased := false, false;
    rows := [];
    for k := 0 to |order|
      invariant rows == RowsOf(prior, current, order[..k])
      invariant reset == AnyReset(prior, current, order[..k])
      invariant decreased == AnyDecreased(prior, current, order[..k])
    {
      var entry := current[order[k]];
      assert order[..k + 1][..k] == order[..k];
      if order[k] in prior && prior[order[k]].statsSince != entry.statsSince {
        reset := true;
      }
      var delta := DeltaOf(prior, entry);
      if Decreased(delta) {
        decreased := true;
      }
      if delta != ZERO {
        rows := rows + [Row(delta, entry.identity, entry.query)];
      }
    }
    assert order[..|order|] == order;
  }

  // ----- Complete deltas compose -----

  lemma NotHeld(before: Snapshot, after: Snapshot)
    requires Complete(before, after)
    ensures before.statsReset == after.statsReset && before.deallocations == after.deallocations
    ensures before.entryCount == |before.entries| && after.entryCount == |after.entries|
    ensures DistinctIdentities(before.entries) && DistinctIdentities(after.entries)
    ensures var prior, current := Keyed(before.entries), Keyed(after.entries);
      && (forall identity <- prior :: identity in current && prior[identity].statsSince == current[identity].statsSince)
      && (forall identity <- current :: !Decreased(DeltaOf(prior, current[identity])))
  {
  }

  /** Two complete deltas in a row make a complete delta over both, whose totals are the sums of theirs. */
  lemma CompleteDeltasCompose(a: Snapshot, b: Snapshot, c: Snapshot)
    requires Complete(a, b) && Complete(b, c)
    ensures Complete(a, c)
    ensures Minus(SumEntries(c.entries), SumEntries(a.entries)) ==
            Plus(Minus(SumEntries(b.entries), SumEntries(a.entries)),
              Minus(SumEntries(c.entries), SumEntries(b.entries)))
  {
    NotHeld(a, b);
    NotHeld(b, c);
    forall identity | identity in Keyed(c.entries)
      ensures !Decreased(DeltaOf(Keyed(a.entries), Keyed(c.entries)[identity]))
    {
      KeyedHas(c.entries, identity);
      if identity in Keyed(b.entries) {
        KeyedHas(b.entries, identity);
      }
    }
    forall identity | identity in Keyed(a.entries)
      ensures identity in Keyed(c.entries) &&
        Keyed(a.entries)[identity].statsSince == Keyed(c.entries)[identity].statsSince
    {
      assert identity in Keyed(b.entries);
    }
  }

  /** The report lists the statements whose counters moved, the longest total time first, and no other. */
  lemma {:induction false} RowsAreTheMoved(
    prior: map<Identity, Entry>, current: map<Identity, Entry>, order: seq<Identity>, row: Row)
    requires forall identity <- order :: identity in current && current[identity].identity == identity
    ensures row in SortByTime(RowsOf(prior, current, order)) <==>
      row.identity in order && row.delta == DeltaOf(prior, current[row.identity]) && row.delta != ZERO &&
      row.query == current[row.identity].query
  {
    SortKeepsRows(RowsOf(prior, current, order), row);
    if order != [] {
      var front, last := order[..|order| - 1], order[|order| - 1];
      FrontAndLast(order);
      RowsAreTheMoved(prior, current, front, row);
      SortKeepsRows(RowsOf(prior, current, front), row);
    }
  }

  lemma {:induction false} SortKeepsRows(rows: seq<Row>, row: Row)
    ensures row in SortByTime(rows) <==> row in rows
  {
    if rows != [] {
      var front, last := rows[..|rows| - 1], rows[|rows| - 1];
      FrontAndLast(rows);
      SortKeepsRows(front, row);
      InsertKeepsRows(SortByTime(front), last, row);
    }
  }

  lemma {:induction false} InsertKeepsRows(sorted: seq<Row>, added: Row, row: Row)
    ensures row in InsertByTime(sorted, added) <==> row in sorted || row == added
  {
    if sorted != [] {
      assert sorted == sorted[..|sorted| - 1] + [sorted[|sorted| - 1]];
      InsertKeepsRows(sorted[..|sorted| - 1], added, row);
    }
  }

  /** The rows of one total time, in order. */
  function AtTime(rows: seq<Row>, time: real): seq<Row> {
    if rows == [] then []
    else AtTime(rows[..|rows| - 1], time) + (if rows[|rows| - 1].delta.execTime == time then [rows[|rows| - 1]] else [])
  }

  lemma AtTimeAppends(rows: seq<Row>, row: Row, time: real)
    ensures AtTime(rows + [row], time) == AtTime(rows, time) + (if row.delta.execTime == time then [row] else [])
  {
    assert (rows + [row])[..|rows|] == rows;
  }

  /** The sort keeps rows of one total time in their order. */
  lemma {:induction false} SortIsStable(rows: seq<Row>, time: real)
    ensures AtTime(SortByTime(rows), time) == AtTime(rows, time)
  {
    if rows != [] {
      SortIsStable(rows[..|rows| - 1], time);
      InsertIsStable(SortByTime(rows[..|rows| - 1]), rows[|rows| - 1], time);
    }
  }

  lemma {:induction false} InsertIsStable(sorted: seq<Row>, row: Row, time: real)
    ensures AtTime(InsertByTime(sorted, row), time) ==
            AtTime(sorted, time) + (if row.delta.execTime == time then [row] else [])
  {
    if sorted == [] || sorted[|sorted| - 1].delta.execTime >= row.delta.execTime {
      AtTimeAppends(sorted, row, time);
    } else {
      var front, last := sorted[..|sorted| - 1], sorted[|sorted| - 1];
      InsertIsStable(front, row, time);
      AtTimeAppends(InsertByTime(front, row), last, time);
    }
  }

  /** The sort keeps every row as often as it occurs. */
  lemma {:induction false} SortKeepsEach(rows: seq<Row>)
    ensures multiset(SortByTime(rows)) == multiset(rows)
  {
    if rows != [] {
      var front, last := rows[..|rows| - 1], rows[|rows| - 1];
      FrontAndLast(rows);
      SortKeepsEach(front);
      InsertKeepsEach(SortByTime(front), last);
    }
  }

  lemma {:induction false} InsertKeepsEach(sorted: seq<Row>, row: Row)
    ensures multiset(InsertByTime(sorted, row)) == multiset(sorted) + multiset{row}
  {
    if sorted != [] {
      var front, last := sorted[..|sorted| - 1], sorted[|sorted| - 1];
      FrontAndLast(sorted);
      InsertKeepsEach(front, row);
    }
  }

  ghost predicate Descending(rows: seq<Row>) {
    forall i, j | 0 <= i < j < |rows| :: rows[i].delta.execTime >= rows[j].delta.execTime
  }

  lemma {:induction false} SortDescends(rows: seq<Row>)
    ensures Descending(SortByTime(rows)) && |SortByTime(rows)| == |rows|
  {
    if rows != [] {
      SortDescends(rows[..|rows| - 1]);
      InsertDescends(SortByTime(rows[..|rows| - 1]), rows[|rows| - 1]);
    }
  }

  lemma {:induction false} InsertDescends(sorted: seq<Row>, row: Row)
    requires Descending(sorted)
    ensures Descending(InsertByTime(sorted, row)) && |InsertByTime(sorted, row)| == |sorted| + 1
  {
    if sorted != [] && sorted[|sorted| - 1].delta.execTime < row.delta.execTime {
      var front, last := sorted[..|sorted| - 1], sorted[|sorted| - 1];
      InsertDescends(front, row);
      forall i | 0 <= i < |InsertByTime(front, row)|
        ensures InsertByTime(front, row)[i].delta.execTime >= last.delta.execTime
      {
        InsertKeepsRows(front, row, InsertByTime(front, row)[i]);
      }
    }
  }
}
