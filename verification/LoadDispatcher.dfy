/**
 The open-loop dispatcher of the load generator. Requests complete in any order and at any poll; an
 arrival is sent, dropped for lateness, or dropped because every submitter is busy, and is never retried.
 */
module LoadDispatcher {
  import opened Common

  datatype Kind = Accepted | HttpError | Uncertain

  /** How a submission ends: with one of the result kinds, or with an exception that aborts the run. */
  datatype Completion = Returned(kind: Kind, latency: real) | Raised

  datatype Row = Row(index: nat, kind: Kind, latency: real)

  /** Which of the submissions have finished when the dispatcher looks, and how. */
  type Poll = map<nat, Completion>

  /** One arrival: the health check, the polls while waiting for it, the last poll, and how late it is taken up. */
  datatype Turn = Turn(healthy: bool, waits: seq<Poll>, last: Poll, delay: real)

  datatype Ending = Finished | Aborted | StillPending

  function Indices(journal: seq<Row>): set<nat> {
    if journal == [] then {} else Indices(journal[..|journal| - 1]) + {journal[|journal| - 1].index}
  }

  function Members(indices: seq<nat>): set<nat> {
    if indices == [] then {} else Members(indices[..|indices| - 1]) + {indices[|indices| - 1]}
  }

  function KindCount(journal: seq<Row>, kind: Kind): nat {
    if journal == [] then 0
    else KindCount(journal[..|journal| - 1], kind) + (if journal[|journal| - 1].kind == kind then 1 else 0)
  }

  function Latencies(journal: seq<Row>): (latencies: seq<real>)
    ensures |latencies| == |journal|
  {
    seq(|journal|, i requires 0 <= i < |journal| => journal[i].latency)
  }

  predicate Increasing(indices: seq<nat>) {
    forall i, j | 0 <= i < j < |indices| :: indices[i] < indices[j]
  }

  lemma {:induction false} KindsPartition(journal: seq<Row>)
    ensures KindCount(journal, Accepted) + KindCount(journal, HttpError) + KindCount(journal, Uncertain) == |journal|
  {
    if journal != [] {
      KindsPartition(journal[..|journal| - 1]);
    }
  }

  lemma {:induction false} MembersAreIn(indices: seq<nat>, i: nat)
    ensures i in Members(indices) <==> i in indices
  {
    if indices != [] {
      MembersAreIn(indices[..|indices| - 1], i);
    }
  }

  lemma {:induction false} IncreasingMembers(indices: seq<nat>)
    requires Increasing(indices)
    ensures |Members(indices)| == |indices|
  {
    if indices != [] {
      var front, last := indices[..|indices| - 1], indices[|indices| - 1];
      IncreasingMembers(front);
      MembersAreIn(front, last);
    }
  }

  // ----- The conservation laws, on values -----

  datatype Counters = Counters(
    offered: nat, sent: nat, accepted: nat, httpError: nat, uncertain: nat,
    droppedCapacity: nat, droppedLate: nat, maxInFlight: nat)

  /** What every loop point keeps of the counters. */
  ghost predicate Balanced(c: Counters, inFlight: nat, submitters: nat) {
    && c.offered == c.sent + c.droppedLate + c.droppedCapacity
    && c.sent == c.accepted + c.httpError + c.uncertain + inFlight
    && inFlight <= c.maxInFlight <= submitters
  }

  ghost predicate Tallied(c: Counters, journal: seq<Row>) {
    && c.accepted == KindCount(journal, Accepted)
    && c.httpError == KindCount(journal, HttpError)
    && c.uncertain == KindCount(journal, Uncertain)
  }

  /** Every submission is in exactly one place: pending, or in one row of the journal. */
  ghost predicate Placed(pending: set<nat>, journal: seq<Row>, submitted: seq<nat>, offered: nat) {
    && Increasing(submitted) && (forall k | 0 <= k < |submitted| :: submitted[k] < offered)
    && pending !! Indices(journal) && pending + Indices(journal) == Members(submitted)
    && |Indices(journal)| == |journal|
  }

  function Counted(c: Counters, kind: Kind): Counters {
    match kind
    case Accepted => c.(accepted := c.accepted + 1)
    case HttpError => c.(httpError := c.httpError + 1)
    case Uncertain => c.(uncertain := c.uncertain + 1)
  }

  lemma RecordKeepsPlaces(pending: set<nat>, journal: seq<Row>, submitted: seq<nat>, offered: nat, row: Row)
    requires Placed(pending, journal, submitted, offered) && row.index in pending
    ensures Placed(pending - {row.index}, journal + [row], submitted, offered)
    ensures Latencies(journal + [row]) == Latencies(journal) + [row.latency]
  {
    assert (journal + [row])[..|journal|] == journal;
    assert row.index !in Indices(journal);
  }

  lemma RecordKeepsTally(c: Counters, journal: seq<Row>, row: Row)
    requires Tallied(c, journal)
    ensures Tallied(Counted(c, row.kind), journal + [row])
  {
    assert (journal + [row])[..|journal|] == journal;
  }

  lemma SendKeepsPlaces(pending: set<nat>, journal: seq<Row>, submitted: seq<nat>, offered: nat)
    requires Placed(pending, journal, submitted, offered)
    ensures offered !in pending && Placed(pending + {offered}, journal, submitted + [offered], offered + 1)
  {
    assert (submitted + [offered])[..|submitted|] == submitted;
    MembersAreIn(submitted, offered);
  }

  /** Everything a loop point of the run keeps. */
  ghost predicate Consistent(
    c: Counters, submitters: nat, pending: set<nat>, journal: seq<Row>, responseLatency: seq<real>, lateness: seq<real>,
    submitted: seq<nat>)
  {
    && Balanced(c, |pending|, submitters) && Tallied(c, journal) && Placed(pending, journal, submitted, c.offered)
    && |submitted| == c.sent && |lateness| == c.offered && responseLatency == Latencies(journal)
  }

  lemma RecordIsConsistent(
    c: Counters, submitters: nat, pending: set<nat>, journal: seq<Row>, responseLatency: seq<real>, lateness: seq<real>,
    submitted: seq<nat>, row: Row)
    requires Consistent(c, submitters, pending, journal, responseLatency, lateness, submitted) && row.index in pending
    ensures Consistent(Counted(c, row.kind), submitters, pending - {row.index}, journal + [row],
                       responseLatency + [row.latency], lateness, submitted)
  {
    RecordKeepsPlaces(pending, journal, submitted, c.offered, row);
    RecordKeepsTally(c, journal, row);
  }

  /** The counters after an arrival was sent with so many submissions in flight. */
  function Sent(c: Counters, inFlight: nat): Counters {
    var maximum := if c.maxInFlight < inFlight then inFlight else c.maxInFlight;
    c.(offered := c.offered + 1, sent := c.sent + 1, maxInFlight := maximum)
  }

  function DroppedLate(c: Counters): Counters {
    c.(offered := c.offered + 1, droppedLate := c.droppedLate + 1)
  }

  function DroppedCapacity(c: Counters): Counters {
    c.(offered := c.offered + 1, droppedCapacity := c.droppedCapacity + 1)
  }

  /** No arrival was taken up in between. */
  predicate SameDispatch(a: Counters, b: Counters) {
    && a.offered == b.offered && a.sent == b.sent && a.maxInFlight == b.maxInFlight
    && a.droppedLate == b.droppedLate && a.droppedCapacity == b.droppedCapacity
  }

  function Taken(c: Counters, late: bool, free: bool, inFlight: nat): Counters {
    if late then DroppedLate(c) else if !free then DroppedCapacity(c) else Sent(c, inFlight)
  }

  lemma SendIsConsistent(
    c: Counters, submitters: nat, pending: set<nat>, journal: seq<Row>, responseLatency: seq<real>, lateness: seq<real>,
    submitted: seq<nat>, delay: real)
    requires Consistent(c, submitters, pending, journal, responseLatency, lateness, submitted) && |pending| < submitters
    ensures Consistent(Sent(c, |pending| + 1), submitters, pending + {c.offered}, journal, responseLatency,
                       lateness + [delay], submitted + [c.offered])
    ensures c.offered !in pending
  {
    SendKeepsPlaces(pending, journal, submitted, c.offered);
  }

  lemma DropIsConsistent(
    c: Counters, submitters: nat, pending: set<nat>, journal: seq<Row>, responseLatency: seq<real>, lateness: seq<real>,
    submitted: seq<nat>, delay: real)
    requires Consistent(c, submitters, pending, journal, responseLatency, lateness, submitted)
    ensures Consistent(DroppedLate(c), submitters, pending, journal, responseLatency, lateness + [delay], submitted)
    ensures Consistent(DroppedCapacity(c), submitters, pending, journal, responseLatency, lateness + [delay], submitted)
  {
  }

  /** One arrival is taken up: dropped for lateness, dropped for want of a submitter, or sent. */
  lemma OfferIsConsistent(
    c: Counters, submitters: nat, pending: set<nat>, journal: seq<Row>, responseLatency: seq<real>, lateness: seq<real>,
    submitted: seq<nat>, delay: real, late: bool)
    requires Consistent(c, submitters, pending, journal, responseLatency, lateness, submitted)
    ensures var sends := !late && |pending| < submitters;
      Consistent(Taken(c, late, |pending| < submitters, |pending| + 1), submitters,
                 if sends then pending + {c.offered} else pending, journal, responseLatency, lateness + [delay],
                 if sends then submitted + [c.offered] else submitted)
    ensures c.offered !in pending
  {
    SendKeepsPlaces(pending, journal, submitted, c.offered);
    if !late && |pending| < submitters {
      SendIsConsistent(c, submitters, pending, journal, responseLatency, lateness, submitted, delay);
    } else {
      DropIsConsistent(c, submitters, pending, journal, responseLatency, lateness, submitted, delay);
    }
  }

  /** The rows come from the poll. */
  ghost predicate FromPoll(rows: seq<Row>, poll: Poll) {
    forall row <- rows :: row.index in poll && poll[row.index] == Returned(row.kind, row.latency)
  }

  lemma FromPollGrows(rows: seq<Row>, row: Row, poll: Poll)
    requires FromPoll(rows, poll) && row.index in poll && poll[row.index] == Returned(row.kind, row.latency)
    ensures FromPoll(rows + [row], poll)
  {
  }

  function Delays(turns: seq<Turn>): seq<real> {
    if turns == [] then [] else Delays(turns[..|turns| - 1]) + [turns[|turns| - 1].delay]
  }

  function LateTurns(turns: seq<Turn>, maxLateness: real): nat {
    if turns == [] then 0
    else LateTurns(turns[..|turns| - 1], maxLateness) + (if turns[|turns| - 1].delay > maxLateness then 1 else 0)
  }

  /** Every turn has its delay recorded in order; exactly the late ones count as such, and none of them is sent. */
  ghost predicate TakenInOrder(
    turns: seq<Turn>, maxLateness: real, lateness: seq<real>, submitted: seq<nat>, droppedLate: nat)
  {
    && lateness == Delays(turns) && droppedLate == LateTurns(turns, maxLateness)
    && forall k | 0 <= k < |submitted| :: submitted[k] < |turns| && turns[submitted[k]].delay <= maxLateness
  }

  lemma TurnIsTaken(
    turns: seq<Turn>, index: nat, maxLateness: real, lateness: seq<real>, submitted: seq<nat>, droppedLate: nat)
    requires index < |turns| && TakenInOrder(turns[..index], maxLateness, lateness, submitted, droppedLate)
    ensures var taken, delay := turns[..index + 1], turns[index].delay;
      && TakenInOrder(taken, maxLateness, lateness + [delay], submitted,
                      droppedLate + if delay > maxLateness then 1 else 0)
      && (delay <= maxLateness ==>
            TakenInOrder(taken, maxLateness, lateness + [delay], submitted + [index], droppedLate))
  {
    assert turns[..index + 1][..index] == turns[..index];
  }

  class Load {
    const submitters: nat
    const maxLateness: real
    var counters: Counters
    var pending: set<nat>
    var journal: seq<Row>
    var responseLatency: seq<real>
    var lateness: seq<real>
    ghost var submitted: seq<nat>

    ghost predicate Valid()
      reads this
    {
      Consistent(counters, submitters, pending, journal, responseLatency, lateness, submitted)
    }

    constructor (submitters: nat, maxLateness: real)
      ensures Valid() && counters.offered == 0 && pending == {}
      ensures this.submitters == submitters && this.maxLateness == maxLateness
    {
      this.submitters, this.maxLateness := submitters, maxLateness;
      counters := Counters(0, 0, 0, 0, 0, 0, 0, 0);
      pending, journal, responseLatency, lateness, submitted := {}, [], [], [], [];
    }

    /** Take the results of the pending submissions that have finished, in any order. */
    method Collect(poll: Poll) returns (aborted: bool, ghost rows: seq<Row>)
      requires Valid()
      modifies this`counters, this`pending, this`journal, this`responseLatency
      ensures (!aborted ==> Valid()) && SameDispatch(old(counters), counters)
      ensures journal == old(journal) + rows && FromPoll(rows, poll)
      ensures !aborted ==> pending == old(pending) - poll.Keys
    {
      var done := pending * poll.Keys;
      rows := [];
      while done != {}
        invariant Valid() && SameDispatch(old(counters), counters)
        invariant done <= pending <= old(pending) && done <= poll.Keys
        invariant forall f <- pending :: f in done || f !in poll
        invariant forall f <- old(pending) :: f in pending || f in poll
        invariant journal == old(journal) + rows && FromPoll(rows, poll)
      {
        var future :| future in done;
        aborted := Take(future, poll[future]);
        if aborted {
          return true, rows;
        }
        ghost var row := Row(future, poll[future].kind, poll[future].latency);
        FromPollGrows(rows, row, poll);
        Regrouped(old(journal), rows, [row]);
        rows := rows + [row];
        done := done - {future};
      }
      return false, rows;
    }

    /**
     One finished submission. An exception aborts the run before anything is counted, and a latency that cannot be
     sampled after the kind was counted; the latter leaves the counters unbalanced.
     */
    method Take(future: nat, completion: Completion) returns (aborted: bool)
      requires Valid() && future in pending
      modifies this`counters, this`pending, this`journal, this`responseLatency
      ensures aborted == (completion.Raised? || completion.latency < 0.0)
      ensures SameDispatch(old(counters), counters) && (!aborted ==> Valid())
      ensures aborted ==>
        counters == if completion.Raised? then old(counters) else Counted(old(counters), completion.kind)
      ensures aborted ==> responseLatency == old(responseLatency)
      ensures pending == if aborted then old(pending) else old(pending) - {future}
      ensures journal == old(journal) + if aborted then [] else [Row(future, completion.kind, completion.latency)]
    {
      if completion.Raised? {
        return true;
      }
      if completion.latency < 0.0 {
        counters := Counted(counters, completion.kind);
        return true;
      }
      Record(Row(future, completion.kind, completion.latency));
      return false;
    }

    /** One result: count it, sample it, write its row, and forget the future. */
    method Record(row: Row)
      requires Valid() && row.index in pending
      modifies this`counters, this`pending, this`journal, this`responseLatency
      ensures Valid() && counters == Counted(old(counters), row.kind)
      ensures pending == old(pending) - {row.index} && journal == old(journal) + [row]
    {
      RecordIsConsistent(counters, submitters, pending, journal, responseLatency, lateness, submitted, row);
      counters := Counted(counters, row.kind);
      responseLatency := responseLatency + [row.latency];
      journal := journal + [row];
      pending := pending - {row.index};
    }

    /** Take one arrival up: it counts as offered, and is dropped or sent at once. */
    method Offer(index: nat, delay: real) returns (aborted: bool)
      requires Valid() && index == counters.offered
      modifies this`counters, this`pending, this`lateness, this`submitted
      ensures aborted <==> delay < 0.0
      ensures !aborted ==> Valid() && lateness == old(lateness) + [delay]
      ensures !aborted ==>
        counters == Taken(old(counters), delay > maxLateness, |old(pending)| < submitters, |old(pending)| + 1)
      ensures !aborted ==>
        if delay <= maxLateness && |old(pending)| < submitters
        then pending == old(pending) + {index} && submitted == old(submitted) + [index]
        else pending == old(pending) && submitted == old(submitted)
    {
      if delay < 0.0 {
        return true;
      }
      OfferIsConsistent(
        counters, submitters, pending, journal, responseLatency, lateness, submitted, delay, delay > maxLateness);
      lateness := lateness + [delay];
      if delay > maxLateness {
        counters := DroppedLate(counters);
      } else if |pending| >= submitters {
        counters := DroppedCapacity(counters);
      } else {
        submitted := submitted + [index];
        pending := pending + {index};
        counters := Sent(counters, |pending|);
      }
      return false;
    }

    /** Poll while waiting; an unexpected exception aborts. */
    method CollectAll(polls: seq<Poll>) returns (aborted: bool)
      requires Valid()
      modifies this`counters, this`pending, this`journal, this`responseLatency
      ensures (!aborted ==> Valid()) && SameDispatch(old(counters), counters)
    {
      for k := 0 to |polls|
        invariant Valid() && SameDispatch(old(counters), counters)
      {
        ghost var rows;
        aborted, rows := Collect(polls[k]);
        if aborted {
          return true;
        }
      }
      return false;
    }

    /** One turn of the arrival loop: check, collect while waiting, collect once more, and take the arrival up. */
    method TakeTurn(index: nat, turn: Turn) returns (aborted: bool)
      requires Valid() && index == counters.offered
      modifies this
      ensures !aborted ==> Valid() && counters.offered == index + 1 && lateness == old(lateness) + [turn.delay]
      ensures !aborted ==>
        counters.droppedLate == old(counters.droppedLate) + if turn.delay > maxLateness then 1 else 0
      ensures !aborted ==>
        submitted == old(submitted) || (turn.delay <= maxLateness && submitted == old(submitted) + [index])
    {
      if !turn.healthy {
        return true;
      }
      aborted := CollectAll(turn.waits);
      if aborted {
        return true;
      }
      ghost var rows;
      aborted, rows := Collect(turn.last);
      if aborted {
        return true;
      }
      aborted := Offer(index, turn.delay);
    }

    /** The arrivals, one after another: each with its own delay, and the late ones dropped. */
    method OfferAll(turns: seq<Turn>) returns (aborted: bool)
      requires Valid() && counters.offered == 0
      modifies this
      ensures !aborted ==> Valid() && counters.offered == |turns|
      ensures !aborted ==> TakenInOrder(turns, maxLateness, lateness, submitted, counters.droppedLate)
    {
      for index := 0 to |turns|
        invariant Valid() && counters.offered == index
        invariant TakenInOrder(turns[..index], maxLateness, lateness, submitted, counters.droppedLate)
      {
        TurnIsTaken(turns, index, maxLateness, lateness, submitted, counters.droppedLate);
        aborted := TakeTurn(index, turns[index]);
        if aborted {
          return true;
        }
      }
      assert turns[..|turns|] == turns;
      return false;
    }

    /** Wait until nothing is pending, or the record of polls ends. */
    method Drain(drain: seq<Poll>) returns (aborted: bool)
      requires Valid()
      modifies this`counters, this`pending, this`journal, this`responseLatency
      ensures (!aborted ==> Valid()) && SameDispatch(old(counters), counters)
    {
      var k := 0;
      while pending != {} && k < |drain|
        invariant Valid() && SameDispatch(old(counters), counters)
      {
        ghost var rows;
        aborted, rows := Collect(drain[k]);
        if aborted {
          return true;
        }
        k := k + 1;
      }
      return false;
    }

    /**
     The whole run: the arrivals, the rest of the measurement window, and then the wait for what is still
     pending. The waits are a finite record of polls; a run that outlives it is still pending.
     */
    method Run(turns: seq<Turn>, window: seq<Poll>, drain: seq<Poll>) returns (ending: Ending)
      requires Valid() && counters.offered == 0
      modifies this
      ensures ending != Aborted ==> Valid() && counters.offered == |turns|
      ensures ending == Finished ==> Complete(counters, submitters, |turns|, journal, responseLatency, lateness,
        submitted)
      ensures ending != Aborted ==> TakenInOrder(turns, maxLateness, lateness, submitted, counters.droppedLate)
      ensures ending == StillPending ==> pending != {}
    {
      var aborted := OfferAll(turns);
      if aborted {
        return Aborted;
      }
      aborted := CollectAll(window);
      if aborted {
        return Aborted;
      }
      aborted := Drain(drain);
      if aborted {
        return Aborted;
      }
      if pending != {} {
        return StillPending;
      }
      NothingPendingIsComplete(counters, submitters, journal, responseLatency, lateness, submitted);
      return Finished;
    }
  }

  /**
   What a normal return reports: every arrival was offered, every one sent was submitted once and has one
   row and one latency sample, and the counters say how each of them ended.
   */
  ghost predicate Complete(
    c: Counters, submitters: nat, arrivals: nat, journal: seq<Row>, responseLatency: seq<real>, lateness: seq<real>,
    submitted: seq<nat>)
  {
    && c.offered == arrivals == |lateness| == c.sent + c.droppedLate + c.droppedCapacity
    && c.sent == c.accepted + c.httpError + c.uncertain == |journal| == |responseLatency| == |submitted|
    && c.maxInFlight <= submitters
    && Increasing(submitted) && (forall k | 0 <= k < |submitted| :: submitted[k] < arrivals)
    && Indices(journal) == Members(submitted) && |Indices(journal)| == |journal|
  }

  lemma NothingPendingIsComplete(
    c: Counters, submitters: nat, journal: seq<Row>, responseLatency: seq<real>, lateness: seq<real>,
    submitted: seq<nat>)
    requires Consistent(c, submitters, {}, journal, responseLatency, lateness, submitted)
    ensures Complete(c, submitters, c.offered, journal, responseLatency, lateness, submitted)
  {
    KindsPartition(journal);
    IncreasingMembers(submitted);
  }

  /** A journal without repeated indices names each submission in exactly one row. */
  lemma {:induction false} RowsAreDistinct(journal: seq<Row>, i: nat, j: nat)
    requires |Indices(journal)| == |journal| && i < j < |journal|
    ensures journal[i].index != journal[j].index
  {
    var front, last := journal[..|journal| - 1], journal[|journal| - 1];
    IndicesAtMost(front);
    if j < |front| {
      RowsAreDistinct(front, i, j);
    } else {
      IndexIsIn(front, i);
    }
  }

  lemma {:induction false} IndexIsIn(journal: seq<Row>, i: nat)
    requires i < |journal|
    ensures journal[i].index in Indices(journal)
  {
    if i < |journal| - 1 {
      IndexIsIn(journal[..|journal| - 1], i);
    }
  }

  lemma {:induction false} IndicesAtMost(journal: seq<Row>)
    ensures |Indices(journal)| <= |journal|
  {
    if journal != [] {
      IndicesAtMost(journal[..|journal| - 1]);
    }
  }
}
