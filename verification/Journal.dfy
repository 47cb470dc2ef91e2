/**
 The durable journal that workflow programs run on.

 An activation starts from a checkpoint and runs its code from the top. A keyed operation that has a
 record returns it; the first one that has none is executed, and its result is used only once it is
 committed. A decision commits a new checkpoint, with an empty journal, or the final result. Worker
 processes may die at any point and the acknowledgement of a commit may be lost.
 */
module Journal {
  import opened Common

  /** What a call was bound to, and the result that was accepted for it. */
  datatype Record<Q, V> = Record(request: Q, value: V)

  /** Where the code of an activation gets to with the records it has. */
  datatype Outcome<C, K, Q, R> =
    | Call(key: K, request: Q)
    | Checkpoint(next: C)
    | Finish(result: R)
    | Raise

  /**
   A workflow program. `code` runs an activation, `answers` is what an operation may return for a
   request, and `resumes` is how a parked checkpoint may come back with its inputs.
   */
  datatype Program<!C, !K, !Q, !V, R> = Program(
    code: (C, map<K, Record<Q, V>>) -> Outcome<C, K, Q, R>,
    answers: (Q, V) -> bool,
    resumes: (C, C) -> bool)

  /** What an operation finds under its key: nothing, a record for another request, or its result. */
  datatype Lookup<V> = Absent | Mismatch | Found(value: V)

  function Recorded<K, Q(==), V>(journal: map<K, Record<Q, V>>, key: K, request: Q): Lookup<V> {
    if key !in journal then Absent
    else if journal[key].request != request then Mismatch
    else Found(journal[key].value)
  }

  /** The database's state of one workflow. */
  datatype Durable<C, K, Q, V, R> = Durable(checkpoint: C, journal: map<K, Record<Q, V>>, finished: Option<R>)

  /** One accepted transaction. */
  datatype Entry<C, K, Q, V, R> =
    | Committed(key: K, record: Record<Q, V>)
    | Resumed(checkpoint: C)
    | Finished(result: R)

  function Apply<C, K, Q, V, R>(d: Durable<C, K, Q, V, R>, entry: Entry<C, K, Q, V, R>): Durable<C, K, Q, V, R> {
    match entry
    case Committed(key, record) => d.(journal := d.journal[key := record])
    case Resumed(checkpoint) => Durable(checkpoint, map[], None)
    case Finished(result) => d.(finished := Some(result))
  }

  function Replay<C, K, Q, V, R>(start: C, log: seq<Entry<C, K, Q, V, R>>): Durable<C, K, Q, V, R> {
    if log == [] then Durable(start, map[], None)
    else Apply(Replay(start, log[..|log| - 1]), log[|log| - 1])
  }

  /** The entry is what a process that never dies would commit next. */
  ghost predicate Allowed<C, K, Q, V, R>(
    p: Program<C, K, Q, V, R>, d: Durable<C, K, Q, V, R>, entry: Entry<C, K, Q, V, R>)
  {
    && d.finished.None?
    && match p.code(d.checkpoint, d.journal)
       case Call(key, request) =>
         key !in d.journal && entry.Committed? && entry.key == key &&
         entry.record.request == request && p.answers(request, entry.record.value)
       case Checkpoint(next) => entry.Resumed? && p.resumes(next, entry.checkpoint)
       case Finish(result) => entry == Finished(result)
       case Raise => false
  }

  /** The log of a run without any crash. */
  ghost predicate Legal<C, K, Q, V, R>(p: Program<C, K, Q, V, R>, start: C, log: seq<Entry<C, K, Q, V, R>>) {
    log == [] ||
    (Legal(p, start, log[..|log| - 1]) && Allowed(p, Replay(start, log[..|log| - 1]), log[|log| - 1]))
  }

  /** Fork registrations and local steps are keyed apart. */
  datatype Key = Fork(name: string) | Local(name: string)

  // ----- Processes that die -----

  /** One attempt at an activation: the records it has seen, and a result that is not committed yet. */
  datatype Attempt<K, Q, V> = Attempt(seen: map<K, Record<Q, V>>, pending: Option<(K, Record<Q, V>)>)

  datatype State<C, K, Q, V, R> = State(
    durable: Durable<C, K, Q, V, R>, log: seq<Entry<C, K, Q, V, R>>, attempt: Option<Attempt<K, Q, V>>)

  /** `acknowledged` is false when the commit is accepted but the process never hears of it and dies. */
  datatype Event<C, V> =
    | Begin
    | Execute(value: V)
    | Commit(acknowledged: bool)
    | Decide(resumed: C)
    | Crash

  function Accept<C, K, Q, V, R>(
    s: State<C, K, Q, V, R>, entry: Entry<C, K, Q, V, R>, attempt: Option<Attempt<K, Q, V>>): State<C, K, Q, V, R>
  {
    State(Apply(s.durable, entry), s.log + [entry], attempt)
  }

  ghost predicate Step<C, K, Q, V, R>(
    p: Program<C, K, Q, V, R>, s: State<C, K, Q, V, R>, event: Event<C, V>, t: State<C, K, Q, V, R>)
  {
    match event
    case Begin =>
      // The records of earlier attempts at this activation come with the claim.
      s.attempt.None? && s.durable.finished.None? &&
      t == s.(attempt := Some(Attempt(s.durable.journal, None)))
    case Execute(value) =>
      s.attempt.Some? && s.attempt.value.pending.None? &&
      var at := p.code(s.durable.checkpoint, s.attempt.value.seen);
      at.Call? && at.key !in s.attempt.value.seen && p.answers(at.request, value) &&
      t == s.(attempt := Some(s.attempt.value.(pending := Some((at.key, Record(at.request, value))))))
    case Commit(acknowledged) =>
      s.attempt.Some? && s.attempt.value.pending.Some? &&
      var (key, record) := s.attempt.value.pending.value;
      t == Accept(s, Committed(key, record),
                  if acknowledged then Some(Attempt(s.attempt.value.seen[key := record], None)) else None)
    case Decide(resumed) =>
      s.attempt.Some? && s.attempt.value.pending.None? &&
      match p.code(s.durable.checkpoint, s.attempt.value.seen) {
        case Checkpoint(next) => p.resumes(next, resumed) && t == Accept(s, Resumed(resumed), None)
        case Finish(result) => t == Accept(s, Finished(result), None)
        case _ => false
      }
    case Crash => s.attempt.Some? && t == s.(attempt := None)
  }

  ghost predicate IsRun<C, K, Q, V, R>(
    p: Program<C, K, Q, V, R>, start: C, states: seq<State<C, K, Q, V, R>>, events: seq<Event<C, V>>)
  {
    && |states| == |events| + 1
    && states[0] == State(Durable(start, map[], None), [], None)
    && forall i | 0 <= i < |events| :: Step(p, states[i], events[i], states[i + 1])
  }

  /** The database holds what the crash-free log leads to, and a live attempt sees exactly its journal. */
  ghost predicate Inv<C, K, Q, V, R>(p: Program<C, K, Q, V, R>, start: C, s: State<C, K, Q, V, R>) {
    && s.durable == Replay(start, s.log)
    && Legal(p, start, s.log)
    && (s.attempt.Some? ==> s.attempt.value.seen == s.durable.journal && s.durable.finished.None?)
    && (s.attempt.Some? && s.attempt.value.pending.Some? ==>
          var (key, record) := s.attempt.value.pending.value;
          Allowed(p, s.durable, Committed(key, record)))
  }

  lemma ExtendLog<C, K, Q, V, R>(
    p: Program<C, K, Q, V, R>, start: C, log: seq<Entry<C, K, Q, V, R>>, entry: Entry<C, K, Q, V, R>)
    requires Legal(p, start, log) && Allowed(p, Replay(start, log), entry)
    ensures Legal(p, start, log + [entry])
    ensures Replay(start, log + [entry]) == Apply(Replay(start, log), entry)
  {
    assert (log + [entry])[..|log|] == log;
  }

  lemma StepKeepsInv<C, K, Q, V, R>(
    p: Program<C, K, Q, V, R>, start: C, s: State<C, K, Q, V, R>, event: Event<C, V>, t: State<C, K, Q, V, R>)
    requires Inv(p, start, s) && Step(p, s, event, t)
    ensures Inv(p, start, t)
    ensures t.log == s.log ==> t.durable == s.durable
    ensures t.log != s.log ==>
      && |t.log| == |s.log| + 1 && t.log[..|s.log|] == s.log
      && Allowed(p, s.durable, t.log[|s.log|]) && t.durable == Apply(s.durable, t.log[|s.log|])
  {
    if t.log != s.log {
      ExtendLog(p, start, s.log, t.log[|s.log|]);
    }
  }

  /**
   Crashes are invisible: wherever processes die, and whatever the executions that were never
   committed returned, the database is in a state that a run without crashes reaches.
   */
  lemma {:induction false} CrashesAreInvisible<C, K, Q, V, R>(
    p: Program<C, K, Q, V, R>, start: C, states: seq<State<C, K, Q, V, R>>, events: seq<Event<C, V>>, i: nat)
    requires IsRun(p, start, states, events) && i < |states|
    ensures Inv(p, start, states[i])
    ensures states[i].durable == Replay(start, states[i].log) && Legal(p, start, states[i].log)
  {
    if i > 0 {
      CrashesAreInvisible(p, start, states, events, i - 1);
      StepKeepsInv(p, start, states[i - 1], events[i - 1], states[i]);
    }
  }

  /** A run in which no process dies: every commit is acknowledged, and nothing crashes. */
  predicate Smooth<C, V>(events: seq<Event<C, V>>) {
    forall i | 0 <= i < |events| :: !events[i].Crash? && (events[i].Commit? ==> events[i].acknowledged)
  }

  lemma OneMoreEvent<C, K, Q, V, R>(
    p: Program<C, K, Q, V, R>, start: C, states: seq<State<C, K, Q, V, R>>, events: seq<Event<C, V>>,
    event: Event<C, V>, t: State<C, K, Q, V, R>)
    requires IsRun(p, start, states, events) && Step(p, states[|events|], event, t)
    ensures IsRun(p, start, states + [t], events + [event])
  {
    var longer, more := states + [t], events + [event];
    forall i | 0 <= i < |more|
      ensures Step(p, longer[i], more[i], longer[i + 1])
    {
      if i < |events| {
        assert Step(p, states[i], events[i], states[i + 1]);
      }
    }
  }

  /** Between two entries of a log a smooth process is live, or may begin, with nothing pending. */
  lemma BeginSmoothly<C, K, Q, V, R>(
    p: Program<C, K, Q, V, R>, start: C, states: seq<State<C, K, Q, V, R>>, events: seq<Event<C, V>>)
    returns (longer: seq<State<C, K, Q, V, R>>, more: seq<Event<C, V>>)
    requires IsRun(p, start, states, events)
    requires states[|events|].durable.finished.None?
    requires states[|events|].attempt.Some? ==> states[|events|].attempt.value.pending.None?
    ensures IsRun(p, start, longer, more) && (Smooth(events) ==> Smooth(more))
    ensures states <= longer && events <= more
    ensures longer[|more|].durable == states[|events|].durable && longer[|more|].log == states[|events|].log
    ensures longer[|more|].attempt.Some? && longer[|more|].attempt.value.pending.None?
  {
    longer, more := states, events;
    var s := states[|events|];
    if s.attempt.None? {
      var t := s.(attempt := Some(Attempt(s.durable.journal, None)));
      OneMoreEvent(p, start, states, events, Begin, t);
      longer, more := states + [t], events + [Begin];
    }
  }

  /** A live process that has seen the whole journal commits, without dying, whatever may be committed next. */
  lemma CommitSmoothly<C, K, Q, V, R>(
    p: Program<C, K, Q, V, R>, start: C, states: seq<State<C, K, Q, V, R>>, events: seq<Event<C, V>>,
    entry: Entry<C, K, Q, V, R>)
    returns (longer: seq<State<C, K, Q, V, R>>, more: seq<Event<C, V>>)
    requires IsRun(p, start, states, events)
    requires var s := states[|events|];
      && s.attempt.Some? && s.attempt.value == Attempt(s.durable.journal, None)
      && Allowed(p, s.durable, entry)
    ensures IsRun(p, start, longer, more) && (Smooth(events) ==> Smooth(more))
    ensures states <= longer && events <= more
    ensures longer[|more|].durable == Apply(states[|events|].durable, entry)
    ensures longer[|more|].log == states[|events|].log + [entry]
    ensures longer[|more|].attempt.Some? ==> longer[|more|].attempt.value.pending.None?
  {
    var s := states[|events|];
    match entry
    case Committed(key, record) =>
      var executed := s.(attempt := Some(s.attempt.value.(pending := Some((key, record)))));
      OneMoreEvent(p, start, states, events, Execute(record.value), executed);
      var t := Accept(s, entry, Some(Attempt(s.attempt.value.seen[key := record], None)));
      OneMoreEvent(p, start, states + [executed], events + [Execute(record.value)], Commit(true), t);
      longer, more := states + [executed] + [t], events + [Execute(record.value)] + [Commit(true)];
    case Resumed(checkpoint) =>
      var t := Accept(s, entry, None);
      OneMoreEvent(p, start, states, events, Decide(checkpoint), t);
      longer, more := states + [t], events + [Decide(checkpoint)];
    case Finished(_) =>
      var t := Accept(s, entry, None);
      OneMoreEvent(p, start, states, events, Decide(s.durable.checkpoint), t);
      longer, more := states + [t], events + [Decide(s.durable.checkpoint)];
  }

  /** Every crash-free log is the log of a run in which no process dies. */
  lemma {:induction false} LegalLogRunsSmoothly<C, K, Q, V, R>(
    p: Program<C, K, Q, V, R>, start: C, log: seq<Entry<C, K, Q, V, R>>)
    returns (states: seq<State<C, K, Q, V, R>>, events: seq<Event<C, V>>)
    requires Legal(p, start, log)
    ensures IsRun(p, start, states, events) && Smooth(events)
    ensures states[|events|].durable == Replay(start, log) && states[|events|].log == log
    ensures states[|events|].attempt.Some? ==> states[|events|].attempt.value.pending.None?
  {
    if log == [] {
      states, events := [State(Durable(start, map[], None), [], None)], [];
    } else {
      var front, last := log[..|log| - 1], log[|log| - 1];
      states, events := LegalLogRunsSmoothly(p, start, front);
      states, events := BeginSmoothly(p, start, states, events);
      CrashesAreInvisible(p, start, states, events, |events|);
      states, events := CommitSmoothly(p, start, states, events, last);
      FrontAndLast(log);
    }
  }

  /** Whatever a run with crashes has committed, a run in which no process dies commits too, entry by entry. */
  lemma CrashesChangeNothing<C, K, Q, V, R>(
    p: Program<C, K, Q, V, R>, start: C, states: seq<State<C, K, Q, V, R>>, events: seq<Event<C, V>>, i: nat)
    returns (smooth: seq<State<C, K, Q, V, R>>, undisturbed: seq<Event<C, V>>)
    requires IsRun(p, start, states, events) && i < |states|
    ensures IsRun(p, start, smooth, undisturbed) && Smooth(undisturbed)
    ensures smooth[|undisturbed|].durable == states[i].durable && smooth[|undisturbed|].log == states[i].log
  {
    CrashesAreInvisible(p, start, states, events, i);
    smooth, undisturbed := LegalLogRunsSmoothly(p, start, states[i].log);
  }

  /** Any run can go on with any permitted continuation of its log: what is live dies, and a new process commits it. */
  lemma {:induction false} RunsOn<C, K, Q, V, R>(
    p: Program<C, K, Q, V, R>, start: C, states: seq<State<C, K, Q, V, R>>, events: seq<Event<C, V>>,
    more: seq<Entry<C, K, Q, V, R>>)
    returns (longer: seq<State<C, K, Q, V, R>>, later: seq<Event<C, V>>)
    requires IsRun(p, start, states, events) && Legal(p, start, states[|events|].log + more)
    ensures IsRun(p, start, longer, later) && states <= longer && events <= later
    ensures longer[|later|].log == states[|events|].log + more
    ensures longer[|later|].attempt.Some? ==> longer[|later|].attempt.value.pending.None?
    decreases |more|
  {
    var s := states[|events|];
    if more == [] {
      longer, later := states, events;
      assert s.log + more == s.log;
      if s.attempt.Some? {
        OneMoreEvent(p, start, states, events, Crash, s.(attempt := None));
        longer, later := states + [s.(attempt := None)], events + [Crash];
      }
    } else {
      var front, last := more[..|more| - 1], more[|more| - 1];
      var log := s.log + front;
      FrontAndLast(more);
      Regrouped(s.log, front, [last]);
      assert (log + [last])[..|log|] == log;
      longer, later := RunsOn(p, start, states, events, front);
      CrashesAreInvisible(p, start, longer, later, |later|);
      longer, later := BeginSmoothly(p, start, longer, later);
      CrashesAreInvisible(p, start, longer, later, |later|);
      longer, later := CommitSmoothly(p, start, longer, later, last);
    }
  }

  lemma {:induction false} PrefixIsLegal<C, K, Q, V, R>(
    p: Program<C, K, Q, V, R>, start: C, log: seq<Entry<C, K, Q, V, R>>, n: nat)
    requires Legal(p, start, log) && n <= |log|
    ensures Legal(p, start, log[..n])
    ensures n < |log| ==> Allowed(p, Replay(start, log[..n]), log[n])
    decreases |log|
  {
    if n == |log| {
      assert log[..n] == log;
    } else if n < |log| - 1 {
      var front := log[..|log| - 1];
      PrefixIsLegal(p, start, front, n);
      assert front[..n] == log[..n];
    }
  }

  /** Every record holds a value that its operation may return for the request it is bound to. */
  ghost predicate Answered<C, K, Q, V, R>(p: Program<C, K, Q, V, R>, d: Durable<C, K, Q, V, R>) {
    forall key <- d.journal :: p.answers(d.journal[key].request, d.journal[key].value)
  }

  lemma {:induction false} RecordsAreAnswered<C, K, Q, V, R>(
    p: Program<C, K, Q, V, R>, start: C, log: seq<Entry<C, K, Q, V, R>>)
    requires Legal(p, start, log)
    ensures Answered(p, Replay(start, log))
  {
    if log != [] {
      RecordsAreAnswered(p, start, log[..|log| - 1]);
    }
  }

  /** Entries between two positions leave the activation when one of them resumes. */
  ghost predicate SameActivation<C, K, Q, V, R>(log: seq<Entry<C, K, Q, V, R>>, i: nat, j: nat) {
    forall k | i < k < j && k < |log| :: log[k].Committed?
  }

  lemma {:induction false} RecordStays<C, K, Q, V, R>(
    start: C, log: seq<Entry<C, K, Q, V, R>>, i: nat, j: nat)
    requires i < j <= |log| && log[i].Committed? && SameActivation(log, i, j)
    ensures log[i].key in Replay(start, log[..j]).journal
    decreases j
  {
    assert log[..j][..j - 1] == log[..j - 1];
    if i < j - 1 {
      RecordStays(start, log, i, j - 1);
    }
  }

  /** A key commits at most once in an activation, whatever is executed again. */
  lemma KeyCommitsOnce<C, K, Q, V, R>(
    p: Program<C, K, Q, V, R>, start: C, log: seq<Entry<C, K, Q, V, R>>, i: nat, j: nat)
    requires Legal(p, start, log) && i < j < |log|
    requires log[i].Committed? && log[j].Committed? && SameActivation(log, i, j)
    ensures log[i].key != log[j].key
  {
    PrefixIsLegal(p, start, log, j);
    RecordStays(start, log, i, j);
  }
}
