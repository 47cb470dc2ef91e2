/**
 One local computation and two owned branches: the parent forks both, summarizes its input meanwhile,
 waits for both, and collects. The parent, each branch, the timer and every crash interleave freely.
 */
module MixedWorkflow {
  import opened Common
  import opened Journal

  /** A JSON list element: an integer, or something else (a boolean included). */
  datatype Element = Integer(value: int) | Other

  datatype Payload = NotAnObject | Object(values: Option<seq<Element>>, queue: Option<string>)

  datatype Summary = Summary(count: nat, sum: int)

  datatype BranchOutcome = Succeeded(value: int) | Failed | Cancelled

  /**
   The parent's checkpoints. `Waiting` is parked until both branches are terminal: its only move is the
   wake-up, which brings their outcomes.
   */
  datatype Parent =
    | Main(payload: Payload)
    | Waiting(local: Summary)
    | Collect(local: Summary, double: BranchOutcome, triple: BranchOutcome)

  datatype Request = ForkBoth(values: seq<int>, queue: string) | Summarize(values: seq<int>)

  datatype Value = Registered | Summarized(summary: Summary)

  datatype Output =
    | Completed(local: Summary, double: int, triple: int)
    | Refused(kind: string)

  /** A branch's checkpoints. `Sleeping` is parked on the branch's own timer. */
  datatype Child = Double(values: seq<int>) | Sleeping(sum: int) | DoubleReady(sum: int) | Triple(values: seq<int>)

  const FORK := Fork("calculations:0")
  const SUMMARY := Local("summary")

  function Sum(values: seq<int>): int {
    if values == [] then 0 else Sum(values[..|values| - 1]) + values[|values| - 1]
  }

  predicate InRange(element: Element) {
    element.Integer? && -1_000_000 <= element.value <= 1_000_000
  }

  function InputValues(payload: Payload): Option<seq<int>> {
    if payload.NotAnObject? || payload.values.None? then None
    else
      var values := payload.values.value;
      if 1 <= |values| <= 1000 && forall i | 0 <= i < |values| :: InRange(values[i])
      then Some(seq(|values|, i requires 0 <= i < |values| && InRange(values[i]) => values[i].value)) else None
  }

  predicate ValidQueue(queue: Option<string>) {
    queue.Some? && 1 <= |queue.value| <= 128 && forall c <- queue.value :: ' ' <= c <= '~'
  }

  function RunParent(parent: Parent, journal: map<Key, Record<Request, Value>>): Outcome<Parent, Key, Request, Output> {
    match parent
    case Main(payload) =>
      var values := InputValues(payload);
      if values.None? || !ValidQueue(payload.queue) then Finish(Refused("invalid_input"))
      else
        var fork: Lookup<Value> := Recorded(journal, FORK, ForkBoth(values.value, payload.queue.value));
        if fork.Absent? then Call(FORK, ForkBoth(values.value, payload.queue.value))
        else if fork.Mismatch? then Raise
        else
          var local: Lookup<Value> := Recorded(journal, SUMMARY, Summarize(values.value));
          (match local
           case Absent => Call(SUMMARY, Summarize(values.value))
           case Mismatch => Raise
           case Found(value) => if value.Summarized? then Checkpoint(Waiting(value.summary)) else Raise)
    case Waiting(local) => Checkpoint(parent)
    case Collect(local, double, triple) =>
      if double.Failed? then Finish(Refused("branch_failed"))
      else if double.Cancelled? then Finish(Refused("branch_cancelled"))
      else if triple.Failed? then Finish(Refused("branch_failed"))
      else if triple.Cancelled? then Finish(Refused("branch_cancelled"))
      else Finish(Completed(local, double.value, triple.value))
  }

  function RunChild(child: Child): Outcome<Child, Key, (), int> {
    match child
    case Double(values) => Checkpoint(Sleeping(Sum(values)))
    case Sleeping(sum) => Checkpoint(child)
    case DoubleReady(sum) => Finish(2 * sum)
    case Triple(values) => Finish(3 * Sum(values))
  }

  function ParentProgram(): Program<Parent, Key, Request, Value, Output> {
    Program(
      (parent, journal) => RunParent(parent, journal),
      (request: Request, value: Value) =>
        match request
        case ForkBoth(_, _) => value == Registered
        case Summarize(values) => value == Summarized(Summary(|values|, Sum(values))),
      (parked: Parent, resumed: Parent) =>
        if parked.Waiting? then resumed == parked || (resumed.Collect? && resumed.local == parked.local)
        else resumed == parked)
  }

  function ChildProgram(): Program<Child, Key, (), (), int> {
    Program(
      (child: Child, journal: map<Key, Record<(), ()>>) => RunChild(child),
      (request: (), value: ()) => true,
      (parked: Child, resumed: Child) => resumed == parked || (parked.Sleeping? && resumed == DoubleReady(parked.sum)))
  }

  // ----- The three workflows together -----

  type ParentState = State<Parent, Key, Request, Value, Output>
  type ChildState = State<Child, Key, (), (), int>

  /** A branch that ran out of attempts or was cancelled is closed with that outcome. */
  datatype Branch = Branch(state: ChildState, closed: Option<BranchOutcome>)

  datatype System = System(parent: ParentState, branches: Option<(Branch, Branch)>)

  datatype Move =
    | ParentMoves(parentEvent: Event<Parent, Value>)
    | DoubleMoves(event: Event<Child, ()>)
    | TripleMoves(event: Event<Child, ()>)
    | DoubleCloses(how: BranchOutcome)
    | TripleCloses(how: BranchOutcome)

  function Fresh(start: Child): Branch {
    Branch(State(Durable(start, map[], None), [], None), None)
  }

  predicate Terminal(branch: Branch) {
    branch.closed.Some? || branch.state.durable.finished.Some?
  }

  function OutcomeOf(branch: Branch): BranchOutcome
    requires Terminal(branch)
  {
    if branch.closed.Some? then branch.closed.value else Succeeded(branch.state.durable.finished.value)
  }

  ghost predicate BranchStep(b: Branch, event: Event<Child, ()>, c: Branch) {
    b.closed.None? && c.closed.None? && Step(ChildProgram(), b.state, event, c.state)
  }

  ghost predicate BranchCloses(b: Branch, how: BranchOutcome, c: Branch) {
    !Terminal(b) && !how.Succeeded? && c == b.(closed := Some(how))
  }

  ghost predicate SystemStep(s: System, move: Move, t: System) {
    match move
    case ParentMoves(event) =>
      && Step(ParentProgram(), s.parent, event, t.parent)
      && t.branches == (if s.branches.None? && FORK in t.parent.durable.journal
                        then Some((Fresh(Double(t.parent.durable.journal[FORK].request.values)),
                                   Fresh(Triple(t.parent.durable.journal[FORK].request.values))))
                        else s.branches)
      && (event.Decide? && event.resumed.Collect? ==>
            && s.branches.Some? && Terminal(s.branches.value.0) && Terminal(s.branches.value.1)
            && event.resumed.double == OutcomeOf(s.branches.value.0)
            && event.resumed.triple == OutcomeOf(s.branches.value.1))
    case DoubleMoves(event) =>
      s.branches.Some? && t.parent == s.parent && t.branches.Some? &&
      BranchStep(s.branches.value.0, event, t.branches.value.0) && t.branches.value.1 == s.branches.value.1
    case TripleMoves(event) =>
      s.branches.Some? && t.parent == s.parent && t.branches.Some? &&
      BranchStep(s.branches.value.1, event, t.branches.value.1) && t.branches.value.0 == s.branches.value.0
    case DoubleCloses(how) =>
      s.branches.Some? && t.parent == s.parent && t.branches.Some? &&
      BranchCloses(s.branches.value.0, how, t.branches.value.0) && t.branches.value.1 == s.branches.value.1
    case TripleCloses(how) =>
      s.branches.Some? && t.parent == s.parent && t.branches.Some? &&
      BranchCloses(s.branches.value.1, how, t.branches.value.1) && t.branches.value.0 == s.branches.value.0
  }

  ghost predicate IsSystemRun(payload: Payload, systems: seq<System>, moves: seq<Move>) {
    && |systems| == |moves| + 1
    && systems[0] == System(State(Durable(Main(payload), map[], None), [], None), None)
    && forall i | 0 <= i < |moves| :: SystemStep(systems[i], moves[i], systems[i + 1])
  }

  // ----- What holds in every state -----

  ghost predicate ChildOnTrack(start: Child, values: seq<int>, b: Branch) {
    && Inv(ChildProgram(), start, b.state)
    && (b.closed.Some? ==> !b.closed.value.Succeeded? && b.state.durable.finished.None?)
    && match start
       case Double(_) =>
         && (b.state.durable.checkpoint in {Double(values), Sleeping(Sum(values)), DoubleReady(Sum(values))})
         && (b.state.durable.finished.Some? ==> b.state.durable.finished.value == 2 * Sum(values))
       case Triple(_) =>
         && b.state.durable.checkpoint == Triple(values)
         && (b.state.durable.finished.Some? ==> b.state.durable.finished.value == 3 * Sum(values))
       case _ => false
  }

  ghost predicate ParentOnTrack(payload: Payload, s: System) {
    var d := s.parent.durable;
    && Inv(ParentProgram(), Main(payload), s.parent)
    && (s.branches.None? ==> d.checkpoint == Main(payload))
    && match d.checkpoint
       case Main(own) =>
         && own == payload
         && (FORK in d.journal ==> s.branches.Some? && InputValues(payload).Some?)
         && (s.branches.Some? ==> FORK in d.journal && d.finished.None?)
         && (d.finished.Some? ==> d.finished.value == Refused("invalid_input"))
         && (forall key <- d.journal :: key in {FORK, SUMMARY})
         && (InputValues(payload).Some? ==>
               var values := InputValues(payload).value;
               && (FORK in d.journal ==>
                     ValidQueue(payload.queue) && d.journal[FORK].request == ForkBoth(values, payload.queue.value))
               && (SUMMARY in d.journal ==>
                     d.journal[SUMMARY] == Record(Summarize(values), Summarized(Summary(|values|, Sum(values))))))
       case Waiting(local) =>
         && InputValues(payload).Some? &&
           local == Summary(|InputValues(payload).value|, Sum(InputValues(payload).value))
         && d.journal == map[] && d.finished.None?
       case Collect(local, double, triple) =>
         && InputValues(payload).Some? &&
           local == Summary(|InputValues(payload).value|, Sum(InputValues(payload).value))
         && d.journal == map[]
         && Terminal(s.branches.value.0) && double == OutcomeOf(s.branches.value.0)
         && Terminal(s.branches.value.1) && triple == OutcomeOf(s.branches.value.1)
         && (d.finished.Some? ==> Finish(d.finished.value) == RunParent(d.checkpoint, map[]))
  }

  ghost predicate SystemInv(payload: Payload, s: System) {
    && ParentOnTrack(payload, s)
    && (s.branches.Some? ==>
          && InputValues(payload).Some? && ValidQueue(payload.queue)
          && var values := InputValues(payload).value;
             ChildOnTrack(Double(values), values, s.branches.value.0) &&
               ChildOnTrack(Triple(values), values, s.branches.value.1))
  }

  lemma BranchStepKeepsTrack(start: Child, values: seq<int>, b: Branch, event: Event<Child, ()>, c: Branch)
    requires start in {Double(values), Triple(values)} && ChildOnTrack(start, values, b) && BranchStep(b, event, c)
    ensures ChildOnTrack(start, values, c)
    ensures !Terminal(b)
  {
    StepKeepsInv(ChildProgram(), start, b.state, event, c.state);
  }

  /** What the parent commits next, branches created by its fork included. */
  lemma ParentEntryKeepsTrack(payload: Payload, s: System, entry: Entry<Parent, Key, Request, Value, Output>, t: System)
    requires SystemInv(payload, s) && Allowed(ParentProgram(), s.parent.durable, entry)
    requires Inv(ParentProgram(), Main(payload), t.parent) && t.parent.durable == Apply(s.parent.durable, entry)
    requires t.branches == (if s.branches.None? && FORK in t.parent.durable.journal
                            then Some((Fresh(Double(t.parent.durable.journal[FORK].request.values)),
                                       Fresh(Triple(t.parent.durable.journal[FORK].request.values))))
                            else s.branches)
    requires entry.Resumed? && entry.checkpoint.Collect? ==>
      && s.branches.Some? && Terminal(s.branches.value.0) && Terminal(s.branches.value.1)
      && entry.checkpoint.double == OutcomeOf(s.branches.value.0)
      && entry.checkpoint.triple == OutcomeOf(s.branches.value.1)
    ensures SystemInv(payload, t)
  {
  }

  lemma ParentStepKeepsTrack(payload: Payload, s: System, event: Event<Parent, Value>, t: System)
    requires SystemInv(payload, s) && SystemStep(s, ParentMoves(event), t)
    ensures SystemInv(payload, t)
  {
    StepKeepsInv(ParentProgram(), Main(payload), s.parent, event, t.parent);
    if t.parent.log != s.parent.log {
      ParentEntryKeepsTrack(payload, s, t.parent.log[|s.parent.log|], t);
    }
  }

  lemma MoveKeepsInv(payload: Payload, s: System, move: Move, t: System)
    requires SystemInv(payload, s) && SystemStep(s, move, t)
    ensures SystemInv(payload, t)
  {
    match move
    case ParentMoves(event) => ParentStepKeepsTrack(payload, s, event, t);
    case DoubleMoves(event) =>
      var values := InputValues(payload).value;
      BranchStepKeepsTrack(Double(values), values, s.branches.value.0, event, t.branches.value.0);
    case TripleMoves(event) =>
      var values := InputValues(payload).value;
      BranchStepKeepsTrack(Triple(values), values, s.branches.value.1, event, t.branches.value.1);
    case DoubleCloses(_) =>
    case TripleCloses(_) =>
  }

  lemma {:induction false} RunKeepsInv(payload: Payload, systems: seq<System>, moves: seq<Move>, i: nat)
    requires IsSystemRun(payload, systems, moves) && i < |systems|
    ensures SystemInv(payload, systems[i])
  {
    if i > 0 {
      RunKeepsInv(payload, systems, moves, i - 1);
      MoveKeepsInv(payload, systems[i - 1], moves[i - 1], systems[i]);
    }
  }

  lemma {:induction false} SumIsBounded(values: seq<int>, bound: nat)
    requires forall i | 0 <= i < |values| :: 0 - bound <= values[i] <= bound
    ensures 0 - bound * |values| <= Sum(values) <= bound * |values|
  {
    if values != [] {
      SumIsBounded(values[..|values| - 1], bound);
    }
  }

  /**
   Whatever the interleaving, the crashes and the replays: a completed run reports the count and sum of
   the validated input, twice the sum and three times the sum, and both branches succeeded.
   */
  lemma CompletedIsExact(payload: Payload, systems: seq<System>, moves: seq<Move>, i: nat)
    requires IsSystemRun(payload, systems, moves) && i < |systems|
    requires systems[i].parent.durable.finished.Some? && systems[i].parent.durable.finished.value.Completed?
    ensures InputValues(payload).Some? && ValidQueue(payload.queue)
    ensures var values := InputValues(payload).value; var sum := Sum(values);
      && systems[i].parent.durable.finished.value == Completed(Summary(|values|, sum), 2 * sum, 3 * sum)
      && -1_000_000_000 <= sum <= 1_000_000_000
    ensures systems[i].branches.Some? &&
      systems[i].branches.value.0.closed.None? && systems[i].branches.value.0.state.durable.finished.Some? &&
      systems[i].branches.value.1.closed.None? && systems[i].branches.value.1.state.durable.finished.Some?
  {
    RunKeepsInv(payload, systems, moves, i);
    var values := InputValues(payload).value;
    SumIsBounded(values, 1_000_000);
  }

  /** A branch that failed or was cancelled rules a completed output out, then and for the rest of the run. */
  lemma ClosedBranchNeverCompletes(payload: Payload, systems: seq<System>, moves: seq<Move>, i: nat, j: nat)
    requires IsSystemRun(payload, systems, moves) && i <= j < |systems| && systems[i].branches.Some?
    requires systems[i].branches.value.0.closed.Some? || systems[i].branches.value.1.closed.Some?
    requires systems[j].parent.durable.finished.Some?
    ensures systems[j].parent.durable.finished.value in {Refused("branch_failed"), Refused("branch_cancelled")}
  {
    ClosedStays(payload, systems, moves, i, j);
    RunKeepsInv(payload, systems, moves, j);
  }

  lemma {:induction false} ClosedStays(payload: Payload, systems: seq<System>, moves: seq<Move>, i: nat, j: nat)
    requires IsSystemRun(payload, systems, moves) && i <= j < |systems| && systems[i].branches.Some?
    ensures systems[j].branches.Some?
    ensures systems[i].branches.value.0.closed.Some? ==> systems[j].branches.value.0 == systems[i].branches.value.0
    ensures systems[i].branches.value.1.closed.Some? ==> systems[j].branches.value.1 == systems[i].branches.value.1
    decreases j
  {
    if i < j {
      ClosedStays(payload, systems, moves, i, j - 1);
    }
  }

  /** Confluence: the schedule decides whether a run completes, never what it completes with. */
  lemma SchedulesAgree(
    payload: Payload, systems: seq<System>, moves: seq<Move>, i: nat,
    others: seq<System>, otherMoves: seq<Move>, j: nat)
    requires IsSystemRun(payload, systems, moves) && i < |systems|
    requires IsSystemRun(payload, others, otherMoves) && j < |others|
    requires systems[i].parent.durable.finished.Some? && systems[i].parent.durable.finished.value.Completed?
    requires others[j].parent.durable.finished.Some? && others[j].parent.durable.finished.value.Completed?
    ensures systems[i].parent.durable.finished == others[j].parent.durable.finished
  {
    CompletedIsExact(payload, systems, moves, i);
    CompletedIsExact(payload, others, otherMoves, j);
  }

  // ----- Every run can complete, unless a branch has closed -----

  lemma OneMoreMove(payload: Payload, systems: seq<System>, moves: seq<Move>, move: Move, t: System)
    requires IsSystemRun(payload, systems, moves) && SystemStep(systems[|moves|], move, t)
    ensures IsSystemRun(payload, systems + [t], moves + [move])
  {
    var longer, more := systems + [t], moves + [move];
    forall i | 0 <= i < |more|
      ensures SystemStep(longer[i], more[i], longer[i + 1])
    {
      if i < |moves| {
        assert SystemStep(systems[i], moves[i], systems[i + 1]);
      }
    }
  }

  predicate Open(s: System) {
    s.branches.Some? ==> s.branches.value.0.closed.None? && s.branches.value.1.closed.None?
  }

  /** How many moves a branch is from its result. */
  function ChildDistance(s: ChildState): nat {
    if s.durable.finished.Some? then 0
    else
      (match s.durable.checkpoint
       case Double(_) => 5
       case Sleeping(_) => 3
       case DoubleReady(_) => 1
       case Triple(_) => 1) + (if s.attempt.None? then 1 else 0)
  }

  /** The move that brings an unfinished branch nearer to its result. */
  lemma ChildComesNearer(start: Child, values: seq<int>, b: Branch) returns (event: Event<Child, ()>, c: Branch)
    requires start in {Double(values), Triple(values)} && ChildOnTrack(start, values, b)
    requires b.closed.None? && b.state.durable.finished.None?
    ensures BranchStep(b, event, c) && ChildOnTrack(start, values, c)
    ensures ChildDistance(c.state) < ChildDistance(b.state)
  {
    var s := b.state;
    var d := s.durable;
    if s.attempt.None? {
      event, c := Begin, b.(state := s.(attempt := Some(Attempt(d.journal, None))));
    } else {
      assert s.attempt.value.pending.None?;
      match d.checkpoint
      case Double(own) =>
        event, c := Decide(Sleeping(Sum(own))), b.(state := Accept(s, Resumed(Sleeping(Sum(own))), None));
      case Sleeping(sum) =>
        event, c := Decide(DoubleReady(sum)), b.(state := Accept(s, Resumed(DoubleReady(sum)), None));
      case DoubleReady(sum) =>
        event, c := Decide(d.checkpoint), b.(state := Accept(s, Finished(2 * sum), None));
      case Triple(own) =>
        event, c := Decide(d.checkpoint), b.(state := Accept(s, Finished(3 * Sum(own)), None));
    }
    BranchStepKeepsTrack(start, values, b, event, c);
  }

  /** Both branches have their results. */
  predicate BothFinished(s: System) {
    && s.branches.Some?
    && s.branches.value.0.state.durable.finished.Some? && s.branches.value.1.state.durable.finished.Some?
  }

  function BranchDistance(s: System): nat {
    if s.branches.None? then 0
    else ChildDistance(s.branches.value.0.state) + ChildDistance(s.branches.value.1.state)
  }

  /** Open branches can finish while the parent does nothing. */
  lemma {:induction false} BranchesCanFinish(payload: Payload, systems: seq<System>, moves: seq<Move>)
    returns (longer: seq<System>, more: seq<Move>)
    requires IsSystemRun(payload, systems, moves)
    requires systems[|moves|].branches.Some? && Open(systems[|moves|])
    ensures IsSystemRun(payload, longer, more) && systems <= longer && moves <= more
    ensures longer[|more|].parent == systems[|moves|].parent && BothFinished(longer[|more|]) && Open(longer[|more|])
    decreases BranchDistance(systems[|moves|])
  {
    var s := systems[|moves|];
    RunKeepsInv(payload, systems, moves, |moves|);
    var values := InputValues(payload).value;
    var (double, triple) := s.branches.value;
    if double.state.durable.finished.None? {
      var event, next := ChildComesNearer(Double(values), values, double);
      var t := s.(branches := Some((next, triple)));
      OneMoreMove(payload, systems, moves, DoubleMoves(event), t);
      longer, more := BranchesCanFinish(payload, systems + [t], moves + [DoubleMoves(event)]);
    } else if triple.state.durable.finished.None? {
      var event, next := ChildComesNearer(Triple(values), values, triple);
      var t := s.(branches := Some((double, next)));
      OneMoreMove(payload, systems, moves, TripleMoves(event), t);
      longer, more := BranchesCanFinish(payload, systems + [t], moves + [TripleMoves(event)]);
    } else {
      longer, more := systems, moves;
    }
  }

  function Missing(d: Durable<Parent, Key, Request, Value, Output>): nat {
    (if FORK in d.journal then 0 else 1) + (if SUMMARY in d.journal then 0 else 1)
  }

  /** How many moves the parent is from leaving its checkpoint. */
  function ParentDistance(s: ParentState): nat {
    3 * Missing(s.durable) + (if s.attempt.None? then 2 else if s.attempt.value.pending.None? then 1 else 0)
  }

  predicate Valid(payload: Payload) {
    InputValues(payload).Some? && ValidQueue(payload.queue)
  }

  /** The move of a parent that has not left its first checkpoint. */
  lemma MainComesNearer(payload: Payload, s: System) returns (event: Event<Parent, Value>, t: System)
    requires SystemInv(payload, s) && Valid(payload) && Open(s)
    requires s.parent.durable.checkpoint.Main? && s.parent.durable.finished.None?
    ensures SystemStep(s, ParentMoves(event), t) && Open(t)
    ensures t.parent.durable.finished.None?
    ensures t.parent.durable.checkpoint.Waiting? ||
            (t.parent.durable.checkpoint.Main? && ParentDistance(t.parent) < ParentDistance(s.parent))
  {
    var p, d := s.parent, s.parent.durable;
    var values, queue := InputValues(payload).value, payload.queue.value;
    var next := p;
    if p.attempt.None? {
      event, next := Begin, p.(attempt := Some(Attempt(d.journal, None)));
    } else if p.attempt.value.pending.Some? {
      var (key, record) := p.attempt.value.pending.value;
      event := Commit(true);
      next := Accept(p, Committed(key, record), Some(Attempt(p.attempt.value.seen[key := record], None)));
    } else if FORK !in d.journal {
      var record := Record(ForkBoth(values, queue), Registered);
      event, next := Execute(Registered), p.(attempt := Some(p.attempt.value.(pending := Some((FORK, record)))));
    } else if SUMMARY !in d.journal {
      var value := Summarized(Summary(|values|, Sum(values)));
      var record := Record(Summarize(values), value);
      event, next := Execute(value), p.(attempt := Some(p.attempt.value.(pending := Some((SUMMARY, record)))));
    } else {
      var parked := Waiting(Summary(|values|, Sum(values)));
      event, next := Decide(parked), Accept(p, Resumed(parked), None);
    }
    t := System(next, if s.branches.None? && FORK in next.durable.journal
                      then Some((Fresh(Double(next.durable.journal[FORK].request.values)),
                                 Fresh(Triple(next.durable.journal[FORK].request.values))))
                      else s.branches);
  }

  /** A parent with valid input gets as far as waiting for its branches. */
  lemma {:induction false} ParentCanWait(payload: Payload, systems: seq<System>, moves: seq<Move>)
    returns (longer: seq<System>, more: seq<Move>)
    requires IsSystemRun(payload, systems, moves) && Valid(payload) && Open(systems[|moves|])
    requires systems[|moves|].parent.durable.checkpoint.Main? && systems[|moves|].parent.durable.finished.None?
    ensures IsSystemRun(payload, longer, more) && systems <= longer && moves <= more
    ensures longer[|more|].parent.durable.checkpoint.Waiting? && longer[|more|].parent.durable.finished.None?
    ensures Open(longer[|more|])
    decreases ParentDistance(systems[|moves|].parent)
  {
    RunKeepsInv(payload, systems, moves, |moves|);
    var event, t := MainComesNearer(payload, systems[|moves|]);
    OneMoreMove(payload, systems, moves, ParentMoves(event), t);
    longer, more := systems + [t], moves + [ParentMoves(event)];
    if !t.parent.durable.checkpoint.Waiting? {
      longer, more := ParentCanWait(payload, longer, more);
    }
  }

  function CollectDistance(s: ParentState): nat {
    (if s.durable.checkpoint.Waiting? then 2 else 0) + (if s.attempt.None? then 1 else 0)
  }

  /** The move of a parent whose branches have both finished. */
  lemma CollectComesNearer(payload: Payload, s: System) returns (event: Event<Parent, Value>, t: System)
    requires SystemInv(payload, s) && Open(s) && BothFinished(s)
    requires !s.parent.durable.checkpoint.Main? && s.parent.durable.finished.None?
    ensures SystemStep(s, ParentMoves(event), t) && t.branches == s.branches && !t.parent.durable.checkpoint.Main?
    ensures t.parent.durable.finished.None? ==> CollectDistance(t.parent) < CollectDistance(s.parent)
    ensures t.parent.durable.finished.Some? ==> t.parent.durable.finished.value.Completed?
  {
    var p, d := s.parent, s.parent.durable;
    if p.attempt.None? {
      event, t := Begin, s.(parent := p.(attempt := Some(Attempt(d.journal, None))));
    } else {
      assert p.attempt.value.pending.None?;
      var (double, triple) := s.branches.value;
      match d.checkpoint
      case Waiting(local) =>
        var collect := Collect(local, OutcomeOf(double), OutcomeOf(triple));
        event, t := Decide(collect), s.(parent := Accept(p, Resumed(collect), None));
      case Collect(local, first, second) =>
        var result := Completed(local, first.value, second.value);
        event, t := Decide(Main(payload)), s.(parent := Accept(p, Finished(result), None));
    }
  }

  lemma {:induction false} ParentCanCollect(payload: Payload, systems: seq<System>, moves: seq<Move>)
    returns (longer: seq<System>, more: seq<Move>)
    requires IsSystemRun(payload, systems, moves) && Open(systems[|moves|]) && BothFinished(systems[|moves|])
    requires var d := systems[|moves|].parent.durable; !d.checkpoint.Main? && d.finished.None?
    ensures IsSystemRun(payload, longer, more) && systems <= longer && moves <= more
    ensures longer[|more|].parent.durable.finished.Some? && longer[|more|].parent.durable.finished.value.Completed?
    decreases CollectDistance(systems[|moves|].parent)
  {
    RunKeepsInv(payload, systems, moves, |moves|);
    var event, t := CollectComesNearer(payload, systems[|moves|]);
    OneMoreMove(payload, systems, moves, ParentMoves(event), t);
    longer, more := systems + [t], moves + [ParentMoves(event)];
    if t.parent.durable.finished.None? {
      longer, more := ParentCanCollect(payload, longer, more);
    }
  }

  /** A continuation of a run that completes. */
  ghost predicate CompletesLater(payload: Payload, systems: seq<System>, moves: seq<Move>) {
    exists longer: seq<System>, more: seq<Move> ::
      IsSystemRun(payload, longer, more) && systems <= longer && moves <= more &&
      longer[|more|].parent.durable.finished.Some? && longer[|more|].parent.durable.finished.value.Completed?
  }

  /** From every reachable state some continuation completes exactly when the input is valid and no branch closed. */
  lemma CompletesUnlessClosed(payload: Payload, systems: seq<System>, moves: seq<Move>)
    requires IsSystemRun(payload, systems, moves) && systems[|moves|].parent.durable.finished.None?
    ensures CompletesLater(payload, systems, moves) <==> Valid(payload) && Open(systems[|moves|])
  {
    RunKeepsInv(payload, systems, moves, |moves|);
    if Valid(payload) && Open(systems[|moves|]) {
      var longer, more := systems, moves;
      if systems[|moves|].parent.durable.checkpoint.Main? {
        longer, more := ParentCanWait(payload, systems, moves);
      }
      RunKeepsInv(payload, longer, more, |more|);
      longer, more := BranchesCanFinish(payload, longer, more);
      longer, more := ParentCanCollect(payload, longer, more);
    } else if CompletesLater(payload, systems, moves) {
      var longer: seq<System>, more: seq<Move> :|
        IsSystemRun(payload, longer, more) && systems <= longer && moves <= more &&
        longer[|more|].parent.durable.finished.Some? && longer[|more|].parent.durable.finished.value.Completed?;
      CompletedIsExact(payload, longer, more, |more|);
      if !Open(systems[|moves|]) {
        ClosedBranchNeverCompletes(payload, longer, more, |moves|, |more|);
      }
    }
  }
}
