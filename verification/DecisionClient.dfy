/**
 The decision command of the fulfillment client: any number of invocations over one decision file.
 An invocation resends the command it finds in the file, or prepares one from the pending approval and
 persists it first. Processes die at any point, and a power loss may undo what was not yet durable.
 */
module DecisionClient {
  import opened Common

  const SIZE_LIMIT := 32 * 1024

  datatype Decision = Approve | Reject

  datatype Arguments = Arguments(
    workflow: string, decisionId: string, decision: Decision, reviewer: string, reason: Option<string>, digest: string)

  /** An action with the digest of the candidate that it names. */
  datatype Action = Action(digest: string, details: string)

  datatype Approval = Approval(
    workflow: string, key: string, pending: bool, activation: string, revision: nat, action: Action)

  datatype Command = Command(
    workflow: string, key: string, activation: string, revision: nat, action: Action,
    decisionId: string, decision: Decision, reviewer: string, reason: Option<string>)

  /**
   The approval key, and how a command is written to its file, as bytes, and read again. `covers` says that syncing
   a new file makes its name durable too; without it a synced file may vanish.
   */
  datatype Setting = Setting(
    key: string, encode: Command -> Bytes, parse: Bytes -> Option<Command>, covers: bool)

  /** The text of a command is one JSON object and a newline: it can be read once only the newline is missing. */
  ghost predicate Faithful(setting: Setting) {
    forall command, n | 0 <= n <= |setting.encode(command)| ::
      setting.parse(setting.encode(command)[..n]) == if n + 1 < |setting.encode(command)| then None else Some(command)
  }

  // ----- The commands -----

  /** The command that arguments freeze for an approval. */
  function CommandOf(args: Arguments, approval: Approval): Command {
    Command(
      args.workflow, approval.key, approval.activation, approval.revision, approval.action,
      args.decisionId, args.decision, args.reviewer, args.reason)
  }

  /** A command is made for a pending approval of the workflow whose action names the candidate of the arguments. */
  predicate Applicable(setting: Setting, args: Arguments, approval: Approval) {
    approval.workflow == args.workflow && approval.key == setting.key && approval.pending &&
    approval.action.digest == args.digest
  }

  function Prepared(setting: Setting, args: Arguments, approval: Approval): Option<Command> {
    if Applicable(setting, args, approval) then Some(CommandOf(args, approval)) else None
  }

  /** The last check before a command is sent. */
  predicate Agrees(setting: Setting, args: Arguments, command: Command) {
    && command.key == setting.key
    && command.decisionId == args.decisionId
    && command.decision == args.decision
    && command.reviewer == args.reviewer
    && command.reason == args.reason
    && command.action.digest == args.digest
  }

  // ----- The file -----

  /**
   The file, with the command that its creator set out to write, how much of the text is there, and whether that
   text and the name are durable.
   */
  datatype File = Absent | Present(command: Command, written: nat, synced: bool, named: bool)

  predicate Fits(setting: Setting, file: File) {
    file.Present? ==> file.written <= |setting.encode(file.command)|
  }

  function Text(setting: Setting, file: File): Bytes
    requires file.Present? && Fits(setting, file)
  {
    setting.encode(file.command)[..file.written]
  }

  /** The command that an invocation for the workflow finds in the file. */
  function Restored(setting: Setting, args: Arguments, file: File): Option<Command>
    requires file.Present? && Fits(setting, file)
  {
    var command := setting.parse(Text(setting, file));
    if command.None? || command.value.workflow != args.workflow then None else command
  }

  predicate Complete(setting: Setting, file: File) {
    file.Present? && Fits(setting, file) && file.written + 1 >= |setting.encode(file.command)|
  }

  lemma CompleteIsReadable(setting: Setting, args: Arguments, file: File)
    requires Faithful(setting) && file.Present? && Fits(setting, file)
    ensures Restored(setting, args, file) ==
            if Complete(setting, file) && file.command.workflow == args.workflow then Some(file.command) else None
  {
    var n := file.written;
    assert 0 <= n <= |setting.encode(file.command)|;
  }

  // ----- One undisturbed invocation -----

  class DecisionFile {
    var file: File

    constructor ()
      ensures file == Absent
    {
      file := Absent;
    }

    /**
     One invocation: the command it sends, if any. `pending` is the approval it would fetch, and `reached` how much
     of the text it writes before it fails, None when it does not fail.
     */
    method Decide(setting: Setting, args: Arguments, pending: Option<Approval>, reached: Option<nat>)
      returns (sent: Option<Command>)
      requires Faithful(setting) && Fits(setting, file)
      modifies this
      ensures Fits(setting, file)
      ensures old(file).Present? ==> file == old(file)
      ensures old(file).Absent? && file.Present? ==>
                pending.Some? && Applicable(setting, args, pending.value) &&
                  file.command == CommandOf(args, pending.value)
      ensures sent.Some? ==> Complete(setting, file) && sent == Some(file.command)
      ensures sent.Some? ==> file.command.workflow == args.workflow && Agrees(setting, args, file.command)
      ensures old(file).Absent? && sent.Some? ==> file.synced && file.named == setting.covers
      ensures old(file).Absent? ==>
                (sent.Some? <==>
                  && IsSha256(args.digest) && pending.Some? && Applicable(setting, args, pending.value)
                  && (reached.Some? ==> |setting.encode(CommandOf(args, pending.value))| < reached.value))
      ensures old(file).Present? ==>
                (sent.Some? <==>
                  && IsSha256(args.digest) && Complete(setting, file) && |Text(setting, file)| <= SIZE_LIMIT
                  && file.command.workflow == args.workflow && Agrees(setting, args, file.command))
    {
      if !IsSha256(args.digest) {
        return None;
      }
      var command: Command;
      if file.Present? {
        if |Text(setting, file)| > SIZE_LIMIT {
          return None;
        }
        CompleteIsReadable(setting, args, file);
        var restored := Restored(setting, args, file);
        if restored.None? {
          return None;
        }
        command := restored.value;
      } else {
        if pending.None? {
          return None;
        }
        var prepared := Prepared(setting, args, pending.value);
        if prepared.None? {
          return None;
        }
        command := prepared.value;
        var text := setting.encode(command);
        if reached.Some? && reached.value <= |text| {
          file := Present(command, reached.value, false, false);
          return None;
        }
        file := Present(command, |text|, true, setting.covers);
      }
      if !Agrees(setting, args, command) {
        return None;
      }
      return Some(command);
    }
  }

  // ----- Many invocations -----

  datatype Stage =
    | Checking
    | Measuring
    | Reading
    | Fetching
    | Creating(command: Command)
    | Writing(command: Command)
    | Loaded(command: Command)
    | Over

  datatype Invocation = Invocation(args: Arguments, stage: Stage)

  datatype Sent = Sent(args: Arguments, command: Command)

  datatype State = State(file: File, invocations: seq<Invocation>, sent: seq<Sent>)

  /** `Stop` is an error or the death of one process; a power loss ends them all. */
  datatype Event =
    | Start(args: Arguments)
    | Check(i: nat)
    | Measure(i: nat)
    | Read(i: nat)
    | Fetch(i: nat, approval: Approval)
    | Create(i: nat)
    | Write(i: nat, count: nat)
    | Sync(i: nat)
    | Send(i: nat)
    | Stop(i: nat)
    | PowerLoss(after: File)

  predicate IsSynced(file: File) {
    file.Present? && file.synced
  }

  predicate IsDurable(file: File) {
    file.Present? && file.synced && file.named
  }

  /**
   What a power loss may leave of a file: all of it when it is durable, else all or, when it was not synced, a part
   of its text, or nothing. What is there afterwards is what the disk holds, and durable.
   */
  predicate MaySurvive(file: File, after: File) {
    if file.Absent? then after.Absent?
    else if after.Absent? then !IsDurable(file)
    else
      && after.command == file.command && after.synced && after.named
      && after.written <= file.written && (file.synced ==> after.written == file.written)
  }

  predicate At(s: State, i: nat) {
    i < |s.invocations|
  }

  predicate Enabled(setting: Setting, s: State, event: Event) {
    match event
    case Start(args) => true
    case Check(i) => At(s, i) && s.invocations[i].stage.Checking?
    case Measure(i) => At(s, i) && s.invocations[i].stage.Measuring? && s.file.Present? && Fits(setting, s.file)
    case Read(i) => At(s, i) && s.invocations[i].stage.Reading? && s.file.Present? && Fits(setting, s.file)
    case Fetch(i, approval) => At(s, i) && s.invocations[i].stage.Fetching?
    case Create(i) => At(s, i) && s.invocations[i].stage.Creating?
    case Write(i, count) =>
      && At(s, i) && s.invocations[i].stage.Writing? && s.file.Present?
      && s.file.written + count <= |setting.encode(s.file.command)|
    case Sync(i) =>
      && At(s, i) && s.invocations[i].stage.Writing? && s.file.Present?
      && s.file.written == |setting.encode(s.file.command)|
    case Send(i) => At(s, i) && s.invocations[i].stage.Loaded?
    case Stop(i) => At(s, i)
    case PowerLoss(after) => MaySurvive(s.file, after)
  }

  function Goes(s: State, i: nat, stage: Stage): State
    requires At(s, i)
  {
    s.(invocations := s.invocations[i := s.invocations[i].(stage := stage)])
  }

  function AllOver(invocations: seq<Invocation>): seq<Invocation> {
    seq(|invocations|, i requires 0 <= i < |invocations| => invocations[i].(stage := Over))
  }

  function Next(setting: Setting, s: State, event: Event): State
    requires Enabled(setting, s, event)
  {
    match event
    case Start(args) => s.(invocations := s.invocations + [Invocation(args, Checking)])
    case Check(i) =>
      var valid := IsSha256(s.invocations[i].args.digest);
      Goes(s, i, if !valid then Over else if s.file.Present? then Measuring else Fetching)
    case Measure(i) => Goes(s, i, if |Text(setting, s.file)| > SIZE_LIMIT then Over else Reading)
    case Read(i) =>
      var command := Restored(setting, s.invocations[i].args, s.file);
      Goes(s, i, if command.None? then Over else Loaded(command.value))
    case Fetch(i, approval) =>
      var command := Prepared(setting, s.invocations[i].args, approval);
      Goes(s, i, if command.None? then Over else Creating(command.value))
    case Create(i) =>
      var command := s.invocations[i].stage.command;
      if s.file.Present? then Goes(s, i, Over)
      else Goes(s, i, Writing(command)).(file := Present(command, 0, false, false))
    case Write(i, count) => s.(file := s.file.(written := s.file.written + count))
    case Sync(i) =>
      Goes(s, i, Loaded(s.invocations[i].stage.command)).(file := s.file.(synced := true, named := setting.covers))
    case Send(i) =>
      var Invocation(args, stage) := s.invocations[i];
      if Agrees(setting, args, stage.command) then Goes(s, i, Over).(sent := s.sent + [Sent(args, stage.command)])
      else Goes(s, i, Over)
    case Stop(i) => Goes(s, i, Over)
    case PowerLoss(after) => State(after, AllOver(s.invocations), s.sent)
  }

  // ----- Safety -----

  /** Every command sent is the one command that the file holds, and agrees with the arguments of its sender. */
  predicate Safe(setting: Setting, s: State) {
    forall sent <- s.sent ::
      && Complete(setting, s.file) && sent.command == s.file.command
      && sent.command.workflow == sent.args.workflow && Agrees(setting, sent.args, sent.command)
  }

  /**
   A command in the making is for the workflow of its invocation; a writer's command is the file's, and a loaded
   command is in the file.
   */
  predicate Consistent(setting: Setting, file: File, invocation: Invocation) {
    match invocation.stage
    case Creating(command) => command.workflow == invocation.args.workflow
    case Writing(command) =>
      command.workflow == invocation.args.workflow && file.Present? && file.command == command && !file.synced
    case Loaded(command) =>
      command.workflow == invocation.args.workflow && Complete(setting, file) && file.command == command
    case _ => true
  }

  predicate Inv(setting: Setting, s: State) {
    && Fits(setting, s.file)
    && (forall i | 0 <= i < |s.invocations| :: Consistent(setting, s.file, s.invocations[i]))
    && (forall i, j | 0 <= i < j < |s.invocations| ::
          !(s.invocations[i].stage.Writing? && s.invocations[j].stage.Writing?))
    && Safe(setting, s)
  }

  /** A power loss is harmless before anything was sent, or when it leaves the command readable. */
  predicate Harmless(setting: Setting, s: State, event: Event) {
    event.PowerLoss? ==> s.sent == [] || Complete(setting, event.after)
  }

  /** One invocation goes to a stage, and the file may change with it. */
  lemma GoesKeepsInv(setting: Setting, s: State, i: nat, stage: Stage, file: File)
    requires Inv(setting, s) && At(s, i) && Fits(setting, file)
    requires Consistent(setting, file, s.invocations[i].(stage := stage))
    requires stage.Writing? ==> s.file.Absent?
    requires file != s.file ==> s.file.Absent? || GrowsBy(s, i, file)
    ensures Inv(setting, Goes(s, i, stage).(file := file))
  {
    var after := Goes(s, i, stage).(file := file);
    if s.file.Absent? {
      assert forall j | 0 <= j < |s.invocations| :: Consistent(setting, s.file, s.invocations[j]);
    } else if file != s.file {
      assert Consistent(setting, s.file, s.invocations[i]);
    }
    forall j | 0 <= j < |s.invocations| && j != i
      ensures Consistent(setting, file, s.invocations[j])
    {
      assert Consistent(setting, s.file, s.invocations[j]);
    }
  }

  /** The writer of the file adds to it, or syncs it. */
  predicate GrowsBy(s: State, i: nat, file: File)
    requires At(s, i)
  {
    && s.file.Present? && file.Present? && s.invocations[i].stage.Writing?
    && file.command == s.file.command && s.file.written <= file.written
  }

  lemma StartKeepsInv(setting: Setting, s: State, args: Arguments)
    requires Inv(setting, s)
    ensures Inv(setting, s.(invocations := s.invocations + [Invocation(args, Checking)]))
  {
  }

  lemma PowerLossKeepsInv(setting: Setting, s: State, after: File)
    requires Inv(setting, s) && MaySurvive(s.file, after) && Harmless(setting, s, PowerLoss(after))
    ensures Inv(setting, State(after, AllOver(s.invocations), s.sent))
  {
  }

  lemma SendKeepsInv(setting: Setting, s: State, i: nat)
    requires Inv(setting, s) && At(s, i) && s.invocations[i].stage.Loaded?
    ensures var Invocation(args, stage) := s.invocations[i];
      Agrees(setting, args, stage.command) ==>
        Inv(setting, Goes(s, i, Over).(sent := s.sent + [Sent(args, stage.command)]))
  {
    GoesKeepsInv(setting, s, i, Over, s.file);
    assert Consistent(setting, s.file, s.invocations[i]);
  }

  lemma StepKeepsInv(setting: Setting, s: State, event: Event)
    requires Faithful(setting) && Inv(setting, s)
    requires Enabled(setting, s, event) && Harmless(setting, s, event)
    ensures Inv(setting, Next(setting, s, event))
  {
    var next := Next(setting, s, event);
    match event
    case Start(args) =>
      StartKeepsInv(setting, s, args);
    case PowerLoss(after) =>
      PowerLossKeepsInv(setting, s, after);
    case Send(i) =>
      SendKeepsInv(setting, s, i);
      GoesKeepsInv(setting, s, i, Over, s.file);
    case Read(i) =>
      CompleteIsReadable(setting, s.invocations[i].args, s.file);
      GoesKeepsInv(setting, s, i, next.invocations[i].stage, s.file);
    case Write(i, count) =>
      assert Consistent(setting, s.file, s.invocations[i]);
      GrowthKeepsInv(setting, s, i, next.file);
    case Check(i) => GoesKeepsInv(setting, s, i, next.invocations[i].stage, next.file);
    case Measure(i) => GoesKeepsInv(setting, s, i, next.invocations[i].stage, next.file);
    case Fetch(i, approval) => GoesKeepsInv(setting, s, i, next.invocations[i].stage, next.file);
    case Create(i) =>
      assert Consistent(setting, s.file, s.invocations[i]);
      GoesKeepsInv(setting, s, i, next.invocations[i].stage, next.file);
    case Sync(i) =>
      assert Consistent(setting, s.file, s.invocations[i]);
      GoesKeepsInv(setting, s, i, next.invocations[i].stage, next.file);
    case Stop(i) => GoesKeepsInv(setting, s, i, Over, s.file);
  }

  lemma GrowthKeepsInv(setting: Setting, s: State, i: nat, file: File)
    requires Inv(setting, s) && At(s, i) && GrowsBy(s, i, file) && Fits(setting, file) && !file.synced
    ensures Inv(setting, s.(file := file))
  {
    assert Consistent(setting, s.file, s.invocations[i]);
    forall j | 0 <= j < |s.invocations|
      ensures Consistent(setting, file, s.invocations[j])
    {
      assert Consistent(setting, s.file, s.invocations[j]);
    }
  }

  // ----- Runs -----

  /** The state after a run, or None when one of its events cannot happen. */
  function Run(setting: Setting, s: State, events: seq<Event>): Option<State> {
    if events == [] then Some(s)
    else
      var before := Run(setting, s, events[..|events| - 1]);
      if before.Some? && Enabled(setting, before.value, events[|events| - 1])
      then Some(Next(setting, before.value, events[|events| - 1]))
      else None
  }

  predicate HarmlessThroughout(setting: Setting, s: State, events: seq<Event>)
    requires Run(setting, s, events).Some?
  {
    events == [] ||
    var front, last := events[..|events| - 1], events[|events| - 1];
    && HarmlessThroughout(setting, s, front)
    && Harmless(setting, Run(setting, s, front).value, last)
  }

  predicate SafeThroughout(setting: Setting, s: State, events: seq<Event>)
    requires Run(setting, s, events).Some?
  {
    && Safe(setting, Run(setting, s, events).value)
    && (events != [] ==> SafeThroughout(setting, s, events[..|events| - 1]))
  }

  /** A run stays safe exactly when no power loss takes away a command that was sent. */
  lemma {:induction false} SafeExactlyWithoutHarm(setting: Setting, s: State, events: seq<Event>)
    requires Faithful(setting) && Inv(setting, s) && Run(setting, s, events).Some?
    ensures SafeThroughout(setting, s, events) <==> HarmlessThroughout(setting, s, events)
    ensures SafeThroughout(setting, s, events) ==> Inv(setting, Run(setting, s, events).value)
  {
    if events != [] {
      var front, last := events[..|events| - 1], events[|events| - 1];
      SafeExactlyWithoutHarm(setting, s, front);
      var before := Run(setting, s, front).value;
      if HarmlessThroughout(setting, s, front) {
        if Harmless(setting, before, last) {
          StepKeepsInv(setting, before, last);
        } else {
          HarmIsUnsafe(setting, before, last);
        }
      }
    }
  }

  lemma HarmIsUnsafe(setting: Setting, s: State, event: Event)
    requires Enabled(setting, s, event) && !Harmless(setting, s, event)
    ensures !Safe(setting, Next(setting, s, event))
  {
    assert s.sent[0] in Next(setting, s, event).sent;
  }

  /** In a safe state all the sent commands are one. */
  lemma SafeSendsOneCommand(setting: Setting, s: State)
    requires Safe(setting, s)
    ensures forall i, j | 0 <= i < |s.sent| && 0 <= j < |s.sent| :: s.sent[i].command == s.sent[j].command
  {
  }

  /** Whenever a command is sent, the file passes a test. */
  predicate SendsWhen(test: File -> bool, setting: Setting, s: State, events: seq<Event>)
    requires Run(setting, s, events).Some?
  {
    events == [] ||
    var front, last := events[..|events| - 1], events[|events| - 1];
    && SendsWhen(test, setting, s, front)
    && (last.Send? ==> test(Run(setting, s, front).value.file))
  }

  /** When only commands in a durable file are sent, no power loss does harm. */
  lemma {:induction false} DurableSendsAreSafe(setting: Setting, s: State, events: seq<Event>)
    requires Faithful(setting) && Inv(setting, s) && s.sent == []
    requires Run(setting, s, events).Some? && SendsWhen(IsDurable, setting, s, events)
    ensures SafeThroughout(setting, s, events)
    ensures var after := Run(setting, s, events).value;
      Inv(setting, after) && (after.sent == [] || (Complete(setting, after.file) && IsDurable(after.file)))
  {
    SafeExactlyWithoutHarm(setting, s, events);
    if events != [] {
      var front, last := events[..|events| - 1], events[|events| - 1];
      DurableSendsAreSafe(setting, s, front);
      DurableStep(setting, Run(setting, s, front).value, last);
      SafeExactlyWithoutHarm(setting, s, front);
    }
  }

  lemma DurableStep(setting: Setting, s: State, event: Event)
    requires Faithful(setting) && Inv(setting, s) && Enabled(setting, s, event)
    requires s.sent == [] || (Complete(setting, s.file) && IsDurable(s.file))
    requires event.Send? ==> IsDurable(s.file)
    ensures Harmless(setting, s, event)
    ensures var after := Next(setting, s, event);
      Inv(setting, after) && (after.sent == [] || (Complete(setting, after.file) && IsDurable(after.file)))
  {
    StepKeepsInv(setting, s, event);
    match event
    case Write(i, count) => assert Consistent(setting, s.file, s.invocations[i]);
    case Sync(i) => assert Consistent(setting, s.file, s.invocations[i]);
    case Send(i) => assert Consistent(setting, s.file, s.invocations[i]);
    case _ =>
  }

  /** Where syncing makes the name durable, synced files are durable in every run. */
  lemma {:induction false} SyncedIsDurable(setting: Setting, s: State, events: seq<Event>)
    requires setting.covers && Run(setting, s, events).Some? && (IsSynced(s.file) ==> IsDurable(s.file))
    ensures var file := Run(setting, s, events).value.file; IsSynced(file) ==> IsDurable(file)
    ensures SendsWhen(IsSynced, setting, s, events) ==> SendsWhen(IsDurable, setting, s, events)
  {
    if events != [] {
      SyncedIsDurable(setting, s, events[..|events| - 1]);
    }
  }

  /** Once a command was sent, no power loss can take it away exactly when the text and the name are durable. */
  lemma HarmlessExactlyWhenDurable(setting: Setting, s: State)
    requires Inv(setting, s) && s.sent != []
    ensures (forall after | MaySurvive(s.file, after) :: Harmless(setting, s, PowerLoss(after))) <==> IsDurable(s.file)
  {
    assert s.sent[0] in s.sent;
    if !IsDurable(s.file) {
      assert MaySurvive(s.file, Absent) && !Harmless(setting, s, PowerLoss(Absent));
    }
  }

  // ----- One command for the same arguments, power losses included -----

  const NOTHING := State(Absent, [], [])

  /** What is fetched is the one proposal of the workflow; only its status may change. */
  ghost predicate FromProposals(proposals: string -> Approval, event: Event) {
    event.Fetch? ==>
      var proposal := proposals(event.approval.workflow);
      event.approval == proposal.(pending := event.approval.pending)
  }

  /** A command for the proposal of its workflow. */
  predicate Proposed(proposals: string -> Approval, command: Command) {
    var proposal := proposals(command.workflow);
    && command.key == proposal.key && command.activation == proposal.activation
    && command.revision == proposal.revision && command.action == proposal.action
  }

  predicate Made(proposals: string -> Approval, invocation: Invocation) {
    var stage := invocation.stage;
    stage.Creating? || stage.Writing? || stage.Loaded? ==>
      Proposed(proposals, stage.command) && stage.command.workflow == invocation.args.workflow
  }

  predicate Frozen(proposals: string -> Approval, sent: Sent) {
    sent.command == CommandOf(sent.args, proposals(sent.args.workflow))
  }

  /** The file, every command in the making and every command sent are for the proposal of their workflow. */
  ghost predicate Tied(setting: Setting, proposals: string -> Approval, s: State) {
    && Fits(setting, s.file)
    && (s.file.Present? ==> Proposed(proposals, s.file.command))
    && (forall i | 0 <= i < |s.invocations| :: Made(proposals, s.invocations[i]))
    && (forall sent <- s.sent :: Frozen(proposals, sent) && Agrees(setting, sent.args, sent.command))
  }

  lemma GoesKeepsTied(setting: Setting, proposals: string -> Approval, s: State, i: nat, stage: Stage)
    requires Tied(setting, proposals, s) && At(s, i) && Made(proposals, s.invocations[i].(stage := stage))
    ensures Tied(setting, proposals, Goes(s, i, stage))
  {
  }

  lemma StepKeepsTied(setting: Setting, proposals: string -> Approval, s: State, event: Event)
    requires Faithful(setting) && Tied(setting, proposals, s)
    requires Enabled(setting, s, event) && FromProposals(proposals, event)
    ensures Tied(setting, proposals, Next(setting, s, event))
  {
    match event
    case Start(_) =>
    case PowerLoss(_) =>
    case Write(_, _) =>
    case Read(i) =>
      CompleteIsReadable(setting, s.invocations[i].args, s.file);
      GoesKeepsTied(setting, proposals, s, i, Next(setting, s, event).invocations[i].stage);
    case Send(i) =>
      assert Made(proposals, s.invocations[i]);
      GoesKeepsTied(setting, proposals, s, i, Over);
    case Check(i) => GoesKeepsTied(setting, proposals, s, i, Next(setting, s, event).invocations[i].stage);
    case Measure(i) => GoesKeepsTied(setting, proposals, s, i, Next(setting, s, event).invocations[i].stage);
    case Fetch(i, _) => GoesKeepsTied(setting, proposals, s, i, Next(setting, s, event).invocations[i].stage);
    case Create(i) =>
      assert Made(proposals, s.invocations[i]);
      GoesKeepsTied(setting, proposals, s, i, Next(setting, s, event).invocations[i].stage);
    case Sync(i) =>
      assert Made(proposals, s.invocations[i]);
      GoesKeepsTied(setting, proposals, s, i, Next(setting, s, event).invocations[i].stage);
    case Stop(i) => GoesKeepsTied(setting, proposals, s, i, Over);
  }

  lemma {:induction false} RunKeepsTied(setting: Setting, proposals: string -> Approval, events: seq<Event>)
    requires Faithful(setting) && Run(setting, NOTHING, events).Some?
    requires forall event <- events :: FromProposals(proposals, event)
    ensures Tied(setting, proposals, Run(setting, NOTHING, events).value)
  {
    if events != [] {
      var front, last := events[..|events| - 1], events[|events| - 1];
      RunKeepsTied(setting, proposals, front);
      assert last in events;
      StepKeepsTied(setting, proposals, Run(setting, NOTHING, front).value, last);
    }
  }

  /**
   A workflow has one proposal under the key. Then, in every run, with any number of invocations, deaths and power
   losses, a command sent is fixed by the arguments of its sender: two sends carry the same command exactly when
   their arguments are the same.
   */
  lemma SameArgumentsSameCommand(
    setting: Setting, proposals: string -> Approval, events: seq<Event>, i: nat, j: nat)
    requires Faithful(setting) && Run(setting, NOTHING, events).Some?
    requires forall event <- events :: FromProposals(proposals, event)
    requires i < |Run(setting, NOTHING, events).value.sent| && j < |Run(setting, NOTHING, events).value.sent|
    ensures var sent := Run(setting, NOTHING, events).value.sent;
      && sent[i].command == CommandOf(sent[i].args, proposals(sent[i].args.workflow))
      && (sent[i].command == sent[j].command <==> sent[i].args == sent[j].args)
  {
    RunKeepsTied(setting, proposals, events);
    var sent := Run(setting, NOTHING, events).value.sent;
    assert sent[i] in sent && sent[j] in sent;
  }

  // ----- Runs, step by step -----

  lemma Extend(setting: Setting, s: State, events: seq<Event>, event: Event)
    requires Run(setting, s, events).Some? && Enabled(setting, Run(setting, s, events).value, event)
    ensures Run(setting, s, events + [event]) == Some(Next(setting, Run(setting, s, events).value, event))
    ensures SendsWhen(IsSynced, setting, s, events)
              && (event.Send? ==> IsSynced(Run(setting, s, events).value.file)) ==>
              SendsWhen(IsSynced, setting, s, events + [event])
  {
    assert (events + [event])[..|events|] == events;
  }

  lemma {:induction false} RunAppends(setting: Setting, s: State, events: seq<Event>, more: seq<Event>)
    requires Run(setting, s, events).Some?
    ensures Run(setting, s, events + more) == Run(setting, Run(setting, s, events).value, more)
    ensures Run(setting, s, events + more).Some? && SendsWhen(IsSynced, setting, s, events)
              && SendsWhen(IsSynced, setting, Run(setting, s, events).value, more) ==>
              SendsWhen(IsSynced, setting, s, events + more)
  {
    if more == [] {
      assert events + more == events;
    } else {
      RunAppends(setting, s, events, more[..|more| - 1]);
      var all := events + more;
      assert all[..|all| - 1] == events + more[..|more| - 1] && all[|all| - 1] == more[|more| - 1];
    }
  }

  function Joined(s: State, args: Arguments, stage: Stage): State {
    s.(invocations := s.invocations + [Invocation(args, stage)])
  }

  /** The run fetches nothing but this approval. */
  ghost predicate Fetches(events: seq<Event>, approval: Approval) {
    forall event <- events | event.Fetch? :: event.approval == approval
  }

  /** The invocation that joined last takes a step. */
  lemma LastGoes(
    setting: Setting, s: State, events: seq<Event>, event: Event, args: Arguments, stage: Stage, next: Stage)
    requires Run(setting, s, events) == Some(Joined(s, args, stage)) && SendsWhen(IsSynced, setting, s, events)
    requires Enabled(setting, Joined(s, args, stage), event) && !event.Send?
    requires Next(setting, Joined(s, args, stage), event) == Goes(Joined(s, args, stage), |s.invocations|, next)
    ensures Run(setting, s, events + [event]) == Some(Joined(s, args, next))
    ensures SendsWhen(IsSynced, setting, s, events + [event])
  {
    Extend(setting, s, events, event);
    assert (s.invocations + [Invocation(args, stage)])[|s.invocations| := Invocation(args, next)]
        == s.invocations + [Invocation(args, next)];
  }

  lemma CanStart(setting: Setting, s: State, args: Arguments) returns (events: seq<Event>)
    ensures Run(setting, s, events) == Some(Joined(s, args, Checking)) && SendsWhen(IsSynced, setting, s, events)
    ensures forall event <- events :: !event.Fetch? && !event.PowerLoss?
  {
    Extend(setting, s, [], Start(args));
    events := [] + [Start(args)];
  }

  lemma CheckWithoutFile(setting: Setting, s: State, args: Arguments)
    requires IsSha256(args.digest) && s.file.Absent?
    ensures Enabled(setting, Joined(s, args, Checking), Check(|s.invocations|))
    ensures Next(setting, Joined(s, args, Checking), Check(|s.invocations|)) ==
            Goes(Joined(s, args, Checking), |s.invocations|, Fetching)
  {
  }

  lemma FetchApplicable(setting: Setting, s: State, args: Arguments, approval: Approval)
    requires Applicable(setting, args, approval)
    ensures Enabled(setting, Joined(s, args, Fetching), Fetch(|s.invocations|, approval))
    ensures Next(setting, Joined(s, args, Fetching), Fetch(|s.invocations|, approval)) ==
            Goes(Joined(s, args, Fetching), |s.invocations|, Creating(CommandOf(args, approval)))
  {
  }

  /** A new invocation that finds no file gets as far as preparing its command. */
  lemma CanPrepare(setting: Setting, s: State, args: Arguments, approval: Approval) returns (events: seq<Event>)
    requires IsSha256(args.digest) && Applicable(setting, args, approval) && s.file.Absent?
    ensures Run(setting, s, events) == Some(Joined(s, args, Creating(CommandOf(args, approval))))
    ensures SendsWhen(IsSynced, setting, s, events) && Fetches(events, approval)
    ensures forall event <- events :: !event.PowerLoss?
  {
    var i, command := |s.invocations|, CommandOf(args, approval);
    events := CanStart(setting, s, args);
    CheckWithoutFile(setting, s, args);
    LastGoes(setting, s, events, Check(i), args, Checking, Fetching);
    events := events + [Check(i)];
    FetchApplicable(setting, s, args, approval);
    LastGoes(setting, s, events, Fetch(i, approval), args, Fetching, Creating(command));
    events := events + [Fetch(i, approval)];
  }

  /** A new invocation that finds no file creates it. */
  lemma CanCreate(setting: Setting, s: State, args: Arguments, approval: Approval) returns (events: seq<Event>)
    requires IsSha256(args.digest) && Applicable(setting, args, approval) && s.file.Absent?
    ensures var command := CommandOf(args, approval);
      Run(setting, s, events) ==
      Some(Joined(s, args, Writing(command)).(file := Present(command, 0, false, false)))
    ensures SendsWhen(IsSynced, setting, s, events) && Fetches(events, approval)
    ensures forall event <- events :: !event.PowerLoss?
  {
    var i, command := |s.invocations|, CommandOf(args, approval);
    events := CanPrepare(setting, s, args, approval);
    Extend(setting, s, events, Create(i));
    events := events + [Create(i)];
    assert (s.invocations + [Invocation(args, Creating(command))])[i := Invocation(args, Writing(command))]
        == s.invocations + [Invocation(args, Writing(command))];
  }

  /** The writer of an empty file writes its whole text, whoever joined since. */
  lemma CanFill(setting: Setting, s: State, i: nat) returns (events: seq<Event>)
    requires At(s, i) && s.invocations[i].stage.Writing?
    requires s.file == Present(s.invocations[i].stage.command, 0, false, false)
    ensures Run(setting, s, events) == Some(s.(file := s.file.(written := |setting.encode(s.file.command)|)))
    ensures SendsWhen(IsSynced, setting, s, events)
    ensures forall event <- events :: !event.Fetch? && !event.PowerLoss?
  {
    Extend(setting, s, [], Write(i, |setting.encode(s.file.command)|));
    events := [] + [Write(i, |setting.encode(s.file.command)|)];
  }

  /** A new invocation that finds no file gets as far as writing the whole command. */
  lemma CanWrite(setting: Setting, s: State, args: Arguments, approval: Approval) returns (events: seq<Event>)
    requires IsSha256(args.digest) && Applicable(setting, args, approval) && s.file.Absent?
    ensures var command := CommandOf(args, approval);
      Run(setting, s, events) ==
      Some(Joined(s, args, Writing(command)).(file := Present(command, |setting.encode(command)|, false, false)))
    ensures SendsWhen(IsSynced, setting, s, events) && Fetches(events, approval)
  {
    var i, command := |s.invocations|, CommandOf(args, approval);
    events := CanCreate(setting, s, args, approval);
    var filling := CanFill(setting, Joined(s, args, Writing(command)).(file := Present(command, 0, false, false)), i);
    RunAppends(setting, s, events, filling);
    events := events + filling;
  }

  /** The writer of a whole command syncs it and sends it. */
  lemma CanFinish(setting: Setting, s: State, i: nat) returns (events: seq<Event>)
    requires At(s, i) && s.invocations[i].stage.Writing?
    requires var command := s.invocations[i].stage.command;
      && Agrees(setting, s.invocations[i].args, command)
      && s.file == Present(command, |setting.encode(command)|, false, false)
    ensures Run(setting, s, events).Some?
    ensures var after := Run(setting, s, events).value;
      && after.file == s.file.(synced := true, named := setting.covers)
      && after.sent == s.sent + [Sent(s.invocations[i].args, s.file.command)]
    ensures |Run(setting, s, events).value.invocations| == |s.invocations|
    ensures forall j | 0 <= j < |s.invocations| && j != i ::
              Run(setting, s, events).value.invocations[j] == s.invocations[j]
    ensures SendsWhen(IsSynced, setting, s, events)
    ensures forall event <- events :: !event.Fetch? && !event.PowerLoss?
  {
    Extend(setting, s, [], Sync(i));
    events := [] + [Sync(i)];
    Extend(setting, s, events, Send(i));
    events := events + [Send(i)];
  }

  // ----- Sending a command again -----

  /** The file holds a whole command that the arguments agree with. */
  predicate Matches(setting: Setting, args: Arguments, file: File) {
    Complete(setting, file) && file.command.workflow == args.workflow && Agrees(setting, args, file.command)
  }

  /** Having found a small text, an invocation that reads a whole matching command sends it. */
  lemma CanReadAndSend(setting: Setting, s: State, i: nat) returns (events: seq<Event>)
    requires Faithful(setting) && At(s, i) && s.invocations[i].stage.Reading?
    requires Matches(setting, s.invocations[i].args, s.file)
    ensures Send(i) in events && Run(setting, s, events).Some?
    ensures var after := Run(setting, s, events).value;
      after.file == s.file && after.sent == s.sent + [Sent(s.invocations[i].args, s.file.command)]
    ensures forall event <- events :: !event.Fetch? && !event.PowerLoss?
  {
    CompleteIsReadable(setting, s.invocations[i].args, s.file);
    Extend(setting, s, [], Read(i));
    events := [] + [Read(i)];
    Extend(setting, s, events, Send(i));
    events := events + [Send(i)];
  }

  lemma {:induction false} OverStays(setting: Setting, s: State, events: seq<Event>, i: nat)
    requires At(s, i) && s.invocations[i].stage.Over? && Run(setting, s, events).Some?
    ensures At(Run(setting, s, events).value, i) && Run(setting, s, events).value.invocations[i].stage.Over?
    ensures Send(i) !in events
  {
    if events != [] {
      var front, last := events[..|events| - 1], events[|events| - 1];
      OverStays(setting, s, front, i);
      FrontAndLast(events);
    }
  }

  /** Whether an invocation can come to send after it has measured the file. */
  ghost predicate CanSendAfterMeasuring(setting: Setting, s: State, i: nat) {
    exists events :: Run(setting, s, [Measure(i)] + events).Some? && Send(i) in events
  }

  /** An invocation that measures a whole matching command can send it exactly when the measured text is small. */
  lemma ResendsExactlyWhenMeasuredSmall(setting: Setting, s: State, i: nat)
    requires Faithful(setting) && At(s, i) && s.invocations[i].stage.Measuring?
    requires Matches(setting, s.invocations[i].args, s.file)
    ensures CanSendAfterMeasuring(setting, s, i) <==> |Text(setting, s.file)| <= SIZE_LIMIT
  {
    Extend(setting, s, [], Measure(i));
    assert [] + [Measure(i)] == [Measure(i)];
    var measured := Run(setting, s, [Measure(i)]).value;
    if |Text(setting, s.file)| <= SIZE_LIMIT {
      var events := CanReadAndSend(setting, measured, i);
      RunAppends(setting, s, [Measure(i)], events);
    } else if CanSendAfterMeasuring(setting, s, i) {
      var events :| Run(setting, s, [Measure(i)] + events).Some? && Send(i) in events;
      RunAppends(setting, s, [Measure(i)], events);
      OverStays(setting, measured, events, i);
    }
  }

  /** At some point of the run the invocation measured a small text. */
  ghost predicate MeasuredSmall(setting: Setting, s: State, events: seq<Event>, i: nat)
    requires Run(setting, s, events).Some?
  {
    events != [] &&
    var front, last := events[..|events| - 1], events[|events| - 1];
    var before := Run(setting, s, front).value;
    || MeasuredSmall(setting, s, front, i)
    || (last == Measure(i) && |Text(setting, before.file)| <= SIZE_LIMIT)
  }

  predicate IsReading(s: State, i: nat) {
    At(s, i) && s.invocations[i].stage.Reading?
  }

  /** Only by measuring a small text does an invocation come to read. */
  lemma ReadingStarts(setting: Setting, s: State, event: Event, i: nat)
    requires Enabled(setting, s, event) && IsReading(Next(setting, s, event), i) && !IsReading(s, i)
    ensures event == Measure(i) && |Text(setting, s.file)| <= SIZE_LIMIT
  {
  }

  /** In every run an invocation that is about to read, and one that read a command, measured a small text before. */
  lemma {:induction false} ReadWasMeasuredSmall(setting: Setting, s: State, events: seq<Event>, i: nat)
    requires s.invocations == [] && Run(setting, s, events).Some?
    ensures IsReading(Run(setting, s, events).value, i) || Read(i) in events ==> MeasuredSmall(setting, s, events, i)
  {
    if events != [] {
      var front, last := events[..|events| - 1], events[|events| - 1];
      ReadWasMeasuredSmall(setting, s, front, i);
      FrontAndLast(events);
      var before := Run(setting, s, front).value;
      if IsReading(Next(setting, before, last), i) && !IsReading(before, i) {
        ReadingStarts(setting, before, last, i);
      }
    }
  }

  lemma CheckWithFile(setting: Setting, s: State, args: Arguments)
    requires IsSha256(args.digest) && s.file.Present?
    ensures Enabled(setting, Joined(s, args, Checking), Check(|s.invocations|))
    ensures Next(setting, Joined(s, args, Checking), Check(|s.invocations|)) ==
            Goes(Joined(s, args, Checking), |s.invocations|, Measuring)
  {
  }

  lemma MeasureSmall(setting: Setting, s: State, args: Arguments)
    requires s.file.Present? && Fits(setting, s.file) && |Text(setting, s.file)| <= SIZE_LIMIT
    ensures Enabled(setting, Joined(s, args, Measuring), Measure(|s.invocations|))
    ensures Next(setting, Joined(s, args, Measuring), Measure(|s.invocations|)) ==
            Goes(Joined(s, args, Measuring), |s.invocations|, Reading)
  {
  }

  /** A new invocation that finds a small text, whole or not, goes on to read it. */
  lemma CanMeasure(setting: Setting, s: State, args: Arguments) returns (events: seq<Event>)
    requires IsSha256(args.digest) && s.file.Present? && Fits(setting, s.file)
    requires |Text(setting, s.file)| <= SIZE_LIMIT
    ensures Run(setting, s, events) == Some(Joined(s, args, Reading))
    ensures forall event <- events :: !event.Fetch? && !event.PowerLoss?
  {
    var i := |s.invocations|;
    events := CanStart(setting, s, args);
    CheckWithFile(setting, s, args);
    LastGoes(setting, s, events, Check(i), args, Checking, Measuring);
    events := events + [Check(i)];
    MeasureSmall(setting, s, args);
    LastGoes(setting, s, events, Measure(i), args, Measuring, Reading);
    events := events + [Measure(i)];
  }

  /** A new invocation that finds a whole small matching command sends it, synced or not. */
  lemma CanResend(setting: Setting, s: State, args: Arguments) returns (events: seq<Event>)
    requires Faithful(setting) && IsSha256(args.digest) && Matches(setting, args, s.file)
    requires |Text(setting, s.file)| <= SIZE_LIMIT
    ensures Run(setting, s, events).Some?
    ensures var after := Run(setting, s, events).value;
      after.file == s.file && after.sent == s.sent + [Sent(args, s.file.command)]
    ensures forall event <- events :: !event.Fetch? && !event.PowerLoss?
  {
    events := CanMeasure(setting, s, args);
    var sending := CanReadAndSend(setting, Joined(s, args, Reading), |s.invocations|);
    RunAppends(setting, s, events, sending);
    events := events + sending;
  }

  /** The file is measured while it is empty, and written afterwards. */
  lemma CanMeasureEarly(setting: Setting, s: State, args: Arguments, approval: Approval) returns (events: seq<Event>)
    requires IsSha256(args.digest) && Applicable(setting, args, approval) && s.file.Absent?
    ensures var command := CommandOf(args, approval);
      Run(setting, s, events) ==
      Some(Joined(Joined(s, args, Writing(command)), args, Reading).(
        file := Present(command, |setting.encode(command)|, false, false)))
    ensures Fetches(events, approval) && forall event <- events :: !event.PowerLoss?
  {
    events := CanCreate(setting, s, args, approval);
    var created := Run(setting, s, events).value;
    var measuring := CanMeasure(setting, created, args);
    RunAppends(setting, s, events, measuring);
    events := events + measuring;
    var filling := CanFill(setting, Joined(created, args, Reading), |s.invocations|);
    RunAppends(setting, s, events, filling);
    events := events + filling;
  }

  /**
   A text of any size can be sent again by an invocation that measured the file while it was short: the size is
   checked before the file is read, and may be out of date by then.
   */
  lemma EarlyMeasurerResends(setting: Setting, args: Arguments, approval: Approval) returns (events: seq<Event>)
    requires Faithful(setting) && IsSha256(args.digest) && Applicable(setting, args, approval)
    ensures Run(setting, NOTHING, events).Some? && Fetches(events, approval)
    ensures forall event <- events :: !event.PowerLoss?
    ensures var sent := Sent(args, CommandOf(args, approval));
      Run(setting, NOTHING, events).value.sent == [sent, sent]
  {
    events := CanMeasureEarly(setting, NOTHING, args, approval);
    var written := Run(setting, NOTHING, events).value;
    var finishing := CanFinish(setting, written, 0);
    RunAppends(setting, NOTHING, events, finishing);
    events := events + finishing;
    var finished := Run(setting, NOTHING, events).value;
    assert finished.invocations[1] == Invocation(args, Reading);
    var sending := CanReadAndSend(setting, finished, 1);
    RunAppends(setting, NOTHING, events, sending);
    events := events + sending;
  }

  // ----- Runs that break -----

  /** Once a file is lost, a new invocation can send the command of its own arguments for the same approval. */
  lemma LossAllowsAnotherCommand(setting: Setting, s: State, args: Arguments, approval: Approval)
    returns (events: seq<Event>)
    requires IsSha256(args.digest) && Applicable(setting, args, approval) && MaySurvive(s.file, Absent)
    ensures Run(setting, s, events).Some? && SendsWhen(IsSynced, setting, s, events) && Fetches(events, approval)
    ensures Run(setting, s, events).value.sent == s.sent + [Sent(args, CommandOf(args, approval))]
  {
    var lost := Next(setting, s, PowerLoss(Absent));
    Extend(setting, s, [], PowerLoss(Absent));
    events := [] + [PowerLoss(Absent)];
    var writing := CanWrite(setting, lost, args, approval);
    RunAppends(setting, s, events, writing);
    events := events + writing;
    var written := Run(setting, s, events).value;
    var finishing := CanFinish(setting, written, |lost.invocations|);
    RunAppends(setting, s, events, finishing);
    events := events + finishing;
  }

  /** The run sends two different commands for one approval, and is not safe throughout. */
  ghost predicate Breaks(
    setting: Setting, events: seq<Event>, args: Arguments, other: Arguments, approval: Approval)
  {
    && Run(setting, NOTHING, events).Some? && Fetches(events, approval)
    && var sent := Run(setting, NOTHING, events).value.sent;
    && sent == [Sent(args, CommandOf(args, approval)), Sent(other, CommandOf(other, approval))]
    && sent[0].command != sent[1].command
    && !SafeThroughout(setting, NOTHING, events)
  }

  lemma TwoCommandsAreUnsafe(
    setting: Setting, events: seq<Event>, args: Arguments, other: Arguments, approval: Approval)
    requires Run(setting, NOTHING, events).Some? && Fetches(events, approval) && args != other
    requires Applicable(setting, args, approval) && Applicable(setting, other, approval)
    requires Run(setting, NOTHING, events).value.sent ==
             [Sent(args, CommandOf(args, approval)), Sent(other, CommandOf(other, approval))]
    ensures Breaks(setting, events, args, other, approval)
  {
    var s := Run(setting, NOTHING, events).value;
    assert s.sent[0] in s.sent && s.sent[1] in s.sent;
  }

  /**
   Approving and then rejecting one proposal: even where syncing makes the name durable, an invocation that sends
   before the writer of the file has synced it lets a power loss lead to both commands.
   */
  lemma EarlyReaderCanBreak(setting: Setting, args: Arguments, other: Arguments, approval: Approval)
    returns (events: seq<Event>)
    requires Faithful(setting) && IsSha256(args.digest) && args != other
    requires Applicable(setting, args, approval) && Applicable(setting, other, approval)
    requires |setting.encode(CommandOf(args, approval))| <= SIZE_LIMIT
    ensures Breaks(setting, events, args, other, approval)
  {
    events := CanWrite(setting, NOTHING, args, approval);
    var written := Run(setting, NOTHING, events).value;
    var resending := CanResend(setting, written, args);
    RunAppends(setting, NOTHING, events, resending);
    events := events + resending;
    var sent := Run(setting, NOTHING, events).value;
    var breaking := LossAllowsAnotherCommand(setting, sent, other, approval);
    RunAppends(setting, NOTHING, events, breaking);
    events := events + breaking;
    TwoCommandsAreUnsafe(setting, events, args, other, approval);
  }

  /** Where syncing a new file does not make its name durable, one invocation at a time can send both. */
  lemma VanishedNameCanBreak(setting: Setting, args: Arguments, other: Arguments, approval: Approval)
    returns (events: seq<Event>)
    requires !setting.covers && IsSha256(args.digest) && args != other
    requires Applicable(setting, args, approval) && Applicable(setting, other, approval)
    ensures Breaks(setting, events, args, other, approval) && SendsWhen(IsSynced, setting, NOTHING, events)
  {
    events := CanWrite(setting, NOTHING, args, approval);
    var written := Run(setting, NOTHING, events).value;
    var finishing := CanFinish(setting, written, 0);
    RunAppends(setting, NOTHING, events, finishing);
    events := events + finishing;
    var sent := Run(setting, NOTHING, events).value;
    var breaking := LossAllowsAnotherCommand(setting, sent, other, approval);
    RunAppends(setting, NOTHING, events, breaking);
    events := events + breaking;
    TwoCommandsAreUnsafe(setting, events, args, other, approval);
  }
}
