/**
 The demo webhook receiver: one JSON object of bindings, replaced through a temporary file,
 a rename and a directory barrier before an event is acknowledged.

 The disk is what the store's name resolves to now (`visible`) together with every file the name
 may resolve to after a power loss (`survivors`). A rename adds a survivor, a directory fsync that
 succeeds leaves only the visible file, and a directory fsync that fails settles nothing.
 */
module DurableReceiver {
  import opened Common

  const CAPACITY := 256
  const MAX_BODY := 16384
  const SOURCE := "urn:ledgence:orchestrator"

  /** A CloudEvent, known by its id and by the canonical JSON text of the whole object. */
  datatype Event = Event(id: string, canonical: string)

  type Bindings = map<string, Event>

  /** A parsed request body; `canonical` is None when the object holds NaN or an infinity. */
  datatype Body =
    | NotJson
    | NotAnObject
    | Object(specversion: Option<string>, id: Option<string>, source: Option<string>, canonical: Option<string>)

  /** `length` is None when the Content-Length header is not an integer. */
  datatype Request = Request(path: string, length: Option<int>, received: nat, body: Body)

  datatype Reply = Status(code: nat) | Silence

  function Key(event: Event): string {
    SOURCE + "\n" + event.id
  }

  /** The event that a request carries, or the status of the refusal. */
  function Admit(request: Request): Result<Event, nat> {
    if request.path != "/completion" then Err(404)
    else if request.length.None? then Err(400)
    else if !(0 < request.length.value <= MAX_BODY) then Err(413)
    else if request.received != request.length.value then Err(400)
    else match request.body
      case NotJson => Err(400)
      case NotAnObject => Err(400)
      case Object(specversion, id, source, canonical) =>
        if specversion != Some("1.0") || id.None? || source != Some(SOURCE) || canonical.None? then Err(400)
        else Ok(Event(id.value, canonical.value))
  }

  /** How one system call ends: it works, it raises OSError, or the process dies before it takes effect. */
  datatype Call = Good | Fails | Crashes

  datatype Plan = Plan(read: Call, open: Call, write: Call, sync: Call, close: Call, rename: Call,
                       openDirectory: Call, syncDirectory: Call, closeDirectory: Call)

  /** `next` runs only after `call` worked. */
  function Then(call: Call, next: Call): Call {
    if call.Good? then next else call
  }

  /** `close` runs after `body` whether it worked or raised, and its own failure replaces the body's. */
  function Finally(body: Call, close: Call): Call {
    if body.Crashes? || close.Good? then body else close
  }

  /** `content` is None for text that does not parse; `synced` says the content itself reached the disk. */
  datatype File = Missing | File(content: Option<Bindings>, synced: bool)

  /** What loading the store at start gives; None when the module fails to load. */
  function Load(file: File): Option<Bindings> {
    match file
    case Missing => Some(map[])
    case File(content, _) => content
  }

  /** The file that a power loss leaves of `file`: anything at all when its content was never synced. */
  predicate Leaves(file: File, left: File) {
    match file
    case Missing => left.Missing?
    case File(content, synced) => left.File? && left.synced && (synced ==> left == file)
  }

  datatype State = State(live: bool, memory: Bindings, visible: File, survivors: set<File>)

  predicate Settled(file: File) {
    file.Missing? || (file.synced && file.content.Some?)
  }

  predicate Holds(file: File, event: Event) {
    Load(file).Some? && Key(event) in Load(file).value && Load(file).value[Key(event)] == event
  }

  /** No later start, with or without a power loss, can load a store that lacks the event. */
  ghost predicate Durable(s: State, event: Event) {
    Holds(s.visible, event) && forall file <- s.survivors :: Holds(file, event)
  }

  ghost predicate Inv(s: State) {
    && s.visible in s.survivors
    && (forall file <- s.survivors :: Settled(file))
    && (s.live ==> Load(s.visible) == Some(s.memory))
  }

  function Answer(ended: Call): Reply {
    match ended
    case Good => Status(204)
    case Fails => Status(503)
    case Crashes => Silence
  }

  // ----- What one POST may do, stated without the order of its statements -----

  /** How writing the temporary file and renaming it ends. */
  function Storing(plan: Plan): Call {
    Then(Then(plan.open, Finally(Then(plan.write, plan.sync), plan.close)), plan.rename)
  }

  /** How opening, syncing and closing the directory ends. */
  function Syncing(plan: Plan): Call {
    Then(plan.openDirectory, Finally(plan.syncDirectory, plan.closeDirectory))
  }

  predicate Conflicts(memory: Bindings, event: Event) {
    Key(event) in memory && memory[Key(event)] != event
  }

  predicate Full(memory: Bindings, event: Event) {
    Key(event) !in memory && |memory| >= CAPACITY
  }

  /** The event is bound in the visible store once the storage calls are over. */
  predicate Bound(memory: Bindings, event: Event, plan: Plan) {
    Key(event) in memory || Storing(plan).Good?
  }

  /** The directory was synced with the event bound. */
  predicate Barrier(memory: Bindings, event: Event, plan: Plan) {
    Bound(memory, event, plan) && plan.openDirectory.Good? && plan.syncDirectory.Good?
  }

  /** The state after a request: what stays bound, what is visible, and what a power loss may leave. */
  ghost predicate Posted(s: State, request: Request, plan: Plan, t: State, reply: Reply) {
    match Admit(request)
    case Err(code) =>
      if request.path != "/completion" || code == 413 || request.length.None? || plan.read.Good? then
        t == s && reply == Status(code)
      else
        Stopped(s, plan.read, t, reply)
    case Ok(event) =>
      if !plan.read.Good? then Stopped(s, plan.read, t, reply)
      else if Conflicts(s.memory, event) then t == s && reply == Status(409)
      else if Full(s.memory, event) then t == s && reply == Status(503)
      else Stored(s, event, plan, t, reply)
  }

  ghost predicate Stopped(s: State, call: Call, t: State, reply: Reply) {
    match call
    case Good => true
    case Fails => t == s && reply == Status(503)
    case Crashes => t == s.(live := false, memory := map[]) && reply == Silence
  }

  ghost predicate Stored(s: State, event: Event, plan: Plan, t: State, reply: Reply) {
    var bound := Bound(s.memory, event, plan);
    var ended := if bound then Syncing(plan) else Storing(plan);
    && t.visible == (if Key(event) !in s.memory && bound
                     then File(Some(s.memory[Key(event) := event]), true) else s.visible)
    && t.survivors == (if Barrier(s.memory, event, plan) then {t.visible} else s.survivors + {t.visible})
    && t.live == !ended.Crashes?
    && t.memory == (if !t.live then map[] else if bound then s.memory[Key(event) := event] else s.memory)
    && reply == Answer(ended)
  }

  // ----- The receiver itself -----

  class Receiver {
    var live: bool
    var memory: Bindings
    var visible: File
    var survivors: set<File>

    ghost function View(): State
      reads this
    {
      State(live, memory, visible, survivors)
    }

    /** Loading the module: the bindings are read from the store when it exists. */
    constructor (store: File)
      requires Settled(store)
      ensures Inv(View()) && live && visible == store && survivors == {store}
      ensures Load(store) == Some(memory)
    {
      live, visible, survivors := true, store, {store};
      memory := if store.Missing? then map[] else store.content.value;
    }

    /** The process dies: its memory goes and nothing is answered. */
    method Die() returns (reply: Reply)
      modifies this
      ensures View() == old(View()).(live := false, memory := map[]) && reply == Silence
    {
      live, memory, reply := false, map[], Silence;
    }

    method Post(request: Request, plan: Plan) returns (reply: Reply)
      requires live && Inv(View())
      modifies this
      ensures Posted(old(View()), request, plan, View(), reply)
    {
      if request.path != "/completion" {
        return Status(404);
      }
      if request.length.None? {
        return Status(400);
      }
      if !(0 < request.length.value <= MAX_BODY) {
        return Status(413);
      }
      if plan.read.Crashes? {
        reply := Die();
        return;
      }
      if plan.read.Fails? {
        return Status(503);
      }
      var admitted := Admit(request);
      if admitted.Err? {
        return Status(admitted.error);
      }
      var event := admitted.value;
      var key := Key(event);
      if key in memory && memory[key] != event {
        return Status(409);
      }
      if key !in memory {
        if |memory| >= CAPACITY {
          return Status(503);
        }
        var updated := memory[key := event];
        var ended, temporary := WriteTemporary(updated, plan);
        if ended.Good? {
          ended := plan.rename;
        }
        if ended.Crashes? {
          reply := Die();
          return;
        }
        if ended.Fails? {
          return Status(503);
        }
        visible := temporary;
        survivors := survivors + {visible};
        memory := updated;
      }
      // Identical redelivery reaches the barrier too.
      reply := SyncDirectory(plan);
    }

    /** Create, write and fsync the temporary file; only a synced and closed file may be renamed. */
    method WriteTemporary(updated: Bindings, plan: Plan) returns (ended: Call, temporary: File)
      ensures ended == Then(plan.open, Finally(Then(plan.write, plan.sync), plan.close))
      ensures ended.Good? ==> temporary == File(Some(updated), true)
    {
      ended, temporary := plan.open, Missing;
      if ended.Good? {
        temporary := File(None, false);
        ended := plan.write;
        if ended.Good? {
          temporary := File(Some(updated), false);
          ended := plan.sync;
          if ended.Good? {
            temporary := temporary.(synced := true);
          }
        }
        ended := Finally(ended, plan.close);
      }
    }

    method SyncDirectory(plan: Plan) returns (reply: Reply)
      modifies this
      ensures
        && visible == old(visible)
        && survivors == (if plan.openDirectory.Good? && plan.syncDirectory.Good? then {visible} else old(survivors))
        && live == (old(live) && !Syncing(plan).Crashes?)
        && memory == (if Syncing(plan).Crashes? then map[] else old(memory))
        && reply == Answer(Syncing(plan))
    {
      var ended := plan.openDirectory;
      if ended.Good? {
        ended := plan.syncDirectory;
        if ended.Good? {
          survivors := {visible};
        }
        ended := Finally(ended, plan.closeDirectory);
      }
      match ended {
        case Good => reply := Status(204);
        case Fails => reply := Status(503);
        case Crashes => reply := Die();
      }
    }
  }

  // ----- Runs: requests, process crashes, restarts and power losses in any order -----

  datatype Action =
    | Deliver(request: Request, plan: Plan, reply: Reply)
    | Kill
    | Start
    | PowerLoss(survivor: File, left: File)

  ghost predicate Step(s: State, action: Action, t: State) {
    match action
    case Deliver(request, plan, reply) => s.live && Posted(s, request, plan, t, reply)
    case Kill => s.live && t == s.(live := false, memory := map[])
    case Start => !s.live && Load(s.visible).Some? && t == s.(live := true, memory := Load(s.visible).value)
    case PowerLoss(survivor, left) =>
      survivor in s.survivors && Leaves(survivor, left) && t == State(false, map[], left, {left})
  }

  /** The receiver is down and its store is settled: what an earlier, complete run leaves. */
  ghost predicate Initial(s: State) {
    !s.live && s.memory == map[] && s.survivors == {s.visible} && Settled(s.visible)
  }

  ghost predicate IsRun(states: seq<State>, actions: seq<Action>) {
    && |states| == |actions| + 1
    && Initial(states[0])
    && forall i | 0 <= i < |actions| :: Step(states[i], actions[i], states[i + 1])
  }

  predicate Acknowledges(action: Action, event: Event) {
    action.Deliver? && action.reply == Status(204) && Admit(action.request) == Ok(event)
  }

  lemma StepKeepsInv(s: State, action: Action, t: State)
    requires Inv(s) && Step(s, action, t)
    ensures Inv(t)
  {
    if action.Deliver? && Admit(action.request).Ok? {
      var event := Admit(action.request).value;
      assert Key(event) in s.memory && s.memory[Key(event)] == event ==> s.memory[Key(event) := event] == s.memory;
    }
  }

  lemma {:induction false} RunKeepsInv(states: seq<State>, actions: seq<Action>, i: nat)
    requires IsRun(states, actions) && i < |states|
    ensures Inv(states[i])
  {
    if i > 0 {
      RunKeepsInv(states, actions, i - 1);
      StepKeepsInv(states[i - 1], actions[i - 1], states[i]);
    }
  }

  lemma KeyIsInjective(a: Event, b: Event)
    ensures Key(a) == Key(b) <==> a.id == b.id
  {
    var prefix := SOURCE + "\n";
    assert Key(a)[|prefix|..] == a.id && Key(b)[|prefix|..] == b.id;
  }

  /** No step unbinds, replaces or makes losable what no later start can lack. */
  lemma StepKeepsDurable(s: State, action: Action, t: State, event: Event)
    requires Inv(s) && Step(s, action, t) && Durable(s, event)
    ensures Durable(t, event)
  {
    if action.PowerLoss? {
      assert Settled(action.survivor);
    }
  }

  /** An answer of 204 is given only when no later start can lack the event. */
  lemma AcknowledgedIsDurable(s: State, action: Action, t: State, event: Event)
    requires Inv(s) && Step(s, action, t) && Acknowledges(action, event)
    ensures Durable(t, event)
  {
  }

  lemma {:induction false} DurableForever(states: seq<State>, actions: seq<Action>, i: nat, j: nat, event: Event)
    requires IsRun(states, actions) && i <= j < |states| && Durable(states[i], event)
    ensures Durable(states[j], event)
    decreases j
  {
    if i < j {
      DurableForever(states, actions, i, j - 1, event);
      RunKeepsInv(states, actions, j - 1);
      StepKeepsDurable(states[j - 1], actions[j - 1], states[j], event);
    }
  }

  /** Whatever follows an acknowledgement, every store a later start can load holds the same event. */
  lemma AcknowledgedSurvives(states: seq<State>, actions: seq<Action>, i: nat, j: nat, event: Event)
    requires IsRun(states, actions) && i < j < |states| && Acknowledges(actions[i], event)
    ensures Holds(states[j].visible, event)
    ensures forall file <- states[j].survivors :: Holds(file, event)
    ensures states[j].live ==> Key(event) in states[j].memory && states[j].memory[Key(event)] == event
  {
    RunKeepsInv(states, actions, i);
    AcknowledgedIsDurable(states[i], actions[i], states[i + 1], event);
    DurableForever(states, actions, i + 1, j, event);
    RunKeepsInv(states, actions, j);
  }

  /**
   The directory barrier is what makes an event durable, and nothing else does: after a request for
   it an event cannot be lost exactly when it could not be lost before, or the barrier passed.
   */
  lemma DurableExactlyAfterBarrier(s: State, request: Request, plan: Plan, reply: Reply, t: State, event: Event)
    requires Inv(s) && s.live && Posted(s, request, plan, t, reply) && Admit(request) == Ok(event)
    ensures Durable(t, event) <==>
            Durable(s, event) ||
            (plan.read.Good? && !Conflicts(s.memory, event) && !Full(s.memory, event) && Barrier(s.memory, event, plan))
  {
    if !Durable(s, event) && Durable(t, event) {
      assert s.visible in s.survivors;
    } else if Durable(s, event) {
      StepKeepsDurable(s, Deliver(request, plan, reply), t, event);
    }
  }

  /** Until a power loss, a binding that is visible is the binding that stays visible. */
  lemma VisibleBindingStays(s: State, action: Action, t: State, event: Event)
    requires Inv(s) && Step(s, action, t) && !action.PowerLoss? && Holds(s.visible, event)
    ensures Holds(t.visible, event)
  {
  }

  /** A conflicting redelivery is refused without effect, and an identical one binds nothing new. */
  lemma RedeliveryBindsNothing(s: State, request: Request, plan: Plan, reply: Reply, t: State, event: Event)
    requires Inv(s) && s.live && Posted(s, request, plan, t, reply)
    requires Admit(request) == Ok(event) && Key(event) in s.memory
    ensures t.visible == s.visible && (t.live ==> t.memory == s.memory)
    ensures plan.read.Good? && s.memory[Key(event)] != event ==> t == s && reply == Status(409)
    ensures reply == Status(204) ==> s.memory[Key(event)] == event && t.survivors == {t.visible}
  {
    if s.memory[Key(event)] == event {
      assert s.memory[Key(event) := event] == s.memory;
    }
  }

  /** Started within the bound, no run ever binds more than the capacity, on disk or in memory. */
  lemma {:induction false} CapacityIsKept(states: seq<State>, actions: seq<Action>, i: nat)
    requires IsRun(states, actions) && i < |states| && |Load(states[0].visible).value| <= CAPACITY
    ensures forall file <- states[i].survivors :: Load(file).Some? && |Load(file).value| <= CAPACITY
    ensures |states[i].memory| <= CAPACITY
  {
    RunKeepsInv(states, actions, i);
    if i > 0 {
      CapacityIsKept(states, actions, i - 1);
      RunKeepsInv(states, actions, i - 1);
    }
  }

  /** A store within the bound with a free place binds a new event, and answers 204, when every call works. */
  lemma NewEventIsAccepted(s: State, request: Request, plan: Plan, reply: Reply, t: State, event: Event)
    requires Inv(s) && s.live && Posted(s, request, plan, t, reply) && Admit(request) == Ok(event)
    requires plan.read.Good? && Storing(plan).Good? && Syncing(plan).Good?
    ensures reply == Status(204) <==> !Conflicts(s.memory, event) && !Full(s.memory, event)
    ensures reply == Status(204) ==> t.memory == s.memory[Key(event) := event] && t.survivors == {t.visible}
  {
  }
}
