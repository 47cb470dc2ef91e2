/**
 The bounded agent loop: one model call and its selected tool call per activation, then a checkpoint
 with the transcript so far.
 */
module AgentRecovery {
  import opened Common
  import opened Journal

  const MAX_TURNS := 3

  datatype Order = Order(orderId: string, region: string, status: string, deliveryDays: nat)

  datatype Arguments = Arguments(orderId: string, region: Option<string>)

  /** `arguments` is None when they do not bind to the tool's signature. */
  datatype Response =
    | Answer(text: string)
    | ToolCall(callId: string, name: string, arguments: Option<Arguments>)
    | Unsupported(kind: string)

  datatype Message =
    | User(orderId: string)
    | Assistant(response: Response)
    | Tool(callId: string, result: Order)

  /** The effective arguments of a call, defaults included. */
  datatype Request = ModelRequest(messages: seq<Message>) | ToolRequest(orderId: string, region: string)

  datatype Value = ModelValue(response: Response) | ToolValue(order: Order)

  datatype AgentState = AgentState(round: nat, messages: seq<Message>)

  /** `orderId` is None when the event has no string under that name. */
  datatype Turn = Turn(orderId: Option<string>, state: Option<AgentState>)

  datatype Result = Completed(answer: string, turns: nat) | Failed(kind: string)

  type Log = seq<Entry<Turn, string, Request, Value, Result>>

  predicate IsIdChar(c: char) {
    'A' <= c <= 'Z' || 'a' <= c <= 'z' || '0' <= c <= '9' || c == '_' || c == '-'
  }

  predicate ValidOrderId(orderId: Option<string>) {
    orderId.Some? && 1 <= |orderId.value| <= 64 && forall c <- orderId.value :: IsIdChar(c)
  }

  function ModelKey(round: nat): string
    requires round < 10
  {
    "model:turn:" + [Digit(round)]
  }

  function ToolKey(round: nat, callId: string): string
    requires round < 10
  {
    "tool:turn:" + [Digit(round)] + ":" + callId
  }

  function Effective(arguments: Arguments): Request {
    ToolRequest(arguments.orderId, if arguments.region.Some? then arguments.region.value else "us-east")
  }

  function Current(turn: Turn): AgentState
    requires turn.orderId.Some?
  {
    if turn.state.Some? then turn.state.value else AgentState(0, [User(turn.orderId.value)])
  }

  function Next(state: AgentState, response: Response, result: Order): AgentState
    requires response.ToolCall?
  {
    AgentState(state.round + 1, state.messages + [Assistant(response), Tool(response.callId, result)])
  }

  /** The entrypoint, as far as the records of its activation take it. */
  function RunTurn(turn: Turn, journal: map<string, Record<Request, Value>>): Outcome<Turn, string, Request, Result> {
    if !ValidOrderId(turn.orderId) then Finish(Failed("invalid_input"))
    else
      var state := Current(turn);
      if state.round >= MAX_TURNS then Finish(Failed("turn_limit"))
      else
        var request := ModelRequest(state.messages);
        var found: Lookup<Value> := Recorded(journal, ModelKey(state.round), request);
        match found
        case Absent => Call(ModelKey(state.round), request)
        case Mismatch => Raise
        case Found(ToolValue(_)) => Raise
        case Found(ModelValue(response)) => RunTool(turn, state, response, journal)
  }

  function RunTool(turn: Turn, state: AgentState, response: Response, journal: map<string, Record<Request, Value>>)
    : Outcome<Turn, string, Request, Result>
    requires state.round < MAX_TURNS
  {
    match response
    case Answer(text) => Finish(Completed(text, state.round + 1))
    case Unsupported(_) => Finish(Failed("unsupported_model_response"))
    case ToolCall(callId, name, arguments) =>
      if name != "lookup_order" then Finish(Failed("unsupported_model_response"))
      else if arguments.None? then Raise
      else
        var request := Effective(arguments.value);
        var found: Lookup<Value> := Recorded(journal, ToolKey(state.round, callId), request);
        match found
        case Absent => Call(ToolKey(state.round, callId), request)
        case Mismatch => Raise
        case Found(ModelValue(_)) => Raise
        case Found(ToolValue(order)) => Checkpoint(turn.(state := Some(Next(state, response, order))))
  }

  /** Any adapter: a model call returns some response and a tool call some order. */
  predicate Answers(request: Request, value: Value) {
    request.ModelRequest? <==> value.ModelValue?
  }

  function Agent(): Program<Turn, string, Request, Value, Result> {
    Program((turn, journal) => RunTurn(turn, journal), (request, value) => Answers(request, value),
            (parked, resumed) => parked == resumed)
  }

  function Start(orderId: Option<string>): Turn {
    Turn(orderId, None)
  }

  // ----- The conversation the agent is meant to hold, without a journal, keys or crashes -----

  /** `Stuck` is a conversation whose tool call cannot be made: the activation raises every time. */
  datatype Ending = Ended(result: Result) | Stuck

  function Converse(models: nat -> Response, tools: nat -> Order, state: AgentState): Ending
    decreases MAX_TURNS - state.round
  {
    if state.round >= MAX_TURNS then Ended(Failed("turn_limit"))
    else
      var response := models(state.round);
      if response.Answer? then Ended(Completed(response.text, state.round + 1))
      else if response.ToolCall? && response.name == "lookup_order" then
        if response.arguments.None? then Stuck
        else Converse(models, tools, Next(state, response, tools(state.round)))
      else Ended(Failed("unsupported_model_response"))
  }

  /** The transcript after some rounds of the conversation. */
  function Transcript(orderId: string, models: nat -> Response, tools: nat -> Order, round: nat): seq<Message> {
    if round == 0 then [User(orderId)]
    else
      var response := models(round - 1);
      Transcript(orderId, models, tools, round - 1) +
      [Assistant(response), Tool(if response.ToolCall? then response.callId else "", tools(round - 1))]
  }

  // ----- What holds in every state of every run -----

  /** A committed response is the one that `models` or `tools` gives for its round. */
  ghost predicate EntryAgrees(
    entry: Entry<Turn, string, Request, Value, Result>, models: nat -> Response, tools: nat -> Order)
  {
    entry.Committed? ==>
      && (forall round: nat | round < MAX_TURNS && entry.key == ModelKey(round) ::
            entry.record.value == ModelValue(models(round)))
      && (forall round: nat, callId: string | round < MAX_TURNS && entry.key == ToolKey(round, callId) ::
            entry.record.value == ToolValue(tools(round)))
  }

  ghost predicate Agrees(log: Log, models: nat -> Response, tools: nat -> Order) {
    forall entry <- log :: EntryAgrees(entry, models, tools)
  }

  predicate Supported(models: nat -> Response, round: nat) {
    models(round).ToolCall? && models(round).name == "lookup_order" && models(round).arguments.Some?
  }

  /** The records of the current activation are those that the conversation calls for. */
  ghost predicate JournalAgrees(
    state: AgentState, journal: map<string, Record<Request, Value>>, models: nat -> Response, tools: nat -> Order)
  {
    state.round < MAX_TURNS &&
    var modelKey := ModelKey(state.round);
    var modelRecord := Record(ModelRequest(state.messages), ModelValue(models(state.round)));
    || journal == map[]
    || journal == map[modelKey := modelRecord]
    || (Supported(models, state.round) &&
        journal == map[modelKey := modelRecord,
                       ToolKey(state.round, models(state.round).callId) :=
                         Record(Effective(models(state.round).arguments.value), ToolValue(tools(state.round)))])
  }

  /** A database state of a run whose responses are those of `models` and `tools`. */
  ghost predicate OnTrack(
    orderId: Option<string>, d: Durable<Turn, string, Request, Value, Result>, models: nat -> Response,
    tools: nat -> Order)
  {
    && d.checkpoint.orderId == orderId
    && if !ValidOrderId(orderId) then
         d.checkpoint.state.None? && d.journal == map[] &&
           (d.finished.Some? ==> d.finished.value == Failed("invalid_input"))
       else
         var state := Current(d.checkpoint);
         && state.round <= MAX_TURNS
         && state.messages == Transcript(orderId.value, models, tools, state.round)
         && |state.messages| == 1 + 2 * state.round
         && (forall round: nat | round < state.round :: Supported(models, round))
         && (d.journal == map[] || JournalAgrees(state, d.journal, models, tools))
         && (d.finished.Some? ==> Ended(d.finished.value) == Converse(models, tools, state))
         && Converse(models, tools, AgentState(0, [User(orderId.value)])) == Converse(models, tools, state)
  }

  lemma KeysDiffer(round: nat, other: nat, callId: string, otherId: string)
    requires round < 10 && other < 10
    ensures ModelKey(round) == ModelKey(other) ==> round == other
    ensures ToolKey(round, callId) == ToolKey(other, otherId) ==> round == other && callId == otherId
    ensures ModelKey(round) != ToolKey(other, otherId)
  {
    assert ModelKey(round)[11] == Digit(round) && ModelKey(other)[11] == Digit(other);
    assert ToolKey(round, callId)[10] == Digit(round) && ToolKey(other, otherId)[10] == Digit(other);
    assert ToolKey(round, callId)[12..] == callId && ToolKey(other, otherId)[12..] == otherId;
    assert ModelKey(round)[0] == 'm' && ToolKey(other, otherId)[0] == 't';
  }

  lemma EntryKeepsTrack(
    orderId: Option<string>, d: Durable<Turn, string, Request, Value, Result>,
    entry: Entry<Turn, string, Request, Value, Result>, models: nat -> Response, tools: nat -> Order)
    requires OnTrack(orderId, d, models, tools) && Allowed(Agent(), d, entry) && EntryAgrees(entry, models, tools)
    ensures OnTrack(orderId, Apply(d, entry), models, tools)
  {
    if ValidOrderId(orderId) {
      var state := Current(d.checkpoint);
      if state.round < MAX_TURNS {
        var callId := if models(state.round).ToolCall? then models(state.round).callId else "";
        KeysDiffer(state.round, state.round, callId, callId);
      }
    }
  }

  lemma {:induction false} LogKeepsTrack(
    orderId: Option<string>, log: Log, models: nat -> Response, tools: nat -> Order)
    requires Legal(Agent(), Start(orderId), log) && Agrees(log, models, tools)
    ensures OnTrack(orderId, Replay(Start(orderId), log), models, tools)
  {
    if log != [] {
      var front, last := log[..|log| - 1], log[|log| - 1];
      assert last in log;
      LogKeepsTrack(orderId, front, models, tools);
      EntryKeepsTrack(orderId, Replay(Start(orderId), front), last, models, tools);
    }
  }

  // ----- How often an operation commits -----

  function KeyRound(key: string): int
    requires |key| > 11
  {
    (if key[0] == 'm' then key[11] else key[10]) as int - '0' as int
  }

  function Commits(log: Log, kind: char): nat {
    if log == [] then 0
    else
      var last := log[|log| - 1];
      Commits(log[..|log| - 1], kind) +
      (if last.Committed? && last.key != "" && last.key[0] == kind then 1 else 0)
  }

  function Resumptions(log: Log): nat {
    if log == [] then 0 else Resumptions(log[..|log| - 1]) + (if log[|log| - 1].Resumed? then 1 else 0)
  }

  /** The operations of a log: those of the current round are in the journal, the others are of earlier rounds. */
  ghost predicate PlacedKeys(log: Log, d: Durable<Turn, string, Request, Value, Result>) {
    && d.checkpoint.orderId.Some?
    && var state := Current(d.checkpoint);
       forall entry <- log | entry.Committed? ::
         && |entry.key| > 11 && entry.key[0] in {'m', 't'} && KeyRound(entry.key) <= state.round
         && (KeyRound(entry.key) == state.round ==> entry.key in d.journal)
  }

  ghost predicate PlacedCounts(log: Log, d: Durable<Turn, string, Request, Value, Result>) {
    && d.checkpoint.orderId.Some?
    && var state := Current(d.checkpoint);
    && Resumptions(log) == state.round
    && |log| == 2 * state.round + |d.journal| + state.round + (if d.finished.Some? then 1 else 0)
    && Commits(log, 'm') == state.round + (if d.journal == map[] then 0 else 1)
    && Commits(log, 't') == state.round + (if |d.journal| <= 1 then 0 else 1)
  }

  ghost predicate Placed(log: Log, d: Durable<Turn, string, Request, Value, Result>) {
    PlacedKeys(log, d) && PlacedCounts(log, d)
  }

  lemma KeyShapes(round: nat, callId: string)
    requires round < 10
    ensures ModelKey(round)[0] == 'm' && KeyRound(ModelKey(round)) == round
    ensures ToolKey(round, callId)[0] == 't' && KeyRound(ToolKey(round, callId)) == round
  {
    assert ModelKey(round)[11] == Digit(round);
    assert ToolKey(round, callId)[10] == Digit(round);
  }

  lemma KeysAfter(
    orderId: Option<string>, d: Durable<Turn, string, Request, Value, Result>, log: Log,
    entry: Entry<Turn, string, Request, Value, Result>, models: nat -> Response, tools: nat -> Order)
    requires ValidOrderId(orderId) && OnTrack(orderId, d, models, tools) && PlacedKeys(log, d)
    requires Allowed(Agent(), d, entry)
    ensures PlacedKeys(log + [entry], Apply(d, entry))
  {
    var state := Current(d.checkpoint);
    assert (log + [entry])[..|log|] == log;
    if state.round < MAX_TURNS {
      KeyShapes(state.round, if models(state.round).ToolCall? then models(state.round).callId else "");
    }
  }

  lemma CountsAfter(
    orderId: Option<string>, d: Durable<Turn, string, Request, Value, Result>, log: Log,
    entry: Entry<Turn, string, Request, Value, Result>, models: nat -> Response, tools: nat -> Order)
    requires ValidOrderId(orderId) && OnTrack(orderId, d, models, tools) && PlacedCounts(log, d)
    requires Allowed(Agent(), d, entry)
    ensures PlacedCounts(log + [entry], Apply(d, entry))
  {
    var state := Current(d.checkpoint);
    assert (log + [entry])[..|log|] == log;
    if state.round < MAX_TURNS {
      KeyShapes(state.round, if models(state.round).ToolCall? then models(state.round).callId else "");
    }
  }

  lemma PlacedAfter(
    orderId: Option<string>, d: Durable<Turn, string, Request, Value, Result>, log: Log,
    entry: Entry<Turn, string, Request, Value, Result>, models: nat -> Response, tools: nat -> Order)
    requires ValidOrderId(orderId) && OnTrack(orderId, d, models, tools) && Placed(log, d)
    requires Allowed(Agent(), d, entry)
    ensures Placed(log + [entry], Apply(d, entry))
  {
    KeysAfter(orderId, d, log, entry, models, tools);
    CountsAfter(orderId, d, log, entry, models, tools);
  }

  /** What commits next is the first of its kind in its round, under a key that no entry has used. */
  lemma NewKeyIsNew(
    orderId: Option<string>, d: Durable<Turn, string, Request, Value, Result>, log: Log,
    entry: Entry<Turn, string, Request, Value, Result>, models: nat -> Response, tools: nat -> Order)
    requires ValidOrderId(orderId) && OnTrack(orderId, d, models, tools) && Placed(log, d)
    requires Allowed(Agent(), d, entry) && entry.Committed?
    ensures var round := Current(d.checkpoint).round;
      round < MAX_TURNS &&
      ((entry.key == ModelKey(round) && entry.record.value.ModelValue?) ||
       (models(round).ToolCall? && entry.key == ToolKey(round, models(round).callId) && entry.record.value.ToolValue?))
    ensures forall e <- log | e.Committed? ::
      |e.key| > 11 && e.key != entry.key &&
        (KeyRound(e.key) == Current(d.checkpoint).round ==> e.key[0] != entry.key[0])
  {
    var round := Current(d.checkpoint).round;
    KeyShapes(round, if models(round).ToolCall? then models(round).callId else "");
  }

  lemma AddResponse(
    log: Log, entry: Entry<Turn, string, Request, Value, Result>, round: nat, models: nat -> Response,
    tools: nat -> Order)
    returns (newModels: nat -> Response, newTools: nat -> Order)
    requires Agrees(log, models, tools) && entry.Committed? && round < MAX_TURNS
    requires (entry.key == ModelKey(round) && entry.record.value.ModelValue?) ||
             ((exists callId :: entry.key == ToolKey(round, callId)) && entry.record.value.ToolValue?)
    requires forall e <- log | e.Committed? ::
      |e.key| > 11 && (KeyRound(e.key) == round ==> e.key[0] != entry.key[0])
    ensures Agrees(log + [entry], newModels, newTools)
  {
    newModels, newTools := models, tools;
    KeyShapes(round, "");
    if entry.key == ModelKey(round) {
      newModels := (i: nat) => if i == round then entry.record.value.response else models(i);
    } else {
      newTools := (i: nat) => if i == round then entry.record.value.order else tools(i);
      var callId :| entry.key == ToolKey(round, callId);
      KeyShapes(round, callId);
    }
    forall e | e in log + [entry]
      ensures EntryAgrees(e, newModels, newTools)
    {
      forall r: nat | e.Committed? && r < MAX_TURNS && e.key == ModelKey(r)
        ensures e.record.value == ModelValue(newModels(r))
      {
        KeyShapes(r, "");
        assert e in log ==> EntryAgrees(e, models, tools);
      }
      forall r: nat, callId: string | e.Committed? && r < MAX_TURNS && e.key == ToolKey(r, callId)
        ensures e.record.value == ToolValue(newTools(r))
      {
        KeyShapes(r, callId);
        assert e in log ==> EntryAgrees(e, models, tools);
      }
    }
  }

  /**
   The committed responses of a run, read as functions of the round: there is exactly one of each kind
   for every round, so that the log of any run agrees with some `models` and `tools`.
   */
  lemma {:induction false} CommittedResponses(orderId: Option<string>, log: Log)
    returns (models: nat -> Response, tools: nat -> Order)
    requires Legal(Agent(), Start(orderId), log)
    ensures Agrees(log, models, tools)
    ensures ValidOrderId(orderId) ==> Placed(log, Replay(Start(orderId), log))
    ensures !ValidOrderId(orderId) ==> forall entry <- log :: !entry.Committed?
  {
    if log == [] {
      models, tools := _ => Unsupported(""), _ => Order("", "", "", 0);
    } else {
      var front, last := log[..|log| - 1], log[|log| - 1];
      var d := Replay(Start(orderId), front);
      FrontAndLast(log);
      models, tools := CommittedResponses(orderId, front);
      LogKeepsTrack(orderId, front, models, tools);
      if ValidOrderId(orderId) {
        PlacedAfter(orderId, d, front, last, models, tools);
        if last.Committed? {
          NewKeyIsNew(orderId, d, front, last, models, tools);
          models, tools := AddResponse(front, last, Current(d.checkpoint).round, models, tools);
        }
      }
    }
  }

  // ----- The main results, about runs with crashes -----

  ghost predicate AgentRun(
    orderId: Option<string>, states: seq<State<Turn, string, Request, Value, Result>>, events: seq<Event<Turn, Value>>)
  {
    IsRun(Agent(), Start(orderId), states, events)
  }

  /**
   Wherever the run's processes die, and whatever the lost executions returned, its checkpoint is a
   prefix of the one conversation over the committed responses, and its result is that conversation's.
   */
  lemma FinishedRunIsTheConversation(
    orderId: Option<string>, states: seq<State<Turn, string, Request, Value, Result>>, events: seq<Event<Turn, Value>>,
    i: nat, models: nat -> Response, tools: nat -> Order)
    requires AgentRun(orderId, states, events) && i < |states|
    requires ValidOrderId(orderId) && Agrees(states[i].log, models, tools)
    ensures states[i].durable.checkpoint.orderId == orderId
    ensures var state := Current(states[i].durable.checkpoint);
      state.messages == Transcript(orderId.value, models, tools, state.round) && |state.messages| == 1 + 2 * state.round
    ensures states[i].durable.finished.Some? ==>
      Ended(states[i].durable.finished.value) == Converse(models, tools, AgentState(0, [User(orderId.value)]))
  {
    CrashesAreInvisible(Agent(), Start(orderId), states, events, i);
    LogKeepsTrack(orderId, states[i].log, models, tools);
  }

  /** The committed responses decide the result: no crash, and no execution that was lost, has a say in it. */
  lemma SameResponsesSameResult(
    orderId: Option<string>,
    states: seq<State<Turn, string, Request, Value, Result>>, events: seq<Event<Turn, Value>>, i: nat,
    others: seq<State<Turn, string, Request, Value, Result>>, otherEvents: seq<Event<Turn, Value>>, j: nat,
    models: nat -> Response, tools: nat -> Order)
    requires AgentRun(orderId, states, events) && i < |states| && states[i].durable.finished.Some?
    requires AgentRun(orderId, others, otherEvents) && j < |others| && others[j].durable.finished.Some?
    requires Agrees(states[i].log, models, tools) && Agrees(others[j].log, models, tools)
    ensures states[i].durable.finished == others[j].durable.finished
  {
    CrashesAreInvisible(Agent(), Start(orderId), states, events, i);
    CrashesAreInvisible(Agent(), Start(orderId), others, otherEvents, j);
    LogKeepsTrack(orderId, states[i].log, models, tools);
    LogKeepsTrack(orderId, others[j].log, models, tools);
  }

  /** Bounded work: so many commits of each kind, checkpoints and transactions, over all attempts together. */
  lemma CommitsAreBounded(
    orderId: Option<string>, states: seq<State<Turn, string, Request, Value, Result>>, events: seq<Event<Turn, Value>>,
    i: nat)
    requires AgentRun(orderId, states, events) && i < |states| && ValidOrderId(orderId)
    ensures Commits(states[i].log, 'm') <= MAX_TURNS && Commits(states[i].log, 't') <= MAX_TURNS
    ensures Resumptions(states[i].log) <= MAX_TURNS
    ensures |states[i].log| <= 3 * MAX_TURNS + 1
  {
    CrashesAreInvisible(Agent(), Start(orderId), states, events, i);
    var models, tools := CommittedResponses(orderId, states[i].log);
    LogKeepsTrack(orderId, states[i].log, models, tools);
  }

  /** Over a whole run, and not only in one activation, no key commits twice. */
  lemma KeysCommitOnce(
    orderId: Option<string>, states: seq<State<Turn, string, Request, Value, Result>>, events: seq<Event<Turn, Value>>,
    n: nat, i: nat, j: nat)
    requires AgentRun(orderId, states, events) && n < |states|
    requires i < j < |states[n].log| && states[n].log[i].Committed? && states[n].log[j].Committed?
    ensures states[n].log[i].key != states[n].log[j].key
  {
    var log := states[n].log;
    CrashesAreInvisible(Agent(), Start(orderId), states, events, n);
    PrefixIsLegal(Agent(), Start(orderId), log, j);
    assert log[i] in log[..j];
    var models, tools := CommittedResponses(orderId, log[..j]);
    LogKeepsTrack(orderId, log[..j], models, tools);
    if ValidOrderId(orderId) {
      NewKeyIsNew(orderId, Replay(Start(orderId), log[..j]), log[..j], log[j], models, tools);
    }
  }

  /** The model selected the tool with arguments that do not bind to its signature. */
  predicate Unbindable(d: Durable<Turn, string, Request, Value, Result>)
    requires d.checkpoint.orderId.Some?
  {
    var round := Current(d.checkpoint).round;
    round < MAX_TURNS && ModelKey(round) in d.journal &&
    var value := d.journal[ModelKey(round)].value;
    value.ModelValue? && value.response.ToolCall? && value.response.name == "lookup_order" &&
    value.response.arguments.None?
  }

  lemma TrackedCodeRuns(
    orderId: Option<string>, d: Durable<Turn, string, Request, Value, Result>, models: nat -> Response,
    tools: nat -> Order)
    requires ValidOrderId(orderId) && OnTrack(orderId, d, models, tools)
    ensures RunTurn(d.checkpoint, d.journal).Raise? <==> Unbindable(d)
  {
    var round := Current(d.checkpoint).round;
    if round < MAX_TURNS {
      KeyShapes(round, if models(round).ToolCall? then models(round).callId else "");
    }
  }

  /** A replay never finds a changed binding: the code of a run raises exactly for a call that cannot be made. */
  lemma ReplayNeverMismatches(
    orderId: Option<string>, states: seq<State<Turn, string, Request, Value, Result>>, events: seq<Event<Turn, Value>>,
    i: nat)
    requires AgentRun(orderId, states, events) && i < |states| && ValidOrderId(orderId)
    ensures states[i].durable.checkpoint.orderId == orderId
    ensures RunTurn(states[i].durable.checkpoint, states[i].durable.journal).Raise? <==> Unbindable(states[i].durable)
  {
    CrashesAreInvisible(Agent(), Start(orderId), states, events, i);
    var models, tools := CommittedResponses(orderId, states[i].log);
    LogKeepsTrack(orderId, states[i].log, models, tools);
    TrackedCodeRuns(orderId, states[i].durable, models, tools);
  }

  // ----- Every run can finish, unless a call cannot be made -----

  /** How far an activation is from a result, when every model answers from now on. */
  function Distance(step: Outcome<Turn, string, Request, Result>): nat {
    match step
    case Finish(_) => 0
    case Call(_, request) => if request.ModelRequest? then 1 else 3
    case Checkpoint(_) => 2
    case Raise => 4
  }

  /** The entry that brings an activation nearer to a result. */
  function Nearer(step: Outcome<Turn, string, Request, Result>): Entry<Turn, string, Request, Value, Result>
    requires !step.Raise?
  {
    match step
    case Finish(result) => Finished(result)
    case Call(key, request) =>
      Committed(key, Record(request,
        if request.ModelRequest? then ModelValue(Answer("")) else ToolValue(Order("", "", "", 0))))
    case Checkpoint(next) => Resumed(next)
  }

  lemma NearerIsNearer(d: Durable<Turn, string, Request, Value, Result>)
    requires d.finished.None? && !RunTurn(d.checkpoint, d.journal).Raise?
    requires d.checkpoint.orderId.Some?
    ensures var step := RunTurn(d.checkpoint, d.journal); var after := Apply(d, Nearer(step));
      && Allowed(Agent(), d, Nearer(step))
      && (step.Finish? ==> after.finished.Some?)
      && (!step.Finish? ==>
            && after.finished.None? && after.checkpoint.orderId.Some?
            && !RunTurn(after.checkpoint, after.journal).Raise?
            && Distance(RunTurn(after.checkpoint, after.journal)) < Distance(step))
  {
    var round := Current(d.checkpoint).round;
    if round < MAX_TURNS {
      var key := ModelKey(round);
      if key in d.journal && d.journal[key].value.ModelValue? && d.journal[key].value.response.ToolCall? {
        KeysDiffer(round, round, d.journal[key].value.response.callId, "");
      }
    }
  }

  /** A log that does not raise can be continued to a result. */
  lemma {:induction false} LogCanFinish(orderId: string, log: Log) returns (more: Log)
    requires Legal(Agent(), Start(Some(orderId)), log)
    requires var d := Replay(Start(Some(orderId)), log);
      d.finished.None? && d.checkpoint.orderId.Some? && !RunTurn(d.checkpoint, d.journal).Raise?
    ensures Legal(Agent(), Start(Some(orderId)), log + more)
    ensures Replay(Start(Some(orderId)), log + more).finished.Some?
    decreases var d := Replay(Start(Some(orderId)), log); Distance(RunTurn(d.checkpoint, d.journal))
  {
    var d := Replay(Start(Some(orderId)), log);
    var entry := Nearer(RunTurn(d.checkpoint, d.journal));
    NearerIsNearer(d);
    ExtendLog(Agent(), Start(Some(orderId)), log, entry);
    if entry.Finished? {
      more := [entry];
    } else {
      var rest := LogCanFinish(orderId, log + [entry]);
      Regrouped(log, [entry], rest);
      more := [entry] + rest;
    }
  }

  /** A continuation of a run that has a result. */
  ghost predicate FinishesLater(
    orderId: Option<string>, states: seq<State<Turn, string, Request, Value, Result>>, events: seq<Event<Turn, Value>>)
  {
    exists longer: seq<State<Turn, string, Request, Value, Result>>, later: seq<Event<Turn, Value>> ::
      AgentRun(orderId, longer, later) && states <= longer && events <= later &&
      longer[|later|].durable.finished.Some?
  }

  /** From every reachable state some continuation finishes, exactly unless the run is at a call that cannot be made. */
  lemma CanFinishUnlessUnbindable(
    orderId: string, states: seq<State<Turn, string, Request, Value, Result>>, events: seq<Event<Turn, Value>>)
    requires AgentRun(Some(orderId), states, events) && ValidOrderId(Some(orderId))
    requires states[|events|].durable.finished.None?
    ensures states[|events|].durable.checkpoint.orderId.Some?
    ensures FinishesLater(Some(orderId), states, events) <==> !Unbindable(states[|events|].durable)
  {
    var start, n := Start(Some(orderId)), |events|;
    ReplayNeverMismatches(Some(orderId), states, events, n);
    CrashesAreInvisible(Agent(), start, states, events, n);
    if !Unbindable(states[n].durable) {
      var more := LogCanFinish(orderId, states[n].log);
      var longer, later := RunsOn(Agent(), start, states, events, more);
      CrashesAreInvisible(Agent(), start, longer, later, |later|);
    } else if FinishesLater(Some(orderId), states, events) {
      var longer: seq<State<Turn, string, Request, Value, Result>>, later: seq<Event<Turn, Value>> :|
        AgentRun(Some(orderId), longer, later) && states <= longer && events <= later &&
        longer[|later|].durable.finished.Some?;
      StuckStays(orderId, longer, later, n, |later|);
    }
  }

  lemma {:induction false} StuckStays(
    orderId: string, states: seq<State<Turn, string, Request, Value, Result>>, events: seq<Event<Turn, Value>>,
    i: nat, j: nat)
    requires AgentRun(Some(orderId), states, events) && i <= j < |states|
    requires states[i].durable.finished.None? && RunTurn(states[i].durable.checkpoint, states[i].durable.journal).Raise?
    ensures states[j].durable == states[i].durable
    decreases j
  {
    if i < j {
      StuckStays(orderId, states, events, i, j - 1);
      CrashesAreInvisible(Agent(), Start(Some(orderId)), states, events, j - 1);
      StepKeepsInv(Agent(), Start(Some(orderId)), states[j - 1], events[j - 1], states[j]);
    }
  }

  /** An invalid order id fails without a single call. */
  lemma InvalidInputCallsNothing(
    orderId: Option<string>, states: seq<State<Turn, string, Request, Value, Result>>, events: seq<Event<Turn, Value>>,
    i: nat)
    requires AgentRun(orderId, states, events) && i < |states| && !ValidOrderId(orderId)
    ensures forall entry <- states[i].log :: !entry.Committed?
    ensures states[i].durable.finished.Some? ==> states[i].durable.finished.value == Failed("invalid_input")
  {
    CrashesAreInvisible(Agent(), Start(orderId), states, events, i);
    var models, tools := CommittedResponses(orderId, states[i].log);
    LogKeepsTrack(orderId, states[i].log, models, tools);
  }

  // ----- The scripted model and the in-process tool -----

  function DeliveryText(orderId: string, status: string, days: string): string {
    "Order " + orderId + " is " + status + "; estimated delivery in " + days + " days."
  }

  function ScriptedModel(messages: seq<Message>): Response
    requires messages != [] && messages[0].User?
  {
    var last := messages[|messages| - 1];
    if last.Tool? then
      Answer(DeliveryText(last.result.orderId, last.result.status, Decimal(last.result.deliveryDays)))
    else ToolCall("lookup:0", "lookup_order", Some(Arguments(messages[0].orderId, None)))
  }

  function LookupOrder(orderId: string, region: string): Order {
    Order(orderId, region, "shipped", 2)
  }

  /** Every committed value is what the scripted model or the fixture tool returns for its request. */
  ghost predicate IsScripted(log: Log) {
    forall entry <- log | entry.Committed? ::
      match entry.record.request
      case ModelRequest(messages) =>
        messages != [] && messages[0].User? ==> entry.record.value == ModelValue(ScriptedModel(messages))
      case ToolRequest(orderId, region) => entry.record.value == ToolValue(LookupOrder(orderId, region))
  }

  function ScriptedAnswer(orderId: string): string {
    DeliveryText(orderId, "shipped", "2")
  }

  function ScriptedModels(orderId: string): nat -> Response {
    (round: nat) => if round == 0 then ToolCall("lookup:0", "lookup_order", Some(Arguments(orderId, None)))
                    else Answer(ScriptedAnswer(orderId))
  }

  function ScriptedTools(orderId: string): nat -> Order {
    (round: nat) => LookupOrder(orderId, "us-east")
  }

  lemma {:induction false} ScriptedLogAgrees(orderId: string, log: Log)
    requires ValidOrderId(Some(orderId)) && Legal(Agent(), Start(Some(orderId)), log) && IsScripted(log)
    ensures Agrees(log, ScriptedModels(orderId), ScriptedTools(orderId))
  {
    if log != [] {
      var front, last := log[..|log| - 1], log[|log| - 1];
      assert last in log && log == front + [last];
      var models, tools := ScriptedModels(orderId), ScriptedTools(orderId);
      ScriptedLogAgrees(orderId, front);
      LogKeepsTrack(Some(orderId), front, models, tools);
      ScriptedEntryAgrees(orderId, Replay(Start(Some(orderId)), front), last);
    }
  }

  lemma {:induction false} TranscriptStart(orderId: string, models: nat -> Response, tools: nat -> Order, round: nat)
    ensures var messages := Transcript(orderId, models, tools, round);
      |messages| == 1 + 2 * round && messages[0] == User(orderId)
  {
    if round > 0 {
      TranscriptStart(orderId, models, tools, round - 1);
    }
  }

  lemma ScriptedTranscript(orderId: string)
    ensures Transcript(orderId, ScriptedModels(orderId), ScriptedTools(orderId), 1) ==
            [User(orderId), Assistant(ScriptedModels(orderId)(0)), Tool("lookup:0", LookupOrder(orderId, "us-east"))]
    ensures ScriptedModel(Transcript(orderId, ScriptedModels(orderId), ScriptedTools(orderId), 1)) ==
            Answer(ScriptedAnswer(orderId))
  {
    assert Transcript(orderId, ScriptedModels(orderId), ScriptedTools(orderId), 0) == [User(orderId)];
    assert Decimal(2) == "2";
  }

  lemma ScriptedEntryAgrees(
    orderId: string, d: Durable<Turn, string, Request, Value, Result>,
    entry: Entry<Turn, string, Request, Value, Result>)
    requires ValidOrderId(Some(orderId))
    requires OnTrack(Some(orderId), d, ScriptedModels(orderId), ScriptedTools(orderId))
    requires Allowed(Agent(), d, entry) && IsScripted([entry])
    ensures EntryAgrees(entry, ScriptedModels(orderId), ScriptedTools(orderId))
  {
    var models, tools := ScriptedModels(orderId), ScriptedTools(orderId);
    var state := Current(d.checkpoint);
    assert entry in [entry];
    TranscriptStart(orderId, models, tools, state.round);
    assert state.round >= 2 ==> Supported(models, 1);
    if state.round == 1 {
      ScriptedTranscript(orderId);
    }
    forall r: nat | entry.Committed? && r < MAX_TURNS && entry.key == ModelKey(r)
      ensures entry.record.value == ModelValue(models(r))
    {
      KeyShapes(r, "");
      KeyShapes(state.round, "lookup:0");
    }
    forall r: nat, callId: string | entry.Committed? && r < MAX_TURNS && entry.key == ToolKey(r, callId)
      ensures entry.record.value == ToolValue(tools(r))
    {
      KeyShapes(r, callId);
      KeyShapes(state.round, "lookup:0");
    }
  }

  /** With the scripted model a valid run can only finish with the documented answer, after two turns. */
  lemma ScriptedRunAnswers(
    orderId: string, states: seq<State<Turn, string, Request, Value, Result>>, events: seq<Event<Turn, Value>>, i: nat)
    requires ValidOrderId(Some(orderId)) && AgentRun(Some(orderId), states, events) && i < |states|
    requires IsScripted(states[i].log) && states[i].durable.finished.Some?
    ensures states[i].durable.finished.value == Completed(ScriptedAnswer(orderId), 2)
  {
    CrashesAreInvisible(Agent(), Start(Some(orderId)), states, events, i);
    ScriptedLogAgrees(orderId, states[i].log);
    var models, tools := ScriptedModels(orderId), ScriptedTools(orderId);
    LogKeepsTrack(Some(orderId), states[i].log, models, tools);
    var first := AgentState(0, [User(orderId)]);
    assert Converse(models, tools, first) == Converse(models, tools, Next(first, models(0), tools(0)));
  }
}
