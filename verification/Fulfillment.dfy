/**
 The fulfillment investigation: reconcile four feeds, wait for at most one correction, let an agent
 read evidence about one pinned snapshot, and publish the candidate that was approved.
 */
module Fulfillment {
  import opened Common
  import opened Journal

  const MAX_TURNS := 6
  const APPROVAL_KEY := "publish-report"
  const SOURCE_WAIT := "warehouse:corrected"

  datatype Source = Orders | Warehouse | Carrier | Support
  datatype Topic = OnCarrier | OnWarehouse | OnSourceHealth | OnSupport
  datatype Revision = Initial | Corrected
  datatype Scenario = DataGap | RealDelay

  const SOURCES := [Orders, Warehouse, Carrier, Support]
  const TOPICS := {OnCarrier, OnWarehouse, OnSourceHealth, OnSupport}

  datatype Submission = Submission(workflowId: string, scenario: Scenario, mode: string)

  /** What a source branch returns; it names the feed and the revision it read. */
  datatype Receipt = Receipt(source: Source, revision: Revision, raw: string)

  /** `defects` counts the quality checks, other than the ones named, that found something. */
  datatype Quality = Quality(incompleteSources: seq<Source>, missingSources: seq<Source>, defects: nat,
    quarantinedRecords: nat)

  datatype Snapshot = Snapshot(id: string)

  /** A reconciliation: the snapshot exists when it is ready. */
  datatype Assembled = NotReady(quality: Quality) | Ready(snapshot: Snapshot, quality: Quality)

  /** An evidence artifact; references are content addressed, so the artifact stands for its reference. */
  datatype Evidence = Evidence(topic: Topic, snapshotId: string, body: string)

  /** `topic` is None when the arguments are not exactly one known topic. */
  datatype Response =
    | ToolCall(name: string, topic: Option<Topic>, callId: Option<string>)
    | Answer(text: string)
    | Unsupported

  datatype Message = User(snapshotId: string) | Assistant(response: Response) | Tool(evidence: Evidence)

  /** The review packet, content addressed like every artifact. */
  datatype Candidate = Candidate(snapshot: Snapshot, evidence: map<Topic, Evidence>, answer: Response, mode: string)

  datatype Status = Approved | Rejected | Expired

  /** The saved action of an approval carries the arguments that alone may execute. */
  datatype Approval = Approval(key: string, status: Status, action: Candidate)

  datatype Publication = Publication(candidate: Candidate, snapshotId: string)

  datatype Wake =
    | TimedOut(key: string)
    | Delivered(key: string, workflowId: string, source: Source, revision: Revision)
    | OtherWake(key: string)

  /** The terminal outcome of a branch. */
  datatype Branch<T> = Succeeded(value: T) | NotSucceeded

  datatype Reconciliation = Reconciliation(
    receipts: map<Source, Receipt>, initialQuality: Option<Quality>, sources: seq<Source>, revision: Revision)

  datatype Findings = Findings(snapshot: Snapshot, initialQuality: Quality, quality: Quality,
    correctedSources: seq<Source>)

  datatype Agent = Agent(
    findings: Findings, refs: map<Topic, Evidence>, round: nat, callIds: seq<string>, messages: seq<Message>)

  datatype Review = Review(findings: Findings, candidate: Candidate)

  /** The checkpoints, one constructor per entrypoint; what a parked one waits for is filled in when it resumes. */
  datatype Checkpoint =
    | Ingest(data: Option<Submission>)
    | Reconcile(job: Submission, reconciliation: Reconciliation, receipts: map<Source, Branch<Receipt>>)
    | SourceReady(job: Submission, gathered: map<Source, Receipt>, initialQuality: Quality, wake: Option<Wake>)
    | Investigate(job: Submission, findings: Findings, analyses: map<Topic, Branch<Evidence>>)
    | AgentTurn(job: Submission, agent: Agent)
    | Publish(job: Submission, review: Review, action: Candidate, approval: Option<Approval>)

  datatype Request =
    | RegisterSources(sources: seq<Source>, revision: Revision)
    | RegisterAnalyses(snapshot: Snapshot)
    | Assemble(scenario: Scenario, receipts: map<Source, Receipt>)
    | AskModel(mode: string, snapshotId: string, messages: seq<Message>)
    | ReadEvidence(snapshotId: string, refs: map<Topic, Evidence>, topic: Topic)
    | VerifyReport(candidate: Candidate)
    | PublishReport(candidate: Candidate)

  datatype Value =
    | Registered
    | AssembledValue(assembled: Assembled)
    | ModelValue(response: Response)
    | EvidenceValue(evidence: Evidence)
    | CandidateValue(candidate: Candidate)
    | PublicationValue(publication: Publication)

  datatype Result =
    | Failed(kind: string)
    | Quarantined(quality: Quality)
    | Incomplete(quality: Quality)
    | Unpublished(review: Review, status: Status)
    | Published(review: Review, publication: Publication)

  type Database = Durable<Checkpoint, Key, Request, Value, Result>
  type LogEntry = Entry<Checkpoint, Key, Request, Value, Result>
  type Records = map<Key, Record<Request, Value>>
  type Step = Outcome<Checkpoint, Key, Request, Result>

  // ----- The entrypoints -----

  function ForkName(revision: Revision): string {
    if revision.Initial? then "ingest:initial" else "ingest:corrected"
  }

  function ForkSources(
    job: Submission, sources: seq<Source>, revision: Revision, receipts: map<Source, Receipt>,
    initialQuality: Option<Quality>, journal: Records): Step
  {
    var found: Lookup<Value> := Recorded(journal, Fork(ForkName(revision)), RegisterSources(sources, revision));
    match found
    case Absent => Call(Fork(ForkName(revision)), RegisterSources(sources, revision))
    case Mismatch => Raise
    case Found(_) =>
      Outcome.Checkpoint(Reconcile(job, Reconciliation(receipts, initialQuality, sources, revision), map[]))
  }

  predicate AllSucceeded<K, T>(keys: seq<K>, outcomes: map<K, Branch<T>>) {
    forall i | 0 <= i < |keys| :: keys[i] in outcomes && outcomes[keys[i]].Succeeded?
  }

  /** The earlier receipts with those of this round put over them, in order. */
  function Filled(receipts: map<Source, Receipt>, sources: seq<Source>, outcomes: map<Source, Branch<Receipt>>)
    : (filled: map<Source, Receipt>)
    requires AllSucceeded(sources, outcomes)
    ensures forall source :: source in filled <==> source in receipts || source in sources
    ensures forall source <- filled ::
              filled[source] == if source in sources then outcomes[source].value else receipts[source]
  {
    if sources == [] then receipts
    else
      var last := sources[|sources| - 1];
      Filled(receipts, sources[..|sources| - 1], outcomes)[last := outcomes[last].value]
  }

  /** The loop of `reconcile`. */
  method FillReceipts(receipts: map<Source, Receipt>, sources: seq<Source>, outcomes: map<Source, Branch<Receipt>>)
    returns (filled: map<Source, Receipt>)
    requires AllSucceeded(sources, outcomes)
    ensures filled == Filled(receipts, sources, outcomes)
  {
    filled := receipts;
    for i := 0 to |sources|
      invariant filled == Filled(receipts, sources[..i], outcomes)
    {
      var done := sources[..i + 1];
      assert done[..i] == sources[..i] && done[i] == sources[i];
      filled := filled[sources[i] := outcomes[sources[i]].value];
    }
    assert sources[..|sources|] == sources;
  }

  /** Only the known missing partition of the data-gap fixture may wait for a correction. */
  predicate Correctable(job: Submission, revision: Revision, quality: Quality) {
    revision.Initial? && job.scenario.DataGap? && quality.incompleteSources == [Warehouse] &&
    quality.missingSources == [] && quality.defects == 0 && quality.quarantinedRecords == 0
  }

  function RunReconcile(
    job: Submission, state: Reconciliation, outcomes: map<Source, Branch<Receipt>>, journal: Records)
    : Step
  {
    if !AllSucceeded(state.sources, outcomes) then Finish(Failed("source_failed"))
    else
      var request := Assemble(job.scenario, Filled(state.receipts, state.sources, outcomes));
      var found: Lookup<Value> := Recorded(journal, Local("reconcile"), request);
      match found
      case Absent => Call(Local("reconcile"), request)
      case Mismatch => Raise
      case Found(value) =>
        if value.AssembledValue? then Reconciled(job, state, request.receipts, value.assembled, journal) else Raise
  }

  function Reconciled(
    job: Submission, state: Reconciliation, receipts: map<Source, Receipt>, assembled: Assembled,
    journal: Records): Step
  {
    var initialQuality := if state.initialQuality.Some? then state.initialQuality.value else assembled.quality;
    match assembled
    case NotReady(quality) =>
      if !Correctable(job, state.revision, quality) then Finish(Quarantined(quality))
      else Outcome.Checkpoint(SourceReady(job, receipts, initialQuality, None))
    case Ready(snapshot, quality) =>
      var found: Lookup<Value> := Recorded(journal, Fork("investigations"), RegisterAnalyses(snapshot));
      match found
      case Absent => Call(Fork("investigations"), RegisterAnalyses(snapshot))
      case Mismatch => Raise
      case Found(_) =>
        var corrected := if state.revision.Initial? then [] else state.sources;
        Outcome.Checkpoint(Investigate(job, Findings(snapshot, initialQuality, quality, corrected), map[]))
  }

  function RunSourceReady(
    job: Submission, receipts: map<Source, Receipt>, quality: Quality, wake: Option<Wake>, journal: Records)
    : Step
  {
    if wake.None? || wake.value.key != SOURCE_WAIT then Finish(Failed("invalid_source_event"))
    else match wake.value
      case TimedOut(_) => Finish(Incomplete(quality))
      case OtherWake(_) => Finish(Failed("invalid_source_event"))
      case Delivered(_, workflowId, source, revision) =>
        if workflowId != job.workflowId || !source.Warehouse? || !revision.Corrected?
          then Finish(Failed("invalid_source_event"))
        else ForkSources(job, [Warehouse], Corrected, receipts, Some(quality), journal)
  }

  function RunInvestigate(job: Submission, findings: Findings, analyses: map<Topic, Branch<Evidence>>): Step {
    if exists topic <- TOPICS :: topic !in analyses || !analyses[topic].Succeeded?
      then Finish(Failed("analysis_failed"))
    else
      var refs := map topic | topic in TOPICS && topic in analyses && analyses[topic].Succeeded? ::
        analyses[topic].value;
      Outcome.Checkpoint(AgentTurn(job, Agent(findings, refs, 0, [], [User(findings.snapshot.id)])))
  }

  predicate IsCallIdChar(c: char) {
    'A' <= c <= 'Z' || 'a' <= c <= 'z' || '0' <= c <= '9' || c == ':' || c == '_' || c == '-'
  }

  predicate ValidToolCall(response: Response, callIds: seq<string>)
    requires response.ToolCall?
  {
    && response.name == "read_evidence" && response.topic.Some? && response.callId.Some?
    && 1 <= |response.callId.value| <= 64 && (forall c <- response.callId.value :: IsCallIdChar(c))
    && response.callId.value !in callIds
  }

  function ModelKey(round: nat): Key
    requires round < MAX_TURNS
  {
    Local("model:" + [Digit(round)])
  }

  function ToolKey(round: nat, callId: string): Key
    requires round < MAX_TURNS
  {
    Local("tool:" + [Digit(round)] + ":" + callId)
  }

  /** The topics whose evidence the transcript holds. */
  function Seen(messages: seq<Message>): set<Topic> {
    set i | 0 <= i < |messages| && messages[i].Tool? :: messages[i].evidence.topic
  }

  /** Reading an evidence artifact fails when it belongs to another topic or snapshot. */
  predicate Readable(snapshotId: string, refs: map<Topic, Evidence>, topic: Topic) {
    topic in refs && refs[topic].topic == topic && refs[topic].snapshotId == snapshotId
  }

  function AfterTool(agent: Agent, response: Response, evidence: Evidence): Agent
    requires response.ToolCall? && response.callId.Some?
  {
    agent.(round := agent.round + 1, callIds := agent.callIds + [response.callId.value],
           messages := agent.messages + [Assistant(response), Tool(evidence)])
  }

  function RunAgentTurn(accepts: Candidate -> bool, job: Submission, agent: Agent, journal: Records): Step {
    if agent.round >= MAX_TURNS then Finish(Failed("agent_turn_limit"))
    else
      var request := AskModel(job.mode, agent.findings.snapshot.id, agent.messages);
      var found: Lookup<Value> := Recorded(journal, ModelKey(agent.round), request);
      match found
      case Absent => Call(ModelKey(agent.round), request)
      case Mismatch => Raise
      case Found(value) => if value.ModelValue? then Responded(accepts, job, agent, value.response, journal) else Raise
  }

  function Responded(accepts: Candidate -> bool, job: Submission, agent: Agent, response: Response, journal: Records)
    : Step
    requires agent.round < MAX_TURNS
  {
    match response
    case Unsupported => Finish(Failed("invalid_agent_answer"))
    case ToolCall(_, topic, callId) =>
      if !ValidToolCall(response, agent.callIds) then Finish(Failed("invalid_tool_call"))
      else
        var request := ReadEvidence(agent.findings.snapshot.id, agent.refs, topic.value);
        var found: Lookup<Value> := Recorded(journal, ToolKey(agent.round, callId.value), request);
        (match found
         case Absent => Call(ToolKey(agent.round, callId.value), request)
         case Mismatch => Raise
         case Found(value) =>
           if !value.EvidenceValue? then Raise
           else Outcome.Checkpoint(AgentTurn(job, AfterTool(agent, response, value.evidence))))
    case Answer(_) =>
      if Seen(agent.messages) != TOPICS then Finish(Failed("incomplete_investigation"))
      else Verified(accepts, job, agent, response, journal)
  }

  function Verified(accepts: Candidate -> bool, job: Submission, agent: Agent, response: Response, journal: Records)
    : Step
  {
    var candidate := Candidate(agent.findings.snapshot, agent.refs, response, job.mode);
    var found: Lookup<Value> := Recorded(journal, Local("verify-report"), VerifyReport(candidate));
    match found
    case Mismatch => Raise
    case Absent =>
      if (exists topic <- TOPICS :: !Readable(agent.findings.snapshot.id, agent.refs, topic)) || !accepts(candidate)
      then Finish(Failed("unverified_report"))
      else Call(Local("verify-report"), VerifyReport(candidate))
    case Found(value) =>
      if value.CandidateValue?
      then Outcome.Checkpoint(Publish(job, Review(agent.findings, value.candidate), value.candidate, None)) else Raise
  }

  function RunPublish(review: Review, approval: Option<Approval>, journal: Records): Step {
    if approval.None? || approval.value.key != APPROVAL_KEY then Finish(Failed("missing_approval"))
    else if !approval.value.status.Approved? then Finish(Unpublished(review, approval.value.status))
    else
      var found: Lookup<Value> := Recorded(journal, Local("approval:publish-report"),
        PublishReport(approval.value.action));
      match found
      case Absent => Call(Local("approval:publish-report"), PublishReport(approval.value.action))
      case Mismatch => Raise
      case Found(value) => if value.PublicationValue? then Finish(Published(review, value.publication)) else Raise
  }

  function Run(accepts: Candidate -> bool, checkpoint: Checkpoint, journal: Records): Step {
    match checkpoint
    case Ingest(data) =>
      if data.None? then Finish(Failed("invalid_input"))
      else ForkSources(data.value, SOURCES, Initial, map[], None, journal)
    case Reconcile(job, state, receipts) => RunReconcile(job, state, receipts, journal)
    case SourceReady(job, receipts, quality, wake) => RunSourceReady(job, receipts, quality, wake, journal)
    case Investigate(job, findings, analyses) => RunInvestigate(job, findings, analyses)
    case AgentTurn(job, agent) => RunAgentTurn(accepts, job, agent, journal)
    case Publish(_, review, _, approval) => RunPublish(review, approval, journal)
  }

  /** What an operation may return: anything for a model call and a reconciliation, one value for the others. */
  predicate Answers(request: Request, value: Value) {
    match request
    case RegisterSources(_, _) => value == Registered
    case RegisterAnalyses(_) => value == Registered
    case Assemble(_, _) => value.AssembledValue?
    case AskModel(_, _, _) => value.ModelValue?
    case ReadEvidence(snapshotId, refs, topic) =>
      Readable(snapshotId, refs, topic) && value == EvidenceValue(refs[topic])
    case VerifyReport(candidate) => value == CandidateValue(candidate)
    case PublishReport(candidate) => value == PublicationValue(Publication(candidate, candidate.snapshot.id))
  }

  /** What comes with the wake-up: branch outcomes, an event or a timeout, or the decision on the saved action. */
  predicate Resumes(parked: Checkpoint, resumed: Checkpoint) {
    match parked
    case Reconcile(_, state, _) =>
      resumed.Reconcile? && resumed == parked.(receipts := resumed.receipts) &&
      forall source <- resumed.receipts | resumed.receipts[source].Succeeded? ::
        resumed.receipts[source].value.source == source && resumed.receipts[source].value.revision == state.revision
    case SourceReady(_, _, _, _) => resumed.SourceReady? && resumed == parked.(wake := resumed.wake)
    case Investigate(_, _, _) => resumed.Investigate? && resumed == parked.(analyses := resumed.analyses)
    case Publish(_, _, action, _) =>
      resumed.Publish? && resumed == parked.(approval := resumed.approval) &&
      (resumed.approval.Some? && resumed.approval.value.key == APPROVAL_KEY ==> resumed.approval.value.action == action)
    case _ => resumed == parked
  }

  function Investigator(accepts: Candidate -> bool): Program<Checkpoint, Key, Request, Value, Result> {
    Program((checkpoint, journal) => Run(accepts, checkpoint, journal), (request, value) => Answers(request, value),
            (parked, resumed) => Resumes(parked, resumed))
  }

  // ----- What the log shows -----

  function Activations(log: seq<LogEntry>): nat {
    if log == [] then 1 else Activations(log[..|log| - 1]) + (if log[|log| - 1].Resumed? then 1 else 0)
  }

  /** How often the run parked for a source correction. */
  function Waits(log: seq<LogEntry>): nat {
    if log == [] then 0
    else
      var last := log[|log| - 1];
      Waits(log[..|log| - 1]) + (if last.Resumed? && last.checkpoint.SourceReady? then 1 else 0)
  }

  function ForkCount(log: seq<LogEntry>, name: string): nat {
    if log == [] then 0
    else
      var last := log[|log| - 1];
      ForkCount(log[..|log| - 1], name) + (if last.Committed? && last.key == Fork(name) then 1 else 0)
  }

  predicate IsReady(record: Record<Request, Value>) {
    record.request.Assemble? && record.value.AssembledValue? && record.value.assembled.Ready?
  }

  /** The snapshots of the reconciliations that came out ready. */
  function Readies(log: seq<LogEntry>): seq<Snapshot> {
    if log == [] then []
    else
      var last := log[|log| - 1];
      Readies(log[..|log| - 1]) +
      (if last.Committed? && IsReady(last.record) then [last.record.value.assembled.snapshot] else [])
  }

  // ----- What holds in every state -----

  predicate Complete(receipts: map<Source, Receipt>) {
    Orders in receipts && Warehouse in receipts && Carrier in receipts && Support in receipts
  }

  /** Every feed has its own initial receipt, but the warehouse has the corrected one after a correction. */
  predicate Gathered(receipts: map<Source, Receipt>, corrected: bool) {
    Complete(receipts) &&
    forall source <- receipts ::
      && receipts[source].source == source
      && receipts[source].revision == (if corrected && source.Warehouse? then Corrected else Initial)
  }

  predicate Distinct(callIds: seq<string>) {
    forall i, j | 0 <= i < j < |callIds| :: callIds[i] != callIds[j]
  }

  function ToolMessages(messages: seq<Message>): nat {
    if messages == [] then 0
    else ToolMessages(messages[..|messages| - 1]) + (if messages[|messages| - 1].Tool? then 1 else 0)
  }

  /** One call id and one tool message per round, and every tool message is evidence of the pinned snapshot. */
  ghost predicate AgentInv(agent: Agent) {
    && agent.round <= MAX_TURNS
    && |agent.callIds| == agent.round && Distinct(agent.callIds)
    && ToolMessages(agent.messages) == agent.round && |agent.messages| == 1 + 2 * agent.round
    && forall message <- agent.messages | message.Tool? ::
         Readable(agent.findings.snapshot.id, agent.refs, message.evidence.topic) &&
         message.evidence == agent.refs[message.evidence.topic]
  }

  /** The candidate is about the snapshot, with readable evidence of it for every topic. */
  ghost predicate Vetted(candidate: Candidate, snapshot: Snapshot) {
    candidate.snapshot == snapshot && forall topic <- TOPICS :: Readable(snapshot.id, candidate.evidence, topic)
  }

  ghost predicate Shape(checkpoint: Checkpoint) {
    match checkpoint
    case Ingest(_) => true
    case Reconcile(_, state, outcomes) =>
      && (if state.revision.Initial? then state.sources == SOURCES && state.receipts == map[]
          else state.sources == [Warehouse] && Gathered(state.receipts, false))
      && forall source <- outcomes | outcomes[source].Succeeded? ::
           outcomes[source].value.source == source && outcomes[source].value.revision == state.revision
    case SourceReady(_, receipts, _, _) => Gathered(receipts, false)
    case Investigate(_, findings, _) => findings.correctedSources in {[], [Warehouse]}
    case AgentTurn(_, agent) => AgentInv(agent) && agent.findings.correctedSources in {[], [Warehouse]}
    case Publish(_, review, action, approval) =>
      && action == review.candidate && Vetted(action, review.findings.snapshot)
      && review.findings.correctedSources in {[], [Warehouse]}
      && (approval.Some? && approval.value.key == APPROVAL_KEY ==> approval.value.action == action)
  }

  ghost predicate JournalShape(checkpoint: Checkpoint, journal: Records) {
    match checkpoint
    case Ingest(_) => forall key <- journal :: key == Fork("ingest:initial")
    case SourceReady(_, _, _, _) => forall key <- journal :: key == Fork("ingest:corrected")
    case Reconcile(_, _, _) =>
      && (forall key <- journal :: key == Local("reconcile") || key == Fork("investigations"))
      && (Local("reconcile") in journal ==> journal[Local("reconcile")].request.Assemble?)
      && (Fork("investigations") in journal ==> Local("reconcile") in journal && IsReady(journal[Local("reconcile")]))
    case _ => forall key <- journal :: key.Local?
  }

  /** Whether the correction of the source has been forked in an earlier activation. */
  function Corrections(checkpoint: Checkpoint): nat {
    match checkpoint
    case Ingest(_) => 0
    case Reconcile(_, state, _) => if state.revision.Corrected? then 1 else 0
    case SourceReady(_, _, _, _) => 0
    case Investigate(_, findings, _) => |findings.correctedSources|
    case AgentTurn(_, agent) => |agent.findings.correctedSources|
    case Publish(_, review, _, _) => |review.findings.correctedSources|
  }

  predicate Investigating(checkpoint: Checkpoint) {
    checkpoint.Investigate? || checkpoint.AgentTurn? || checkpoint.Publish?
  }

  function SnapshotOf(checkpoint: Checkpoint): Snapshot
    requires Investigating(checkpoint)
  {
    match checkpoint
    case Investigate(_, findings, _) => findings.snapshot
    case AgentTurn(_, agent) => agent.findings.snapshot
    case Publish(_, review, _, _) => review.findings.snapshot
  }

  function ForkedBefore(checkpoint: Checkpoint, name: string): nat {
    if name == "ingest:initial" then if checkpoint.Ingest? then 0 else 1
    else if name == "ingest:corrected" then Corrections(checkpoint)
    else if name == "investigations" then if Investigating(checkpoint) then 1 else 0
    else 0
  }

  ghost predicate ForkTrail(log: seq<LogEntry>, d: Database) {
    forall name :: ForkCount(log, name) == ForkedBefore(d.checkpoint, name) + (if Fork(name) in d.journal then 1 else 0)
  }

  /** The number of activations so far; a run that asks for approval has spent at most one more than its agent. */
  ghost predicate ActivationTrail(log: seq<LogEntry>, checkpoint: Checkpoint) {
    var spent := Activations(log);
    match checkpoint
    case Ingest(_) => spent == 1
    case Reconcile(_, _, _) => spent == 2 + 2 * Corrections(checkpoint)
    case SourceReady(_, _, _, _) => spent == 3
    case Investigate(_, _, _) => spent == 3 + 2 * Corrections(checkpoint)
    case AgentTurn(_, agent) => spent == 4 + 2 * Corrections(checkpoint) + agent.round
    case Publish(_, _, _, _) => spent <= 4 + 2 * Corrections(checkpoint) + MAX_TURNS
  }

  ghost predicate SnapshotTrail(log: seq<LogEntry>, d: Database) {
    Readies(log) ==
      if Investigating(d.checkpoint) then [SnapshotOf(d.checkpoint)]
      else if d.checkpoint.Reconcile? && Local("reconcile") in d.journal && IsReady(d.journal[Local("reconcile")])
      then [d.journal[Local("reconcile")].value.assembled.snapshot]
      else []
  }

  /** An agent turn of the log saw every topic, about this snapshot. */
  ghost predicate Investigated(log: seq<LogEntry>, snapshot: Snapshot, refs: map<Topic, Evidence>) {
    exists i | 0 <= i < |log| ::
      && log[i].Resumed? && log[i].checkpoint.AgentTurn? && AgentInv(log[i].checkpoint.agent)
      && log[i].checkpoint.agent.findings.snapshot == snapshot && log[i].checkpoint.agent.refs == refs
      && Seen(log[i].checkpoint.agent.messages) == TOPICS
  }

  ghost predicate TranscriptTrail(log: seq<LogEntry>, checkpoint: Checkpoint) {
    && (checkpoint.AgentTurn? ==> Resumed(checkpoint) in log)
    && (checkpoint.Publish? ==> Investigated(log, checkpoint.review.findings.snapshot, checkpoint.action.evidence))
  }

  ghost predicate ResultShape(d: Database) {
    d.finished.Some? && d.finished.value.Published? ==>
      && d.checkpoint.Publish? && d.finished.value.review == d.checkpoint.review
      && d.checkpoint.approval.Some? && d.checkpoint.approval.value.key == APPROVAL_KEY
      && d.checkpoint.approval.value.status.Approved?
      && d.finished.value.publication == Publication(d.checkpoint.action, d.checkpoint.action.snapshot.id)
  }

  /** The checkpoint, the journal and the result by themselves. */
  ghost predicate Sound(d: Database) {
    && Shape(d.checkpoint) && JournalShape(d.checkpoint, d.journal)
    && (forall key <- d.journal :: Answers(d.journal[key].request, d.journal[key].value))
    && ResultShape(d)
  }

  /** What the log shows of them. */
  ghost predicate Trails(log: seq<LogEntry>, d: Database) {
    && ForkTrail(log, d) && ActivationTrail(log, d.checkpoint) && SnapshotTrail(log, d)
    && TranscriptTrail(log, d.checkpoint)
    && Waits(log) == (if d.checkpoint.SourceReady? then 1 else Corrections(d.checkpoint))
  }

  ghost predicate OnTrack(log: seq<LogEntry>, d: Database) {
    Sound(d) && Trails(log, d)
  }

  // ----- Every transaction keeps it -----

  /** The entry is what a step of the code commits. */
  ghost predicate Follows(step: Step, journal: Records, entry: LogEntry) {
    match step
    case Call(key, request) =>
      key !in journal && entry.Committed? && entry.key == key && entry.record.request == request &&
      Answers(request, entry.record.value)
    case Checkpoint(next) => entry.Resumed? && Resumes(next, entry.checkpoint)
    case Finish(result) => entry == Finished(result)
    case Raise => false
  }

  lemma AllowedFollows(accepts: Candidate -> bool, d: Database, entry: LogEntry)
    requires Allowed(Investigator(accepts), d, entry)
    ensures d.finished.None? && Follows(Run(accepts, d.checkpoint, d.journal), d.journal, entry)
  {
  }

  /** Where each entrypoint parks: the edges of the workflow. */
  ghost predicate Moves(checkpoint: Checkpoint, journal: Records, next: Checkpoint) {
    match checkpoint
    case Ingest(_) =>
      next.Reconcile? && next.reconciliation.revision.Initial? && Fork("ingest:initial") in journal
    case SourceReady(_, _, _, _) =>
      next.Reconcile? && next.reconciliation.revision.Corrected? && Fork("ingest:corrected") in journal
    case Reconcile(_, state, _) =>
      if next.SourceReady? then
        state.revision.Initial? && Fork("investigations") !in journal && Local("reconcile") in journal &&
        !IsReady(journal[Local("reconcile")])
      else
        next.Investigate? && Fork("investigations") in journal && Local("reconcile") in journal &&
        IsReady(journal[Local("reconcile")]) &&
        journal[Local("reconcile")].value.assembled.snapshot == next.findings.snapshot &&
        |next.findings.correctedSources| == (if state.revision.Corrected? then 1 else 0)
    case Investigate(_, findings, _) => next.AgentTurn? && next.agent.round == 0 && next.agent.findings == findings
    case AgentTurn(_, agent) =>
      if next.AgentTurn? then
        next.agent.round == agent.round + 1 && next.agent.findings == agent.findings && next.agent.refs == agent.refs
      else
        next.Publish? && next.review.findings == agent.findings && next.action.evidence == agent.refs &&
        Seen(agent.messages) == TOPICS && agent.round < MAX_TURNS
    case Publish(_, _, _, _) => false
  }

  /** What a commit adds: no fork key again, and a ready snapshot only from a reconciliation. */
  ghost predicate Adds(checkpoint: Checkpoint, journal: Records, key: Key, record: Record<Request, Value>) {
    && key !in journal
    && (key.Fork? ==> ForkedBefore(checkpoint, key.name) == 0)
    && (record.request.Assemble? <==> checkpoint.Reconcile? && key == Local("reconcile"))
    && JournalShape(checkpoint, journal[key := record])
    && Answers(record.request, record.value)
  }

  /** The local effect of an entry, from which everything the log shows follows. */
  ghost predicate Legitimate(d: Database, entry: LogEntry) {
    match entry
    case Committed(key, record) => Adds(d.checkpoint, d.journal, key, record)
    case Resumed(next) => Moves(d.checkpoint, d.journal, next) && Shape(next)
    case Finished(_) => ResultShape(Apply(d, entry))
  }

  lemma FilledIsGathered(state: Reconciliation, outcomes: map<Source, Branch<Receipt>>)
    requires AllSucceeded(state.sources, outcomes)
    requires if state.revision.Initial? then state.sources == SOURCES && state.receipts == map[]
             else state.sources == [Warehouse] && Gathered(state.receipts, false)
    requires forall source <- outcomes | outcomes[source].Succeeded? ::
      outcomes[source].value.source == source && outcomes[source].value.revision == state.revision
    ensures Gathered(Filled(state.receipts, state.sources, outcomes), state.revision.Corrected?)
  {
    var filled := Filled(state.receipts, state.sources, outcomes);
    assert SOURCES[0] == Orders && SOURCES[1] == Warehouse && SOURCES[2] == Carrier && SOURCES[3] == Support;
    forall source <- filled
      ensures filled[source].source == source
      ensures filled[source].revision == (if state.revision.Corrected? && source.Warehouse? then Corrected else Initial)
    {
      if source in state.sources {
        assert outcomes[source].Succeeded?;
      }
    }
  }

  lemma ToolRoundKeepsAgent(agent: Agent, response: Response, evidence: Evidence)
    requires AgentInv(agent) && agent.round < MAX_TURNS && response.ToolCall? && ValidToolCall(response, agent.callIds)
    requires Readable(agent.findings.snapshot.id, agent.refs, response.topic.value)
    requires evidence == agent.refs[response.topic.value]
    ensures AgentInv(AfterTool(agent, response, evidence))
  {
    var after := agent.messages + [Assistant(response), Tool(evidence)];
    assert after[..|after| - 1] == agent.messages + [Assistant(response)];
    assert (agent.messages + [Assistant(response)])[..|agent.messages|] == agent.messages;
    assert forall message <- after ::
      message in agent.messages || message == Assistant(response) || message == Tool(evidence);
  }

  lemma GatherIsLegitimate(accepts: Candidate -> bool, d: Database, entry: LogEntry)
    requires d.checkpoint.Ingest? || d.checkpoint.SourceReady?
    requires Shape(d.checkpoint) && JournalShape(d.checkpoint, d.journal)
    requires Follows(Run(accepts, d.checkpoint, d.journal), d.journal, entry)
    ensures Legitimate(d, entry)
  {
  }

  lemma ReconcileParks(d: Database, next: Checkpoint, resumed: Checkpoint)
    requires d.checkpoint.Reconcile? && Shape(d.checkpoint) && JournalShape(d.checkpoint, d.journal)
    requires RunReconcile(d.checkpoint.job, d.checkpoint.reconciliation, d.checkpoint.receipts, d.journal) ==
      Outcome.Checkpoint(next)
    requires Resumes(next, resumed)
    ensures Shape(resumed) && Moves(d.checkpoint, d.journal, resumed)
  {
    FilledIsGathered(d.checkpoint.reconciliation, d.checkpoint.receipts);
    var job, state, found := d.checkpoint.job, d.checkpoint.reconciliation, d.journal[Local("reconcile")];
    ReconciledParks(job, state, found.request.receipts, found.value.assembled, d.journal, next);
  }

  /** Where a reconciliation parks, by what was assembled. */
  lemma ReconciledParks(
    job: Submission, state: Reconciliation, receipts: map<Source, Receipt>, assembled: Assembled, journal: Records,
    next: Checkpoint)
    requires Reconciled(job, state, receipts, assembled, journal) == Outcome.Checkpoint(next)
    ensures assembled.Ready? ==>
      && next.Investigate? && Fork("investigations") in journal && next.findings.snapshot == assembled.snapshot
      && next.findings.correctedSources == if state.revision.Initial? then [] else state.sources
    ensures assembled.NotReady? ==>
      next.SourceReady? && state.revision.Initial? && next.gathered == receipts
  {
  }

  lemma ReconcileCommits(d: Database, key: Key, record: Record<Request, Value>)
    requires d.checkpoint.Reconcile? && JournalShape(d.checkpoint, d.journal) && key !in d.journal
    requires RunReconcile(d.checkpoint.job, d.checkpoint.reconciliation, d.checkpoint.receipts, d.journal) ==
      Call(key, record.request)
    requires Answers(record.request, record.value)
    ensures Adds(d.checkpoint, d.journal, key, record)
  {
  }

  lemma ReconcileIsLegitimate(d: Database, entry: LogEntry)
    requires d.checkpoint.Reconcile? && Shape(d.checkpoint) && JournalShape(d.checkpoint, d.journal)
    requires Follows(RunReconcile(d.checkpoint.job, d.checkpoint.reconciliation, d.checkpoint.receipts, d.journal),
      d.journal, entry)
    ensures Legitimate(d, entry)
  {
    var step := RunReconcile(d.checkpoint.job, d.checkpoint.reconciliation, d.checkpoint.receipts, d.journal);
    if step.Checkpoint? {
      ReconcileParks(d, step.next, entry.checkpoint);
    } else if step.Call? {
      ReconcileCommits(d, entry.key, entry.record);
    }
  }

  lemma InvestigateIsLegitimate(accepts: Candidate -> bool, d: Database, entry: LogEntry)
    requires d.checkpoint.Investigate? && Shape(d.checkpoint)
    requires Follows(Run(accepts, d.checkpoint, d.journal), d.journal, entry)
    ensures Legitimate(d, entry)
  {
  }

  lemma AgentTurnParks(accepts: Candidate -> bool, d: Database, next: Checkpoint, resumed: Checkpoint)
    requires d.checkpoint.AgentTurn? && Shape(d.checkpoint)
    requires forall key <- d.journal :: Answers(d.journal[key].request, d.journal[key].value)
    requires RunAgentTurn(accepts, d.checkpoint.job, d.checkpoint.agent, d.journal) == Outcome.Checkpoint(next)
    requires Resumes(next, resumed)
    ensures Shape(resumed) && Moves(d.checkpoint, d.journal, resumed)
  {
    var agent := d.checkpoint.agent;
    var response := d.journal[ModelKey(agent.round)].value.response;
    if response.ToolCall? {
      ToolRoundKeepsAgent(agent, response, d.journal[ToolKey(agent.round, response.callId.value)].value.evidence);
    } else {
      forall topic | topic in TOPICS
        ensures Readable(agent.findings.snapshot.id, agent.refs, topic)
      {
        assert topic in Seen(agent.messages);
      }
    }
  }

  lemma AgentTurnIsLegitimate(accepts: Candidate -> bool, d: Database, entry: LogEntry)
    requires d.checkpoint.AgentTurn? && Shape(d.checkpoint) && JournalShape(d.checkpoint, d.journal)
    requires forall key <- d.journal :: Answers(d.journal[key].request, d.journal[key].value)
    requires Follows(RunAgentTurn(accepts, d.checkpoint.job, d.checkpoint.agent, d.journal), d.journal, entry)
    ensures Legitimate(d, entry)
  {
    var step := RunAgentTurn(accepts, d.checkpoint.job, d.checkpoint.agent, d.journal);
    if step.Checkpoint? {
      AgentTurnParks(accepts, d, step.next, entry.checkpoint);
    }
  }

  lemma PublishIsLegitimate(d: Database, entry: LogEntry)
    requires d.checkpoint.Publish? && Shape(d.checkpoint) && JournalShape(d.checkpoint, d.journal)
    requires forall key <- d.journal :: Answers(d.journal[key].request, d.journal[key].value)
    requires Follows(RunPublish(d.checkpoint.review, d.checkpoint.approval, d.journal), d.journal, entry)
    ensures Legitimate(d, entry)
  {
  }

  lemma EveryStepIsLegitimate(accepts: Candidate -> bool, d: Database, entry: LogEntry)
    requires Shape(d.checkpoint) && JournalShape(d.checkpoint, d.journal)
    requires forall key <- d.journal :: Answers(d.journal[key].request, d.journal[key].value)
    requires Allowed(Investigator(accepts), d, entry)
    ensures d.finished.None? && Legitimate(d, entry)
  {
    AllowedFollows(accepts, d, entry);
    match d.checkpoint
    case Ingest(_) => GatherIsLegitimate(accepts, d, entry);
    case SourceReady(_, _, _, _) => GatherIsLegitimate(accepts, d, entry);
    case Reconcile(_, _, _) => ReconcileIsLegitimate(d, entry);
    case Investigate(_, _, _) => InvestigateIsLegitimate(accepts, d, entry);
    case AgentTurn(_, _) => AgentTurnIsLegitimate(accepts, d, entry);
    case Publish(_, _, _, _) => PublishIsLegitimate(d, entry);
  }

  lemma ForkTrailStays(log: seq<LogEntry>, d: Database, entry: LogEntry)
    requires ForkTrail(log, d) && Shape(d.checkpoint) && JournalShape(d.checkpoint, d.journal) && Legitimate(d, entry)
    ensures ForkTrail(log + [entry], Apply(d, entry))
  {
    var after := Apply(d, entry);
    assert (log + [entry])[..|log|] == log;
    forall name
      ensures ForkCount(log + [entry], name) ==
              ForkedBefore(after.checkpoint, name) + (if Fork(name) in after.journal then 1 else 0)
    {
      assert ForkCount(log, name) == ForkedBefore(d.checkpoint, name) + (if Fork(name) in d.journal then 1 else 0);
    }
  }

  lemma SnapshotTrailStays(log: seq<LogEntry>, d: Database, entry: LogEntry)
    requires SnapshotTrail(log, d) && Shape(d.checkpoint) && JournalShape(d.checkpoint, d.journal) &&
      Legitimate(d, entry)
    ensures SnapshotTrail(log + [entry], Apply(d, entry))
  {
    assert (log + [entry])[..|log|] == log;
  }

  lemma CountsStay(log: seq<LogEntry>, d: Database, entry: LogEntry)
    requires Shape(d.checkpoint) && Legitimate(d, entry) && ActivationTrail(log, d.checkpoint)
    requires Waits(log) == (if d.checkpoint.SourceReady? then 1 else Corrections(d.checkpoint))
    ensures ActivationTrail(log + [entry], Apply(d, entry).checkpoint)
    ensures Waits(log + [entry]) ==
      if Apply(d, entry).checkpoint.SourceReady? then 1 else Corrections(Apply(d, entry).checkpoint)
  {
    assert (log + [entry])[..|log|] == log;
  }

  lemma TranscriptTrailStays(log: seq<LogEntry>, d: Database, entry: LogEntry)
    requires TranscriptTrail(log, d.checkpoint) && Shape(d.checkpoint) && Legitimate(d, entry)
    ensures TranscriptTrail(log + [entry], Apply(d, entry).checkpoint)
  {
    var longer := log + [entry];
    if d.checkpoint.Publish? {
      var findings, refs := d.checkpoint.review.findings, d.checkpoint.action.evidence;
      var i :| 0 <= i < |log| && log[i].Resumed? && log[i].checkpoint.AgentTurn? && AgentInv(log[i].checkpoint.agent)
        && log[i].checkpoint.agent.findings.snapshot == findings.snapshot && log[i].checkpoint.agent.refs == refs
        && Seen(log[i].checkpoint.agent.messages) == TOPICS;
      assert longer[i] == log[i];
    } else if d.checkpoint.AgentTurn? {
      var i :| 0 <= i < |log| && log[i] == Resumed(d.checkpoint);
      assert longer[i] == log[i];
    }
    assert longer[|log|] == entry;
  }

  lemma SoundStays(d: Database, entry: LogEntry)
    requires Sound(d) && d.finished.None? && Legitimate(d, entry)
    ensures Sound(Apply(d, entry))
  {
  }

  lemma TrailsStay(log: seq<LogEntry>, d: Database, entry: LogEntry)
    requires Sound(d) && Trails(log, d) && Legitimate(d, entry)
    ensures Trails(log + [entry], Apply(d, entry))
  {
    ForkTrailStays(log, d, entry);
    SnapshotTrailStays(log, d, entry);
    CountsStay(log, d, entry);
    TranscriptTrailStays(log, d, entry);
  }

  lemma StepKeepsTrack(accepts: Candidate -> bool, log: seq<LogEntry>, d: Database, entry: LogEntry)
    requires OnTrack(log, d) && Allowed(Investigator(accepts), d, entry)
    ensures OnTrack(log + [entry], Apply(d, entry))
  {
    EveryStepIsLegitimate(accepts, d, entry);
    SoundStays(d, entry);
    TrailsStay(log, d, entry);
  }

  lemma {:induction false} LogKeepsTrack(accepts: Candidate -> bool, data: Option<Submission>, log: seq<LogEntry>)
    requires Legal(Investigator(accepts), Ingest(data), log)
    ensures OnTrack(log, Replay(Ingest(data), log))
  {
    if log != [] {
      var front, last := log[..|log| - 1], log[|log| - 1];
      var d := Replay(Ingest(data), front);
      FrontAndLast(log);
      LogKeepsTrack(accepts, data, front);
      StepKeepsTrack(accepts, front, d, last);
    }
  }

  // ----- The main results, about runs with crashes -----

  ghost predicate InvestigationRun(
    accepts: Candidate -> bool, data: Option<Submission>,
    states: seq<State<Checkpoint, Key, Request, Value, Result>>, events: seq<Event<Checkpoint, Value>>)
  {
    IsRun(Investigator(accepts), Ingest(data), states, events)
  }

  /**
   Provenance: a run that ends published published the candidate of the approved action, which is the
   reviewed one; it was built from the only snapshot that ever came out ready, out of evidence of that
   snapshot for every topic, and an agent turn of this run had read all of that evidence.
   */
  lemma PublishedIsApprovedAndInvestigated(
    accepts: Candidate -> bool, data: Option<Submission>,
    states: seq<State<Checkpoint, Key, Request, Value, Result>>, events: seq<Event<Checkpoint, Value>>, i: nat)
    requires InvestigationRun(accepts, data, states, events) && i < |states|
    requires states[i].durable.finished.Some? && states[i].durable.finished.value.Published?
    ensures states[i].durable.checkpoint.Publish?
    ensures var result := states[i].durable.finished.value; var approval := states[i].durable.checkpoint.approval;
      && approval.Some? && approval.value.key == APPROVAL_KEY && approval.value.status.Approved?
      && result.review.candidate == approval.value.action == result.publication.candidate
      && Readies(states[i].log) == [result.review.candidate.snapshot]
      && result.publication.snapshotId == result.review.candidate.snapshot.id
      && Vetted(result.review.candidate, result.review.candidate.snapshot)
      && Investigated(states[i].log, result.review.candidate.snapshot, result.review.candidate.evidence)
  {
    CrashesAreInvisible(Investigator(accepts), Ingest(data), states, events, i);
    LogKeepsTrack(accepts, data, states[i].log);
  }

  /** In every reachable agent state: distinct call ids, one per round, with one tool message each. */
  lemma AgentStatesAreConsistent(
    accepts: Candidate -> bool, data: Option<Submission>,
    states: seq<State<Checkpoint, Key, Request, Value, Result>>, events: seq<Event<Checkpoint, Value>>, i: nat)
    requires InvestigationRun(accepts, data, states, events) && i < |states| && states[i].durable.checkpoint.AgentTurn?
    ensures var agent := states[i].durable.checkpoint.agent;
      && Distinct(agent.callIds) && agent.round == |agent.callIds| == ToolMessages(agent.messages) <= MAX_TURNS
      && |agent.messages| == 1 + 2 * agent.round
      && (forall message <- agent.messages | message.Tool? ::
            message.evidence.snapshotId == agent.findings.snapshot.id &&
            message.evidence.topic in agent.refs && message.evidence == agent.refs[message.evidence.topic])
      && Readies(states[i].log) == [agent.findings.snapshot]
  {
    CrashesAreInvisible(Investigator(accepts), Ingest(data), states, events, i);
    LogKeepsTrack(accepts, data, states[i].log);
  }

  lemma ForksAreBounded(log: seq<LogEntry>, d: Database, name: string)
    requires ForkTrail(log, d) && Shape(d.checkpoint) && JournalShape(d.checkpoint, d.journal)
    ensures ForkCount(log, name) <= 1
    ensures name == "ingest:corrected" ==>
      ForkCount(log, name) <= (if d.checkpoint.SourceReady? then 1 else Corrections(d.checkpoint))
    ensures name == "ingest:corrected" && d.checkpoint.Reconcile? ==> ForkCount(log, name) == Corrections(d.checkpoint)
  {
    assert ForkCount(log, name) == ForkedBefore(d.checkpoint, name) + (if Fork(name) in d.journal then 1 else 0);
  }

  /** Bounded coordination: one wait, every fork once, one ready snapshot, and MAX_TURNS + 6 activations in all. */
  lemma CoordinationIsBounded(
    accepts: Candidate -> bool, data: Option<Submission>,
    states: seq<State<Checkpoint, Key, Request, Value, Result>>, events: seq<Event<Checkpoint, Value>>, i: nat,
    name: string)
    requires InvestigationRun(accepts, data, states, events) && i < |states|
    ensures Waits(states[i].log) <= 1 && ForkCount(states[i].log, name) <= 1 && |Readies(states[i].log)| <= 1
    ensures ForkCount(states[i].log, "ingest:corrected") <= Waits(states[i].log)
    ensures Activations(states[i].log) <= MAX_TURNS + 6
  {
    CrashesAreInvisible(Investigator(accepts), Ingest(data), states, events, i);
    LogKeepsTrack(accepts, data, states[i].log);
    ForksAreBounded(states[i].log, states[i].durable, name);
    ForksAreBounded(states[i].log, states[i].durable, "ingest:corrected");
  }

  /**
   Whenever a snapshot is assembled every feed has its own receipt: the initial ones, but the corrected
   one for the warehouse exactly when the correction has been forked.
   */
  lemma AssembledFromEveryReceipt(
    accepts: Candidate -> bool, data: Option<Submission>,
    states: seq<State<Checkpoint, Key, Request, Value, Result>>, events: seq<Event<Checkpoint, Value>>, i: nat, j: nat)
    requires InvestigationRun(accepts, data, states, events) && i < |states| && j < |states[i].log|
    requires states[i].log[j].Committed? && states[i].log[j].record.request.Assemble?
    ensures Gathered(states[i].log[j].record.request.receipts, ForkCount(states[i].log[..j], "ingest:corrected") == 1)
  {
    CrashesAreInvisible(Investigator(accepts), Ingest(data), states, events, i);
    AssembledInLog(accepts, data, states[i].log, j);
  }

  lemma AssembledInLog(accepts: Candidate -> bool, data: Option<Submission>, log: seq<LogEntry>, j: nat)
    requires Legal(Investigator(accepts), Ingest(data), log) && j < |log|
    requires log[j].Committed? && log[j].record.request.Assemble?
    ensures Gathered(log[j].record.request.receipts, ForkCount(log[..j], "ingest:corrected") == 1)
  {
    var d := Replay(Ingest(data), log[..j]);
    PrefixIsLegal(Investigator(accepts), Ingest(data), log, j);
    LogKeepsTrack(accepts, data, log[..j]);
    EveryStepIsLegitimate(accepts, d, log[j]);
    AllowedFollows(accepts, d, log[j]);
    AssembleIsGathered(d, log[j]);
    ForksAreBounded(log[..j], d, "ingest:corrected");
  }

  lemma AssembleIsGathered(d: Database, entry: LogEntry)
    requires d.checkpoint.Reconcile? && Shape(d.checkpoint) && entry.Committed? && entry.record.request.Assemble?
    requires Follows(RunReconcile(d.checkpoint.job, d.checkpoint.reconciliation, d.checkpoint.receipts, d.journal),
      d.journal, entry)
    ensures Gathered(entry.record.request.receipts, d.checkpoint.reconciliation.revision.Corrected?)
  {
    FilledIsGathered(d.checkpoint.reconciliation, d.checkpoint.receipts);
  }

  // ----- A run that publishes -----

  /** The log takes the workflow to a fresh activation of the checkpoint. */
  ghost predicate Reaches(accepts: Candidate -> bool, data: Option<Submission>, log: seq<LogEntry>, d: Database) {
    Legal(Investigator(accepts), Ingest(data), log) && Replay(Ingest(data), log) == d
  }

  lemma OneMoreEntry(
    accepts: Candidate -> bool, data: Option<Submission>, log: seq<LogEntry>, d: Database, entry: LogEntry)
    requires Reaches(accepts, data, log, d) && d.finished.None?
    requires Follows(Run(accepts, d.checkpoint, d.journal), d.journal, entry)
    ensures Reaches(accepts, data, log + [entry], Apply(d, entry))
  {
    ExtendLog(Investigator(accepts), Ingest(data), log, entry);
  }

  function Fresh(checkpoint: Checkpoint): Database {
    Durable(checkpoint, map[], None)
  }

  /** Every feed delivers. */
  function AllReceipts(): map<Source, Branch<Receipt>> {
    map[Orders := Succeeded(Receipt(Orders, Initial, "")), Warehouse := Succeeded(Receipt(Warehouse, Initial, "")),
        Carrier := Succeeded(Receipt(Carrier, Initial, "")), Support := Succeeded(Receipt(Support, Initial, ""))]
  }

  function Gathering(job: Submission): Checkpoint {
    Reconcile(job, Reconciliation(map[], None, SOURCES, Initial), AllReceipts())
  }

  lemma CanGather(accepts: Candidate -> bool, job: Submission) returns (log: seq<LogEntry>)
    ensures Reaches(accepts, Some(job), log, Fresh(Gathering(job)))
  {
    var request := RegisterSources(SOURCES, Initial);
    var forked := Committed(Fork(ForkName(Initial)), Record(request, Registered));
    OneMoreEntry(accepts, Some(job), [], Fresh(Ingest(Some(job))), forked);
    log := [] + [forked];
    OneMoreEntry(accepts, Some(job), log, Apply(Fresh(Ingest(Some(job))), forked), Resumed(Gathering(job)));
    log := log + [Resumed(Gathering(job))];
  }

  function NoDefects(): Quality {
    Quality([], [], 0, 0)
  }

  function Found(snapshot: Snapshot): Findings {
    Findings(snapshot, NoDefects(), NoDefects(), [])
  }

  function EvidenceOf(snapshot: Snapshot, topic: Topic): Evidence {
    Evidence(topic, snapshot.id, "")
  }

  function AllEvidence(snapshot: Snapshot): map<Topic, Evidence> {
    map topic | topic in TOPICS :: EvidenceOf(snapshot, topic)
  }

  function AllAnalyses(snapshot: Snapshot): map<Topic, Branch<Evidence>> {
    map topic | topic in TOPICS :: Succeeded(EvidenceOf(snapshot, topic))
  }

  function Assembling(job: Submission): Request {
    Assemble(job.scenario, Filled(map[], SOURCES, AllReceipts()))
  }

  function AssembledReady(job: Submission, snapshot: Snapshot): LogEntry {
    Committed(Local("reconcile"), Record(Assembling(job), AssembledValue(Ready(snapshot, NoDefects()))))
  }

  function AnalysesForked(snapshot: Snapshot): LogEntry {
    Committed(Fork("investigations"), Record(RegisterAnalyses(snapshot), Registered))
  }

  lemma AllDeliver()
    ensures AllSucceeded(SOURCES, AllReceipts())
  {
    assert SOURCES[0] == Orders && SOURCES[1] == Warehouse && SOURCES[2] == Carrier && SOURCES[3] == Support;
  }

  lemma AssemblesFirst(accepts: Candidate -> bool, job: Submission, snapshot: Snapshot)
    ensures var d := Fresh(Gathering(job));
      Follows(Run(accepts, d.checkpoint, d.journal), d.journal, AssembledReady(job, snapshot))
  {
    AllDeliver();
  }

  lemma ForksThen(accepts: Candidate -> bool, job: Submission, snapshot: Snapshot)
    ensures var d := Apply(Fresh(Gathering(job)), AssembledReady(job, snapshot));
      Follows(Run(accepts, d.checkpoint, d.journal), d.journal, AnalysesForked(snapshot))
  {
    AllDeliver();
  }

  lemma ParksLast(accepts: Candidate -> bool, job: Submission, snapshot: Snapshot)
    ensures var d := Apply(Apply(Fresh(Gathering(job)), AssembledReady(job, snapshot)), AnalysesForked(snapshot));
      Follows(Run(accepts, d.checkpoint, d.journal), d.journal,
              Resumed(Investigate(job, Found(snapshot), AllAnalyses(snapshot))))
  {
    AllDeliver();
  }

  lemma CanReconcile(accepts: Candidate -> bool, job: Submission, log: seq<LogEntry>, snapshot: Snapshot)
    returns (longer: seq<LogEntry>)
    requires Reaches(accepts, Some(job), log, Fresh(Gathering(job)))
    ensures Reaches(accepts, Some(job), longer, Fresh(Investigate(job, Found(snapshot), AllAnalyses(snapshot))))
  {
    var d := Fresh(Gathering(job));
    AssemblesFirst(accepts, job, snapshot);
    OneMoreEntry(accepts, Some(job), log, d, AssembledReady(job, snapshot));
    longer, d := log + [AssembledReady(job, snapshot)], Apply(d, AssembledReady(job, snapshot));
    ForksThen(accepts, job, snapshot);
    OneMoreEntry(accepts, Some(job), longer, d, AnalysesForked(snapshot));
    longer, d := longer + [AnalysesForked(snapshot)], Apply(d, AnalysesForked(snapshot));
    var next := Resumed(Investigate(job, Found(snapshot), AllAnalyses(snapshot)));
    ParksLast(accepts, job, snapshot);
    OneMoreEntry(accepts, Some(job), longer, d, next);
    longer := longer + [next];
  }

  function FirstTurn(snapshot: Snapshot): Agent {
    Agent(Found(snapshot), AllEvidence(snapshot), 0, [], [User(snapshot.id)])
  }

  lemma CanInvestigate(accepts: Candidate -> bool, job: Submission, log: seq<LogEntry>, snapshot: Snapshot)
    returns (longer: seq<LogEntry>)
    requires Reaches(accepts, Some(job), log, Fresh(Investigate(job, Found(snapshot), AllAnalyses(snapshot))))
    ensures Reaches(accepts, Some(job), longer, Fresh(AgentTurn(job, FirstTurn(snapshot))))
  {
    var analyses := AllAnalyses(snapshot);
    var refs := map topic | topic in TOPICS && topic in analyses && analyses[topic].Succeeded? :: analyses[topic].value;
    assert refs == AllEvidence(snapshot);
    var next := Resumed(AgentTurn(job, FirstTurn(snapshot)));
    OneMoreEntry(accepts, Some(job), log, Fresh(Investigate(job, Found(snapshot), analyses)), next);
    longer := log + [next];
  }

  function Asking(topic: Topic, callId: string): Response {
    ToolCall("read_evidence", Some(topic), Some(callId))
  }

  /** The agent may read the evidence of any topic in a round. */
  lemma CanRead(
    accepts: Candidate -> bool, job: Submission, log: seq<LogEntry>, agent: Agent, topic: Topic, callId: string)
    returns (longer: seq<LogEntry>)
    requires Reaches(accepts, Some(job), log, Fresh(AgentTurn(job, agent)))
    requires agent.round < MAX_TURNS && ValidToolCall(Asking(topic, callId), agent.callIds)
    requires Readable(agent.findings.snapshot.id, agent.refs, topic)
    ensures Reaches(accepts, Some(job), longer,
                    Fresh(AgentTurn(job, AfterTool(agent, Asking(topic, callId), agent.refs[topic]))))
  {
    var d, response := Fresh(AgentTurn(job, agent)), Asking(topic, callId);
    var question := AskModel(job.mode, agent.findings.snapshot.id, agent.messages);
    var asked := Committed(ModelKey(agent.round), Record(question, ModelValue(response)));
    OneMoreEntry(accepts, Some(job), log, d, asked);
    longer, d := log + [asked], Apply(d, asked);
    KeysAreApart(agent.round, callId);
    var read := Committed(
      ToolKey(agent.round, callId),
      Record(ReadEvidence(agent.findings.snapshot.id, agent.refs, topic), EvidenceValue(agent.refs[topic])));
    OneMoreEntry(accepts, Some(job), longer, d, read);
    longer, d := longer + [read], Apply(d, read);
    var next := Resumed(AgentTurn(job, AfterTool(agent, response, agent.refs[topic])));
    OneMoreEntry(accepts, Some(job), longer, d, next);
    longer := longer + [next];
  }

  lemma KeysAreApart(round: nat, callId: string)
    requires round < MAX_TURNS
    ensures ModelKey(round) != ToolKey(round, callId)
    ensures ModelKey(round) != Local("verify-report")
  {
    assert ModelKey(round).name[0] == 'm' && ToolKey(round, callId).name[0] == 't';
  }

  /** The agent after it has read the evidence of the first topics of a list, each with a call id of its own. */
  function Reader(snapshot: Snapshot, topics: seq<Topic>): Agent {
    if topics == [] then FirstTurn(snapshot)
    else
      var n := |topics| - 1;
      AfterTool(Reader(snapshot, topics[..n]), Asking(topics[n], CallId(n)), EvidenceOf(snapshot, topics[n]))
  }

  function CallId(n: nat): string {
    Decimal(n)
  }

  lemma {:induction false} ReaderShape(snapshot: Snapshot, topics: seq<Topic>)
    ensures var agent := Reader(snapshot, topics);
      && agent.findings == Found(snapshot) && agent.refs == AllEvidence(snapshot)
      && agent.round == |agent.callIds| == |topics|
      && (forall i | 0 <= i < |topics| :: agent.callIds[i] == CallId(i))
      && (forall topic <- topics :: topic in Seen(agent.messages))
  {
    if topics != [] {
      var n := |topics| - 1;
      var front, last := Reader(snapshot, topics[..n]), topics[n];
      ReaderShape(snapshot, topics[..n]);
      FrontAndLast(topics);
      SeenGrows(front.messages, Asking(last, CallId(n)), EvidenceOf(snapshot, last));
    }
  }

  lemma SeenGrows(messages: seq<Message>, response: Response, evidence: Evidence)
    ensures var more := messages + [Assistant(response), Tool(evidence)];
      Seen(messages) <= Seen(more) && evidence.topic in Seen(more)
  {
    var more := messages + [Assistant(response), Tool(evidence)];
    assert more[|messages| + 1] == Tool(evidence);
    forall topic | topic in Seen(messages)
      ensures topic in Seen(more)
    {
      var i :| 0 <= i < |messages| && messages[i].Tool? && messages[i].evidence.topic == topic;
      assert more[i] == messages[i];
    }
  }

  lemma CallIdIsValid(n: nat)
    requires n < 10
    ensures 1 <= |CallId(n)| <= 64 && forall c <- CallId(n) :: IsCallIdChar(c)
    ensures forall i: nat | i < n :: CallId(i) != CallId(n)
  {
    forall i: nat | i < n
      ensures CallId(i) != CallId(n)
    {
      NumberOfDecimal(i);
      NumberOfDecimal(n);
    }
  }

  /** The next call of the reader is one it may make. */
  lemma ReaderMayAsk(snapshot: Snapshot, topics: seq<Topic>, topic: Topic)
    requires |topics| + 1 < MAX_TURNS
    ensures var agent := Reader(snapshot, topics);
      && agent.round == |topics| && ValidToolCall(Asking(topic, CallId(|topics|)), agent.callIds)
      && Readable(agent.findings.snapshot.id, agent.refs, topic) && agent.refs[topic] == EvidenceOf(snapshot, topic)
  {
    ReaderShape(snapshot, topics);
    CallIdIsValid(|topics|);
    match topic
    case OnCarrier =>
    case OnWarehouse =>
    case OnSourceHealth =>
    case OnSupport =>
  }

  lemma {:induction false} CanReadAll(
    accepts: Candidate -> bool, job: Submission, log: seq<LogEntry>, snapshot: Snapshot, topics: seq<Topic>)
    returns (longer: seq<LogEntry>)
    requires Reaches(accepts, Some(job), log, Fresh(AgentTurn(job, FirstTurn(snapshot)))) && |topics| < MAX_TURNS
    ensures Reaches(accepts, Some(job), longer, Fresh(AgentTurn(job, Reader(snapshot, topics))))
  {
    longer := log;
    if topics != [] {
      var n := |topics| - 1;
      longer := CanReadAll(accepts, job, log, snapshot, topics[..n]);
      ReaderMayAsk(snapshot, topics[..n], topics[n]);
      longer := CanRead(accepts, job, longer, Reader(snapshot, topics[..n]), topics[n], CallId(n));
    }
  }

  const ALL_TOPICS := [OnCarrier, OnWarehouse, OnSourceHealth, OnSupport]

  function Packet(job: Submission, snapshot: Snapshot, text: string): Candidate {
    Candidate(snapshot, AllEvidence(snapshot), Answer(text), job.mode)
  }

  function Reviewed(job: Submission, snapshot: Snapshot, text: string): Review {
    Review(Found(snapshot), Packet(job, snapshot, text))
  }

  function Decided(job: Submission, snapshot: Snapshot, text: string): Checkpoint {
    var candidate := Packet(job, snapshot, text);
    Publish(job, Reviewed(job, snapshot, text), candidate, Some(Approval(APPROVAL_KEY, Approved, candidate)))
  }

  function Answered(job: Submission, agent: Agent, text: string): LogEntry
    requires agent.round < MAX_TURNS
  {
    Committed(
      ModelKey(agent.round),
      Record(AskModel(job.mode, agent.findings.snapshot.id, agent.messages), ModelValue(Answer(text))))
  }

  function Verification(job: Submission, snapshot: Snapshot, text: string): LogEntry {
    var candidate := Packet(job, snapshot, text);
    Committed(Local("verify-report"), Record(VerifyReport(candidate), CandidateValue(candidate)))
  }

  /** An agent that has read everything about the snapshot. */
  predicate ReadAll(snapshot: Snapshot, agent: Agent) {
    agent.round < MAX_TURNS && agent.findings == Found(snapshot) && agent.refs == AllEvidence(snapshot) &&
    Seen(agent.messages) == TOPICS
  }

  lemma VerifiesAfterAnswer(
    accepts: Candidate -> bool, job: Submission, snapshot: Snapshot, agent: Agent, text: string)
    requires ReadAll(snapshot, agent) && accepts(Packet(job, snapshot, text))
    ensures var d := Apply(Fresh(AgentTurn(job, agent)), Answered(job, agent, text));
      Follows(Run(accepts, d.checkpoint, d.journal), d.journal, Verification(job, snapshot, text))
  {
    KeysAreApart(agent.round, "");
    assert forall topic <- TOPICS :: Readable(snapshot.id, agent.refs, topic);
  }

  lemma ParksForApproval(accepts: Candidate -> bool, job: Submission, snapshot: Snapshot, agent: Agent, text: string)
    requires ReadAll(snapshot, agent)
    ensures var d := Apply(
        Apply(Fresh(AgentTurn(job, agent)), Answered(job, agent, text)), Verification(job, snapshot, text));
      Follows(Run(accepts, d.checkpoint, d.journal), d.journal, Resumed(Decided(job, snapshot, text)))
  {
    KeysAreApart(agent.round, "");
  }

  lemma CanAnswer(
    accepts: Candidate -> bool, job: Submission, log: seq<LogEntry>, snapshot: Snapshot, agent: Agent, text: string)
    returns (longer: seq<LogEntry>)
    requires Reaches(accepts, Some(job), log, Fresh(AgentTurn(job, agent))) && accepts(Packet(job, snapshot, text))
    requires ReadAll(snapshot, agent)
    ensures Reaches(accepts, Some(job), longer, Fresh(Decided(job, snapshot, text)))
  {
    var d := Fresh(AgentTurn(job, agent));
    OneMoreEntry(accepts, Some(job), log, d, Answered(job, agent, text));
    longer, d := log + [Answered(job, agent, text)], Apply(d, Answered(job, agent, text));
    VerifiesAfterAnswer(accepts, job, snapshot, agent, text);
    OneMoreEntry(accepts, Some(job), longer, d, Verification(job, snapshot, text));
    longer, d := longer + [Verification(job, snapshot, text)], Apply(d, Verification(job, snapshot, text));
    ParksForApproval(accepts, job, snapshot, agent, text);
    OneMoreEntry(accepts, Some(job), longer, d, Resumed(Decided(job, snapshot, text)));
    longer := longer + [Resumed(Decided(job, snapshot, text))];
  }

  lemma CanPublish(
    accepts: Candidate -> bool, job: Submission, log: seq<LogEntry>, snapshot: Snapshot, text: string)
    returns (longer: seq<LogEntry>)
    requires Reaches(accepts, Some(job), log, Fresh(Decided(job, snapshot, text)))
    ensures Legal(Investigator(accepts), Ingest(Some(job)), longer)
    ensures Replay(Ingest(Some(job)), longer).finished ==
            Some(Published(Reviewed(job, snapshot, text), Publication(Packet(job, snapshot, text), snapshot.id)))
  {
    var d, candidate := Fresh(Decided(job, snapshot, text)), Packet(job, snapshot, text);
    var publication := Publication(candidate, snapshot.id);
    var written := Committed(
      Local("approval:publish-report"), Record(PublishReport(candidate), PublicationValue(publication)));
    OneMoreEntry(accepts, Some(job), log, d, written);
    longer, d := log + [written], Apply(d, written);
    var result := Finished(Published(Reviewed(job, snapshot, text), publication));
    OneMoreEntry(accepts, Some(job), longer, d, result);
    longer := longer + [result];
  }

  /** Every candidate that the verification accepts can be published: there is a run, without a crash, that does so. */
  lemma PublishedRunExists(accepts: Candidate -> bool, job: Submission, snapshot: Snapshot, text: string)
    returns (states: seq<State<Checkpoint, Key, Request, Value, Result>>, events: seq<Event<Checkpoint, Value>>)
    requires accepts(Packet(job, snapshot, text))
    ensures InvestigationRun(accepts, Some(job), states, events) && Smooth(events)
    ensures states[|events|].durable.finished ==
            Some(Published(Reviewed(job, snapshot, text), Publication(Packet(job, snapshot, text), snapshot.id)))
  {
    var log := CanGather(accepts, job);
    log := CanReconcile(accepts, job, log, snapshot);
    log := CanInvestigate(accepts, job, log, snapshot);
    log := CanReadAll(accepts, job, log, snapshot, ALL_TOPICS);
    AllTopicsSeen(snapshot);
    log := CanAnswer(accepts, job, log, snapshot, Reader(snapshot, ALL_TOPICS), text);
    log := CanPublish(accepts, job, log, snapshot, text);
    states, events := LegalLogRunsSmoothly(Investigator(accepts), Ingest(Some(job)), log);
  }

  lemma AllTopicsSeen(snapshot: Snapshot)
    ensures var agent := Reader(snapshot, ALL_TOPICS);
      && agent.round == 4 && agent.findings == Found(snapshot) && agent.refs == AllEvidence(snapshot)
      && Seen(agent.messages) == TOPICS
  {
    ReaderShape(snapshot, ALL_TOPICS);
    var seen := Seen(Reader(snapshot, ALL_TOPICS).messages);
    assert OnCarrier in ALL_TOPICS && OnWarehouse in ALL_TOPICS;
    assert OnSourceHealth in ALL_TOPICS && OnSupport in ALL_TOPICS;
    forall topic | topic in seen
      ensures topic in TOPICS
    {
      match topic
      case OnCarrier =>
      case OnWarehouse =>
      case OnSourceHealth =>
      case OnSupport =>
    }
  }
}
