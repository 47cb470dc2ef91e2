/**
 The batched fan-out controller: it launches at most fifty children per activation, waits for all of
 them, and folds their results into a checkpointed sum.
 */
module BatchController {
  import opened Common
  import opened Journal

  const BATCH := 50

  datatype Progress = Progress(previous: nat, offset: nat, total: int)

  /**
   One activation: `state` is None at the start, `children` are the items whose launch the checkpoint
   committed, and `inputs` are the results of those that succeeded, by index.
   */
  datatype Activation = Activation(count: int, state: Option<Progress>, children: seq<nat>, inputs: map<nat, int>)

  datatype Result = Completed(count: int, total: int)

  type Log = seq<Entry<Activation, string, (), (), Result>>

  function SumOf(inputs: map<nat, int>, low: nat, high: nat): int
    requires forall i | low <= i < high :: i in inputs
    decreases high
  {
    if low >= high then 0 else SumOf(inputs, low, high - 1) + inputs[high - 1]
  }

  function Range(low: nat, high: nat): (items: seq<nat>)
    requires low <= high
    ensures |items| == high - low && forall k | 0 <= k < |items| :: items[k] == low + k
  {
    seq(high - low, (k: nat) => low + k)
  }

  predicate AllReturned(a: Activation, progress: Progress) {
    forall i | progress.previous <= i < progress.offset :: i in a.inputs
  }

  function ProgressOf(a: Activation): Progress {
    if a.state.Some? then a.state.value else Progress(0, 0, 0)
  }

  /** The code of one activation; reading the result of a child that did not succeed raises. */
  function Controller(a: Activation): Outcome<Activation, string, (), Result> {
    var progress := ProgressOf(a);
    if !AllReturned(a, progress) then Raise
    else
      var total := progress.total + SumOf(a.inputs, progress.previous, progress.offset);
      if progress.offset >= a.count then Finish(Completed(a.count, total))
      else
        var end := if progress.offset + BATCH < a.count then progress.offset + BATCH else a.count;
        Checkpoint(Activation(a.count, Some(Progress(progress.offset, end, total)), Range(progress.offset, end), map[]))
  }

  /** The statements of the controller, run from a checkpoint. */
  method Distributed(a: Activation) returns (outcome: Outcome<Activation, string, (), Result>)
    ensures outcome == Controller(a)
  {
    var offset, total := 0, 0;
    if a.state.Some? {
      offset, total := a.state.value.offset, a.state.value.total;
      var index: nat := a.state.value.previous;
      while index < offset
        invariant a.state.value.previous <= index && (index <= offset || index == a.state.value.previous)
        invariant forall i | a.state.value.previous <= i < index :: i in a.inputs
        invariant total == a.state.value.total + SumOf(a.inputs, a.state.value.previous, index)
      {
        if index !in a.inputs {
          return Raise;
        }
        total := total + a.inputs[index];
        index := index + 1;
      }
    }
    if offset >= a.count {
      return Finish(Completed(a.count, total));
    }
    var end := if offset + BATCH < a.count then offset + BATCH else a.count;
    var children := [];
    for index := offset to end
      invariant children == Range(offset, index)
    {
      children := children + [index];
    }
    return Checkpoint(Activation(a.count, Some(Progress(offset, end, total)), children, map[]));
  }

  /** A parked controller comes back, once its children are terminal, with the results of those that succeeded. */
  function Program(): Journal.Program<Activation, string, (), (), Result> {
    Journal.Program(
      (a: Activation, journal: map<string, Record<(), ()>>) => Controller(a),
      (request: (), value: ()) => true,
      (parked: Activation, resumed: Activation) =>
        resumed == parked.(inputs := resumed.inputs) && forall i <- resumed.inputs :: i in parked.children)
  }

  function Start(count: int): Activation {
    Activation(count, None, [], map[])
  }

  /** Every child launched so far, in order. */
  function Launched(log: Log): seq<nat> {
    if log == [] then []
    else
      var last := log[|log| - 1];
      Launched(log[..|log| - 1]) + (if last.Resumed? then last.checkpoint.children else [])
  }

  function Activations(log: Log): nat {
    if log == [] then 1 else Activations(log[..|log| - 1]) + (if log[|log| - 1].Resumed? then 1 else 0)
  }

  /** Every result that came back for a child is the one `results` gives for it. */
  ghost predicate Agrees(log: Log, results: nat -> int) {
    forall entry <- log | entry.Resumed? :: forall i <- entry.checkpoint.inputs ::
      entry.checkpoint.inputs[i] == results(i)
  }

  function Total(results: nat -> int, n: nat): int {
    if n == 0 then 0 else Total(results, n - 1) + results(n - 1)
  }

  function Batches(count: int): nat {
    if count <= 0 then 0 else ((count - 1) / BATCH) + 1
  }

  function Items(count: int): nat {
    if count < 0 then 0 else count
  }

  lemma {:induction false} SumIsTotal(inputs: map<nat, int>, low: nat, high: nat, results: nat -> int)
    requires low <= high && forall i | low <= i < high :: i in inputs && inputs[i] == results(i)
    ensures Total(results, high) == Total(results, low) + SumOf(inputs, low, high)
    decreases high - low
  {
    if low < high {
      SumIsTotal(inputs, low, high - 1, results);
    }
  }

  /** The checkpointed sum is that of the batches that came back, and a finished run has them all. */
  ghost predicate Sums(count: int, d: Durable<Activation, string, (), (), Result>, results: nat -> int) {
    var progress := ProgressOf(d.checkpoint);
    && d.checkpoint.count == count && d.journal == map[]
    && progress.previous <= progress.offset <= Items(count)
    && progress.total == Total(results, progress.previous)
    && (forall i <- d.checkpoint.inputs :: d.checkpoint.inputs[i] == results(i))
    && (d.finished.Some? ==>
          progress.offset == Items(count) && d.finished.value == Completed(count, Total(results, Items(count))))
  }

  /** The log shows as many batches as the checkpoint says, each of them full or the last. */
  ghost predicate Trail(count: int, log: Log, d: Durable<Activation, string, (), (), Result>) {
    var offset := ProgressOf(d.checkpoint).offset;
    && Launched(log) == Range(0, offset)
    && (offset < Items(count) ==> offset % BATCH == 0)
    && Activations(log) == 1 + Batches(offset)
    && (forall entry <- log | entry.Resumed? :: 1 <= |entry.checkpoint.children| <= BATCH)
  }

  lemma NextBatch(offset: nat, count: int, end: nat)
    requires offset < count && offset % BATCH == 0
    requires end == if offset + BATCH < count then offset + BATCH else count
    ensures Batches(end) == Batches(offset) + 1
    ensures end < count ==> end % BATCH == 0
    ensures Range(0, offset) + Range(offset, end) == Range(0, end)
    ensures 1 <= |Range(offset, end)| <= BATCH
  {
    assert offset == BATCH * (offset / BATCH);
    assert end <= offset + BATCH;
  }

  lemma EntryKeepsSums(
    count: int, d: Durable<Activation, string, (), (), Result>,
    entry: Entry<Activation, string, (), (), Result>, results: nat -> int)
    requires Sums(count, d, results) && Allowed(Program(), d, entry) && Agrees([entry], results)
    ensures Sums(count, Apply(d, entry), results)
  {
    assert entry in [entry];
    var progress := ProgressOf(d.checkpoint);
    SumIsTotal(d.checkpoint.inputs, progress.previous, progress.offset, results);
  }

  lemma EntryKeepsTrail(
    count: int, log: Log, d: Durable<Activation, string, (), (), Result>,
    entry: Entry<Activation, string, (), (), Result>)
    requires d.checkpoint.count == count && Trail(count, log, d) && Allowed(Program(), d, entry)
    ensures Trail(count, log + [entry], Apply(d, entry))
  {
    assert (log + [entry])[..|log|] == log;
    if entry.Resumed? {
      NextBatch(ProgressOf(d.checkpoint).offset, count, ProgressOf(entry.checkpoint).offset);
    }
  }

  lemma AgreementSplits(log: Log, results: nat -> int)
    requires log != [] && Agrees(log, results)
    ensures Agrees(log[..|log| - 1], results) && Agrees([log[|log| - 1]], results)
  {
    forall entry | entry in log[..|log| - 1] + [log[|log| - 1]] ensures entry in log {}
  }

  /** The results that came back so far are of items below the current offset. */
  ghost predicate CameBack(log: Log, offset: nat) {
    forall entry <- log | entry.Resumed? :: forall i <- entry.checkpoint.inputs :: i < offset
  }

  /** The results of a batch are of items that no earlier batch had. */
  lemma BatchComesBack(
    count: int, d: Durable<Activation, string, (), (), Result>, entry: Entry<Activation, string, (), (), Result>)
    requires d.checkpoint.count == count && Allowed(Program(), d, entry) && entry.Resumed?
    ensures var low, high := ProgressOf(d.checkpoint).offset, ProgressOf(entry.checkpoint).offset;
      low <= high && forall i <- entry.checkpoint.inputs :: low <= i < high
  {
    var parked := Controller(d.checkpoint).next;
    forall i | i in entry.checkpoint.inputs
      ensures ProgressOf(d.checkpoint).offset <= i < ProgressOf(entry.checkpoint).offset
    {
      assert i in parked.children;
    }
  }

  ghost predicate OnTrail(count: int, log: Log, d: Durable<Activation, string, (), (), Result>) {
    && d.checkpoint.count == count && Trail(count, log, d) && CameBack(log, ProgressOf(d.checkpoint).offset)
    && (d.finished.Some? ==> ProgressOf(d.checkpoint).offset >= count)
  }

  lemma CameBackStays(log: Log, entry: Entry<Activation, string, (), (), Result>, low: nat, high: nat)
    requires CameBack(log, low) && low <= high
    requires entry.Resumed? ==> forall i <- entry.checkpoint.inputs :: i < high
    ensures CameBack(log + [entry], high)
  {
  }

  lemma EntryKeepsOnTrail(
    count: int, log: Log, d: Durable<Activation, string, (), (), Result>,
    entry: Entry<Activation, string, (), (), Result>)
    requires OnTrail(count, log, d) && Allowed(Program(), d, entry)
    ensures OnTrail(count, log + [entry], Apply(d, entry))
  {
    EntryKeepsTrail(count, log, d, entry);
    var offset := ProgressOf(d.checkpoint).offset;
    if entry.Resumed? {
      BatchComesBack(count, d, entry);
      CameBackStays(log, entry, offset, ProgressOf(entry.checkpoint).offset);
    } else {
      CameBackStays(log, entry, offset, offset);
    }
  }

  lemma StartIsOnTrail(count: int)
    ensures OnTrail(count, [], Durable(Start(count), map[], None))
  {
    assert Launched([]) == Range(0, 0);
  }

  lemma {:induction false} LogKeepsTrail(count: int, log: Log)
    requires Legal(Program(), Start(count), log)
    ensures OnTrail(count, log, Replay(Start(count), log))
  {
    if log == [] {
      StartIsOnTrail(count);
    } else {
      var front, last := log[..|log| - 1], log[|log| - 1];
      FrontAndLast(log);
      LogKeepsTrail(count, front);
      EntryKeepsOnTrail(count, front, Replay(Start(count), front), last);
    }
  }

  lemma {:induction false} LogKeepsSums(count: int, log: Log, results: nat -> int)
    requires Legal(Program(), Start(count), log) && Agrees(log, results)
    ensures Sums(count, Replay(Start(count), log), results)
  {
    if log != [] {
      var front, last := log[..|log| - 1], log[|log| - 1];
      FrontAndLast(log);
      AgreementSplits(log, results);
      LogKeepsSums(count, front, results);
      EntryKeepsSums(count, Replay(Start(count), front), last, results);
    }
  }

  lemma AddResults(log: Log, entry: Entry<Activation, string, (), (), Result>, low: nat, earlier: nat -> int)
    returns (results: nat -> int)
    requires Agrees(log, earlier) && CameBack(log, low)
    requires entry.Resumed? ==> forall i <- entry.checkpoint.inputs :: low <= i
    ensures Agrees(log + [entry], results)
  {
    results := earlier;
    if entry.Resumed? {
      var inputs := entry.checkpoint.inputs;
      results := (i: nat) => if i in inputs then inputs[i] else earlier(i);
    }
  }

  /** The results of a run, as a function of the item: no item is awaited twice, so there is one for every log. */
  lemma {:induction false} CommittedResults(count: int, log: Log) returns (results: nat -> int)
    requires Legal(Program(), Start(count), log)
    ensures Agrees(log, results)
  {
    results := (i: nat) => 0;
    if log != [] {
      var front, last := log[..|log| - 1], log[|log| - 1];
      var d := Replay(Start(count), front);
      FrontAndLast(log);
      var earlier := CommittedResults(count, front);
      LogKeepsTrail(count, front);
      if last.Resumed? {
        BatchComesBack(count, d, last);
      }
      results := AddResults(front, last, ProgressOf(d.checkpoint).offset, earlier);
    }
  }

  /**
   The whole fan-out, under crashes and replays of any activation: in every state the items launched are 0, 1, 2, ...
   without a repetition, and at most fifty are awaited together; a finished run has launched every item once and used
   one activation per batch and one more.
   */
  lemma FanOutIsExact(
    count: int, states: seq<State<Activation, string, (), (), Result>>, events: seq<Event<Activation, ()>>, i: nat)
    requires IsRun(Program(), Start(count), states, events) && i < |states|
    ensures |Launched(states[i].log)| <= Items(count)
    ensures Launched(states[i].log) == Range(0, |Launched(states[i].log)|)
    ensures forall entry <- states[i].log | entry.Resumed? :: |entry.checkpoint.children| <= BATCH
    ensures Activations(states[i].log) <= 1 + Batches(count)
    ensures states[i].durable.finished.Some? ==>
      Launched(states[i].log) == Range(0, Items(count)) && Activations(states[i].log) == 1 + Batches(count)
  {
    CrashesAreInvisible(Program(), Start(count), states, events, i);
    LogKeepsTrail(count, states[i].log);
    var results := CommittedResults(count, states[i].log);
    LogKeepsSums(count, states[i].log, results);
  }

  /** A finished run reports the sum of the results of all its items, one for each of them. */
  lemma ReportedIsTheSum(
    count: int, states: seq<State<Activation, string, (), (), Result>>, events: seq<Event<Activation, ()>>, i: nat)
    returns (results: nat -> int)
    requires IsRun(Program(), Start(count), states, events) && i < |states|
    ensures Agrees(states[i].log, results)
    ensures states[i].durable.finished.Some? ==>
      states[i].durable.finished.value == Completed(count, Total(results, Items(count)))
  {
    CrashesAreInvisible(Program(), Start(count), states, events, i);
    results := CommittedResults(count, states[i].log);
    LogKeepsSums(count, states[i].log, results);
  }

  lemma {:induction false} TotalOfIndices(n: nat)
    ensures 2 * Total((i: nat) => i, n) == n * (n - 1)
  {
    if n > 0 {
      TotalOfIndices(n - 1);
    }
  }

  /** When each child returns its own index, the reported total is n(n-1)/2. */
  lemma IndicesAddUp(
    count: nat, states: seq<State<Activation, string, (), (), Result>>, events: seq<Event<Activation, ()>>, i: nat)
    requires IsRun(Program(), Start(count), states, events) && i < |states| && states[i].durable.finished.Some?
    requires Agrees(states[i].log, (index: nat) => index)
    ensures states[i].durable.finished.value == Completed(count, count * (count - 1) / 2)
  {
    CrashesAreInvisible(Program(), Start(count), states, events, i);
    LogKeepsSums(count, states[i].log, (index: nat) => index);
    TotalOfIndices(count);
    assert Total((index: nat) => index, count) == Total((j: nat) => j, count);
  }

  /** A child that did not succeed stops the run: nothing commits while its result is missing. */
  lemma FailedChildNeverCompletes(
    d: Durable<Activation, string, (), (), Result>, entry: Entry<Activation, string, (), (), Result>, child: nat)
    requires var progress := ProgressOf(d.checkpoint); progress.previous <= child < progress.offset
    requires child !in d.checkpoint.inputs
    ensures !Allowed(Program(), d, entry)
  {
  }
}
