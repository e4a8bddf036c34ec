/** The concurrent sample pipeline: handlers push into one shared list per model,
    monitor loops drain those lists, and the batches they offer go through the
    limited queue to the reading loop. One event is one critical section (or one
    stretch of code that touches nothing shared), so every interleaving of the
    goroutines is a sequence of events.

    A sample is known by its reference; a time series is known by the sample it was
    converted from. */
module Pipeline {
  import opened Collections
  import opened SafeLists

  type Ref = nat

  const NIL: Ref := 0

  const TWO_64: nat := 0x1_0000_0000_0000_0000

  /** `converts` is the success of ToFloat64 on the sample's value. */
  datatype Config = Config(maxSize: int, batch: nat, converts: Ref -> bool)

  type UInt64 = n: nat | n < TWO_64

  datatype Batch = Batch(items: seq<Ref>, accepted: bool)

  /** One PopBackAll in Process: who took what from which model's list. */
  datatype Drain = Drain(p: nat, model: nat, items: seq<Ref>)

  /** A batch in the queue's history: who pushed it, and out of which drain it came. */
  datatype Entry = Entry(p: nat, ticket: nat, items: seq<Ref>)

  /** Where a goroutine that runs collection cycles stands. */
  datatype Phase =
    | Idle
    | Draining(model: nat)          // Process saw a non-empty list; PopBackAll is still to come
    | Processing(taken: seq<Ref>)
    | Forwarding(samples: seq<Ref>)
    | Offering(items: seq<Ref>)     // PushFrontN is called; the length is not read yet
    | Pushing(items: seq<Ref>)      // the length was below maxSize; the push is still to come
    | Reporting(count: nat, accepted: bool)

  /** A goroutine with the history of what it took from lists and offered to the queue.
      `ticket` numbers the drain it is working on, or has worked on last. */
  datatype Producer = Producer(phase: Phase, taken: seq<Ref>, offered: seq<Batch>, ticket: nat)

  /** A model's shared list, oldest first, with its history. */
  datatype Root = Root(list: seq<Ref>, pushed: seq<Ref>, drained: seq<Ref>)

  datatype Reader = Ready | Holding(items: seq<Ref>) | Writing(left: nat)

  datatype Snap = Snap(count: nat, size: nat, accepted: bool)

  /** The uint64 fields of Snapshot. */
  datatype Counters = Counters(
    failCount: UInt64, failTotal: UInt64, total: UInt64, size: UInt64, writes: UInt64, writeFails: UInt64)

  datatype State = State(
    roots: seq<Root>,
    producers: seq<Producer>,
    queue: seq<Ref>,
    reader: Reader,
    pending: seq<Snap>,              // snapshot goroutines that have not run yet
    counters: Counters,
    drains: seq<Drain>,              // history: what was taken from lists, in that order
    accepted: seq<Entry>,            // history: the batches pushed, in push order
    rejected: multiset<Ref>,         // history: offered while the queue was full
    rejections: nat,
    dropped: multiset<Ref>,          // history: nil or unconvertible
    delivered: seq<Ref>,             // history: handed to WriteTimeSeries
    writerCalls: nat,                // history: writers that were given a batch
    failedCalls: nat)                // history: those of them that returned an error

  datatype Event =
    | HandlerPush(root: nat, samples: seq<Ref>)
    | SeeList(p: nat, model: nat)
    | DrainList(p: nat)
    | ProcessTaken(p: nat)
    | ConvertSamples(p: nat)
    | SeeQueue(p: nat)
    | PushBatch(p: nat)
    | Report(p: nat)
    | RunSnapshot(i: nat)
    | PopBatch
    | HandOver(writers: nat)
    | WriterDone(ok: bool)
    | ReadAgain

  predicate NonNil(r: Ref) { r != NIL }

  function Kept(c: Config, s: seq<Ref>): seq<Ref> {
    Select(c.converts, Select(NonNil, s))
  }

  function Init(models: nat, k: nat): State {
    State(Repeat(Root([], [], []), models), Repeat(Producer(Idle, [], [], 0), k), [], Ready, [],
          Counters(0, 0, 0, 0, 0, 0), [], [], multiset{}, 0, multiset{}, [], 0, 0)
  }

  predicate At(s: State, p: nat) { p < |s.producers| }

  function PhaseOf(s: State, p: nat): Phase
    requires At(s, p)
  {
    s.producers[p].phase
  }

  predicate Enabled(c: Config, s: State, e: Event) {
    match e
    case HandlerPush(m, _) => m < |s.roots|
    case SeeList(p, m) => At(s, p) && PhaseOf(s, p).Idle? && m < |s.roots|
    case DrainList(p) => At(s, p) && PhaseOf(s, p).Draining? && PhaseOf(s, p).model < |s.roots|
    case ProcessTaken(p) => At(s, p) && PhaseOf(s, p).Processing?
    case ConvertSamples(p) => At(s, p) && PhaseOf(s, p).Forwarding?
    case SeeQueue(p) => At(s, p) && PhaseOf(s, p).Offering?
    case PushBatch(p) => At(s, p) && PhaseOf(s, p).Pushing?
    case Report(p) => At(s, p) && PhaseOf(s, p).Reporting?
    case RunSnapshot(i) => i < |s.pending|
    case PopBatch => s.reader.Ready?
    case HandOver(_) => s.reader.Holding?
    case WriterDone(_) => s.reader.Writing? && s.reader.left > 0
    case ReadAgain => s.reader.Writing? && s.reader.left == 0
  }

  function SetPhase(s: State, p: nat, phase: Phase): State
    requires At(s, p)
  {
    s.(producers := s.producers[p := s.producers[p].(phase := phase)])
  }

  /** internal/writer/writers.go: snapshot, modes "queue" and "write". */
  function CountBatch(n: Counters, snap: Snap): Counters {
    n.(total := (n.total + snap.count) % TWO_64,
       size := snap.size % TWO_64,
       failCount := if snap.accepted then n.failCount else (n.failCount + 1) % TWO_64,
       failTotal := if snap.accepted then n.failTotal else (n.failTotal + snap.count) % TWO_64)
  }

  function CountWrite(n: Counters, ok: bool): Counters {
    n.(writes := (n.writes + 1) % TWO_64,
       writeFails := if ok then n.writeFails else (n.writeFails + 1) % TWO_64)
  }

  /** pkg/types/safe_list.go: PushFront or PushFrontN on a model's list. */
  function PushToList(s: State, m: nat, samples: seq<Ref>): State
    requires m < |s.roots|
  {
    var r := s.roots[m];
    s.(roots := s.roots[m := r.(list := r.list + samples, pushed := r.pushed + samples)])
  }

  /** pkg/process/process.go: the length check at the head of Process. */
  function LookAtList(s: State, p: nat, m: nat): State
    requires At(s, p) && m < |s.roots|
  {
    if s.roots[m].list == [] then s else SetPhase(s, p, Draining(m))
  }

  /** PopBackAll in Process; another loop may have emptied the list since the check. */
  function TakeList(s: State, p: nat): State
    requires At(s, p) && PhaseOf(s, p).Draining? && PhaseOf(s, p).model < |s.roots|
  {
    var w := s.producers[p];
    var r := s.roots[w.phase.model];
    s.(roots := s.roots[w.phase.model := r.(list := [], drained := r.drained + r.list)],
       producers := s.producers[p := w.(phase := Processing(r.list), taken := w.taken + r.list, ticket := |s.drains|)],
       drains := s.drains + [Drain(p, w.phase.model, r.list)])
  }

  /** The rest of Process, which skips nil samples, and PopBackAll in forward. */
  function SkipNil(s: State, p: nat): State
    requires At(s, p) && PhaseOf(s, p).Processing?
  {
    var taken := PhaseOf(s, p).taken;
    var samples := Select(NonNil, taken);
    SetPhase(s, p, Forwarding(samples)).(dropped := s.dropped + (multiset(taken) - multiset(samples)))
  }

  /** WriteSamples up to its PushFrontN: nothing to do for no samples, else convert each. */
  function Convert(c: Config, s: State, p: nat): State
    requires At(s, p) && PhaseOf(s, p).Forwarding?
  {
    var samples := PhaseOf(s, p).samples;
    var items := Select(c.converts, samples);
    if samples == [] then SetPhase(s, p, Idle)
    else SetPhase(s, p, Offering(items)).(dropped := s.dropped + (multiset(samples) - multiset(items)))
  }

  function Reject(s: State, p: nat, items: seq<Ref>): State
    requires At(s, p)
  {
    var w := s.producers[p];
    s.(producers := s.producers[p := w.(phase := Reporting(|items|, false), offered := w.offered + [Batch(items, false)])],
       rejected := s.rejected + multiset(items),
       rejections := s.rejections + 1)
  }

  /** SafeListLimited.PushFrontN, its first critical section. */
  function LookAtQueue(c: Config, s: State, p: nat): State
    requires At(s, p) && PhaseOf(s, p).Offering?
  {
    var items := PhaseOf(s, p).items;
    if |s.queue| >= c.maxSize then Reject(s, p, items) else SetPhase(s, p, Pushing(items))
  }

  /** SafeListLimited.PushFrontN, its second critical section. */
  function Push(s: State, p: nat): State
    requires At(s, p) && PhaseOf(s, p).Pushing?
  {
    var w := s.producers[p];
    var items := w.phase.items;
    s.(producers := s.producers[p := w.(phase := Reporting(|items|, true), offered := w.offered + [Batch(items, true)])],
       queue := s.queue + items,
       accepted := s.accepted + [Entry(p, w.ticket, items)])
  }

  /** The rest of WriteSamples: read the length, start the snapshot goroutine. */
  function StartSnapshot(s: State, p: nat): State
    requires At(s, p) && PhaseOf(s, p).Reporting?
  {
    var r := PhaseOf(s, p);
    SetPhase(s, p, Idle).(pending := s.pending + [Snap(r.count, |s.queue|, r.accepted)])
  }

  function FinishSnapshot(s: State, i: nat): State
    requires i < |s.pending|
  {
    s.(pending := s.pending[..i] + s.pending[i + 1..], counters := CountBatch(s.counters, s.pending[i]))
  }

  /** PopBackN in loopRead; an empty result only makes the loop sleep and try again. */
  function Pop(c: Config, s: State): State
    requires s.reader.Ready?
  {
    var n := PopCount(|s.queue|, c.batch);
    if n == 0 then s else s.(queue := s.queue[n..], reader := Holding(s.queue[..n]))
  }

  /** WriteTimeSeries gives the batch to every writer it finds. */
  function Deliver(s: State, writers: nat): State
    requires s.reader.Holding?
  {
    s.(delivered := s.delivered + s.reader.items, reader := Writing(writers), writerCalls := s.writerCalls + writers)
  }

  /** One writer returned, and its snapshot counted it. */
  function FinishCall(s: State, ok: bool): State
    requires s.reader.Writing? && s.reader.left > 0
  {
    s.(reader := Writing(s.reader.left - 1),
       counters := CountWrite(s.counters, ok),
       failedCalls := if ok then s.failedCalls else s.failedCalls + 1)
  }

  function Apply(c: Config, s: State, e: Event): State
    requires Enabled(c, s, e)
  {
    match e
    case HandlerPush(m, samples) => PushToList(s, m, samples)
    case SeeList(p, m) => LookAtList(s, p, m)
    case DrainList(p) => TakeList(s, p)
    case ProcessTaken(p) => SkipNil(s, p)
    case ConvertSamples(p) => Convert(c, s, p)
    case SeeQueue(p) => LookAtQueue(c, s, p)
    case PushBatch(p) => Push(s, p)
    case Report(p) => StartSnapshot(s, p)
    case RunSnapshot(i) => FinishSnapshot(s, i)
    case PopBatch => Pop(c, s)
    case HandOver(writers) => Deliver(s, writers)
    case WriterDone(ok) => FinishCall(s, ok)
    case ReadAgain => s.(reader := Ready)
  }

  /** `es` can happen from `s`, in this order. */
  predicate Runs(c: Config, s: State, es: seq<Event>)
    decreases |es|
  {
    es == [] || (Enabled(c, s, es[0]) && Runs(c, Apply(c, s, es[0]), es[1..]))
  }

  function After(c: Config, s: State, es: seq<Event>): State
    requires Runs(c, s, es)
    decreases |es|
  {
    if es == [] then s else After(c, Apply(c, s, es[0]), es[1..])
  }

  // ---- views --------------------------------------------------------------

  /** Samples a producer holds and has neither dropped, offered nor had rejected. */
  function InFlight(phase: Phase): seq<Ref> {
    match phase
    case Processing(taken) => taken
    case Forwarding(samples) => samples
    case Offering(items) => items
    case Pushing(items) => items
    case _ => []
  }

  function Read(s: State): seq<Ref> { if s.reader.Holding? then s.reader.items else [] }
}
