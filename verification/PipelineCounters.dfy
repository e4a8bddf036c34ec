/** The detached snapshot goroutines run in any order, yet the counters agree with
    the queue up to the snapshots that have not run. */
module PipelineCounters {
  import opened Collections
  import opened Pipeline
  import opened PipelineOrder

  datatype Measure = Items | RejectedItems | Rejections

  function Amount(k: Measure, count: nat, accepted: bool): nat {
    match k
    case Items => count
    case RejectedItems => if accepted then 0 else count
    case Rejections => if accepted then 0 else 1
  }

  function Reported(k: Measure, phase: Phase): nat {
    if phase.Reporting? then Amount(k, phase.count, phase.accepted) else 0
  }

  function PendingIn(k: Measure, pending: seq<Snap>): nat {
    if pending == [] then 0 else Amount(k, pending[0].count, pending[0].accepted) + PendingIn(k, pending[1..])
  }

  function ReportedBy(k: Measure, ps: seq<Producer>): nat {
    if ps == [] then 0 else Reported(k, ps[0].phase) + ReportedBy(k, ps[1..])
  }

  /** What the snapshots that have not run yet will add. */
  function Waiting(k: Measure, s: State): nat { PendingIn(k, s.pending) + ReportedBy(k, s.producers) }

  /** What has really happened at the queue. */
  function Happened(k: Measure, s: State): nat {
    match k
    case Items => |AcceptedItems(s.accepted)| + |s.rejected|
    case RejectedItems => |s.rejected|
    case Rejections => s.rejections
  }

  function Counter(k: Measure, n: Counters): nat {
    match k
    case Items => n.total
    case RejectedItems => n.failTotal
    case Rejections => n.failCount
  }

  predicate Agrees(k: Measure, s: State) {
    Waiting(k, s) <= Happened(k, s) && Counter(k, s.counters) == (Happened(k, s) - Waiting(k, s)) % TWO_64
  }

  predicate WritesAgree(s: State) {
    var left := if s.reader.Writing? then s.reader.left else 0;
    && left <= s.writerCalls && s.counters.writes == (s.writerCalls - left) % TWO_64
    && s.counters.writeFails == s.failedCalls % TWO_64
  }

  lemma {:induction false} ReportedUpdate(k: Measure, ps: seq<Producer>, p: nat, w: Producer)
    requires p < |ps|
    ensures ReportedBy(k, ps[p := w]) + Reported(k, ps[p].phase) == ReportedBy(k, ps) + Reported(k, w.phase)
  {
    if p == 0 {
      assert ps[p := w][1..] == ps[1..];
    } else {
      ReportedUpdate(k, ps[1..], p - 1, w);
      assert ps[p := w][1..] == ps[1..][p - 1 := w];
    }
  }

  lemma {:induction false} PendingConcat(k: Measure, a: seq<Snap>, b: seq<Snap>)
    ensures PendingIn(k, a + b) == PendingIn(k, a) + PendingIn(k, b)
  {
    if a == [] {
      assert a + b == b;
    } else {
      PendingConcat(k, a[1..], b);
      assert (a + b)[1..] == a[1..] + b;
    }
  }

  lemma PendingRemove(k: Measure, pending: seq<Snap>, i: nat)
    requires i < |pending|
    ensures PendingIn(k, pending[..i] + pending[i + 1..]) + Amount(k, pending[i].count, pending[i].accepted) == PendingIn(k, pending)
  {
    assert pending == pending[..i] + pending[i..];
    assert pending[i..][1..] == pending[i + 1..];
    PendingConcat(k, pending[..i], pending[i..]);
    PendingConcat(k, pending[..i], pending[i + 1..]);
  }

  lemma QuietAgrees(k: Measure, s: State, p: nat, phase: Phase)
    requires At(s, p) && Agrees(k, s) && !PhaseOf(s, p).Reporting? && !phase.Reporting?
    ensures Agrees(k, SetPhase(s, p, phase))
  {
    ReportedUpdate(k, s.producers, p, s.producers[p].(phase := phase));
  }

  lemma TakeListAgrees(k: Measure, s: State, p: nat)
    requires At(s, p) && PhaseOf(s, p).Draining? && PhaseOf(s, p).model < |s.roots| && Agrees(k, s)
    ensures Agrees(k, TakeList(s, p))
  {
    ReportedUpdate(k, s.producers, p, TakeList(s, p).producers[p]);
  }

  lemma RejectAgrees(k: Measure, s: State, p: nat)
    requires At(s, p) && PhaseOf(s, p).Offering? && Agrees(k, s)
    ensures Agrees(k, Reject(s, p, PhaseOf(s, p).items))
  {
    ReportedUpdate(k, s.producers, p, Reject(s, p, PhaseOf(s, p).items).producers[p]);
  }

  lemma PushAgrees(k: Measure, s: State, p: nat)
    requires At(s, p) && PhaseOf(s, p).Pushing? && Agrees(k, s)
    ensures Agrees(k, Push(s, p))
  {
    ReportedUpdate(k, s.producers, p, Push(s, p).producers[p]);
    AcceptedSnoc(s.accepted, Entry(p, s.producers[p].ticket, PhaseOf(s, p).items));
  }

  lemma StartSnapshotAgrees(k: Measure, s: State, p: nat)
    requires At(s, p) && PhaseOf(s, p).Reporting? && Agrees(k, s)
    ensures Agrees(k, StartSnapshot(s, p))
  {
    var s' := StartSnapshot(s, p);
    ReportedUpdate(k, s.producers, p, s'.producers[p]);
    PendingConcat(k, s.pending, s'.pending[|s.pending|..]);
  }

  lemma AddWrapped(a: nat, b: nat)
    ensures (a % TWO_64 + b) % TWO_64 == (a + b) % TWO_64
  {
  }

  lemma FinishSnapshotAgrees(k: Measure, s: State, i: nat)
    requires i < |s.pending| && Agrees(k, s)
    ensures Agrees(k, FinishSnapshot(s, i))
  {
    PendingRemove(k, s.pending, i);
    var snap := s.pending[i];
    AddWrapped(Happened(k, s) - Waiting(k, s), Amount(k, snap.count, snap.accepted));
    assert Counter(k, CountBatch(s.counters, snap)) == (Counter(k, s.counters) + Amount(k, snap.count, snap.accepted)) % TWO_64;
  }

  lemma ConvertAgrees(k: Measure, c: Config, s: State, p: nat)
    requires At(s, p) && PhaseOf(s, p).Forwarding? && Agrees(k, s)
    ensures Agrees(k, Convert(c, s, p))
  {
    var samples := PhaseOf(s, p).samples;
    QuietAgrees(k, s, p, if samples == [] then Idle else Offering(Select(c.converts, samples)));
  }

  lemma SkipNilAgrees(k: Measure, s: State, p: nat)
    requires At(s, p) && PhaseOf(s, p).Processing? && Agrees(k, s)
    ensures Agrees(k, SkipNil(s, p))
  {
    QuietAgrees(k, s, p, Forwarding(Select(NonNil, PhaseOf(s, p).taken)));
  }

  lemma LookAtQueueAgrees(k: Measure, c: Config, s: State, p: nat)
    requires At(s, p) && PhaseOf(s, p).Offering? && Agrees(k, s)
    ensures Agrees(k, LookAtQueue(c, s, p))
  {
    RejectAgrees(k, s, p);
    QuietAgrees(k, s, p, Pushing(PhaseOf(s, p).items));
  }

  lemma StepAgrees(k: Measure, c: Config, s: State, e: Event)
    requires Enabled(c, s, e) && Agrees(k, s)
    ensures Agrees(k, Apply(c, s, e))
  {
    match e
    case SeeList(p, m) => QuietAgrees(k, s, p, Draining(m));
    case DrainList(p) => TakeListAgrees(k, s, p);
    case ProcessTaken(p) => SkipNilAgrees(k, s, p);
    case ConvertSamples(p) => ConvertAgrees(k, c, s, p);
    case SeeQueue(p) => LookAtQueueAgrees(k, c, s, p);
    case PushBatch(p) => PushAgrees(k, s, p);
    case Report(p) => StartSnapshotAgrees(k, s, p);
    case RunSnapshot(i) => FinishSnapshotAgrees(k, s, i);
    case _ =>
  }

  lemma WritesKept(c: Config, s: State, e: Event)
    requires Enabled(c, s, e) && !e.WriterDone?
    ensures var s' := Apply(c, s, e);
            && s'.counters.writes == s.counters.writes
            && s'.counters.writeFails == s.counters.writeFails && s'.failedCalls == s.failedCalls
            && if e.HandOver? then s'.reader == Writing(e.writers) && s'.writerCalls == s.writerCalls + e.writers
               else s'.writerCalls == s.writerCalls &&
                    (if s'.reader.Writing? then s'.reader.left else 0) == (if s.reader.Writing? then s.reader.left else 0)
  {
  }

  lemma StepWritesAgree(c: Config, s: State, e: Event)
    requires Enabled(c, s, e) && WritesAgree(s)
    ensures WritesAgree(Apply(c, s, e))
  {
    if e.WriterDone? {
      AddWrapped(s.writerCalls - s.reader.left, 1);
      AddWrapped(s.failedCalls, 1);
    } else {
      WritesKept(c, s, e);
    }
  }

  lemma {:induction false} RunAgrees(k: Measure, c: Config, s: State, es: seq<Event>)
    requires Runs(c, s, es) && Agrees(k, s) && WritesAgree(s)
    ensures Agrees(k, After(c, s, es)) && WritesAgree(After(c, s, es))
    decreases |es|
  {
    if es != [] {
      StepAgrees(k, c, s, es[0]);
      StepWritesAgree(c, s, es[0]);
      RunAgrees(k, c, Apply(c, s, es[0]), es[1..]);
    }
  }

  // ---- the gauge ------------------------------------------------------------------

  /** The lengths that the queue has during a run. */
  ghost function Lengths(c: Config, s: State, es: seq<Event>): set<nat>
    requires Runs(c, s, es)
    decreases |es|
  {
    if es == [] then {|s.queue|} else {|s.queue|} + Lengths(c, Apply(c, s, es[0]), es[1..])
  }

  /** The gauge and the snapshots that wait show lengths the queue had. */
  predicate Shows(s: State, lengths: set<nat>) {
    && (exists n :: n in lengths && s.counters.size == n % TWO_64)
    && forall i :: 0 <= i < |s.pending| ==> s.pending[i].size in lengths
  }

  /** A snapshot is started with the length at that moment; running it sets the gauge, and
      nothing else does. */
  lemma GaugeStep(c: Config, s: State, e: Event)
    requires Enabled(c, s, e)
    ensures var s' := Apply(c, s, e);
            && s'.counters.size == (if e.RunSnapshot? then s.pending[e.i].size % TWO_64 else s.counters.size)
            && if e.Report? then |s'.pending| == |s.pending| + 1 && s'.pending[..|s.pending|] == s.pending && s'.pending[|s.pending|].size == |s.queue|
               else forall snap :: snap in s'.pending ==> snap in s.pending
  {
  }

  lemma ShowsStep(c: Config, s: State, e: Event, lengths: set<nat>)
    requires Enabled(c, s, e) && Shows(s, lengths)
    ensures Shows(Apply(c, s, e), lengths + {|s.queue|})
  {
    var s', all := Apply(c, s, e), lengths + {|s.queue|};
    GaugeStep(c, s, e);
    if e.RunSnapshot? {
      assert s.pending[e.i].size in all;
    } else {
      var n :| n in lengths && s.counters.size == n % TWO_64;
      assert n in all;
    }
    forall i | 0 <= i < |s'.pending|
      ensures s'.pending[i].size in all
    {
      if e.Report? {
        assert i < |s.pending| ==> s'.pending[..|s.pending|][i] == s.pending[i];
      } else {
        assert s'.pending[i] in s.pending;
      }
    }
  }

  lemma {:induction false} RunShows(c: Config, s: State, es: seq<Event>, lengths: set<nat>)
    requires Runs(c, s, es) && Shows(s, lengths)
    ensures Shows(After(c, s, es), lengths + Lengths(c, s, es))
    decreases |es|
  {
    if es == [] {
      var n :| n in lengths && s.counters.size == n % TWO_64;
      assert n in lengths + {|s.queue|};
    } else {
      ShowsStep(c, s, es[0], lengths);
      RunShows(c, Apply(c, s, es[0]), es[1..], lengths + {|s.queue|});
      assert lengths + {|s.queue|} + Lengths(c, Apply(c, s, es[0]), es[1..]) == lengths + Lengths(c, s, es);
    }
  }
}
