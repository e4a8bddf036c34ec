/** What holds in every state the pipeline can reach, whatever the number of models
    and goroutines and however they interleave. */
module PipelineTheorems {
  import opened Collections
  import opened Pipeline
  import PipelineConservation
  import PipelineOrder
  import PipelineCounters
  import PipelineBound
  import PipelineDrains
  import PipelinePlaces
  import PipelineInversion
  import PipelineReader

  lemma {:induction false} NoLists(models: nat, x: Ref)
    ensures var roots := Init(models, 0).roots;
            PipelineConservation.TimesListed(roots, x) == 0 == PipelineConservation.TimesPushed(roots, x)
  {
    if models > 0 {
      NoLists(models - 1, x);
    }
  }

  lemma {:induction false} NoFlights(k: nat, x: Ref)
    ensures PipelineConservation.TimesInFlight(Init(0, k).producers, x) == 0
  {
    if k > 0 {
      NoFlights(k - 1, x);
    }
  }

  lemma {:induction false} InitConserved(models: nat, k: nat, x: Ref)
    ensures PipelineConservation.Conserved(Init(models, k), x)
  {
    NoLists(models, x);
    NoFlights(k, x);
  }

  lemma {:induction false} NothingReported(m: PipelineCounters.Measure, k: nat)
    ensures PipelineCounters.ReportedBy(m, Init(0, k).producers) == 0
  {
    if k > 0 {
      NothingReported(m, k - 1);
    }
  }

  lemma {:induction false} NoLoad(k: nat, b: nat)
    ensures PipelineBound.Load(Init(0, k).producers, b) == 0
  {
    if k > 0 {
      NoLoad(k - 1, b);
    }
  }

  /** Nothing is lost and nothing duplicated: each of the times handlers pushed `x` is
      now in a model's list, in a loop's hands, dropped as nil or unconvertible,
      rejected by a full queue, queued, in the reading loop's hands, or delivered. */
  lemma Conservation(c: Config, models: nat, k: nat, es: seq<Event>, x: Ref)
    requires Runs(c, Init(models, k), es)
    ensures PipelineConservation.Conserved(After(c, Init(models, k), es), x)
  {
    InitConserved(models, k, x);
    PipelineConservation.RunConserves(c, Init(models, k), es, x);
  }

  /** With `k` producers and batches of at most `b`, the queue holds at most
      maxSize - 1 + k * b items; with maxSize <= 0 it stays empty. */
  lemma QueueBound(c: Config, models: nat, k: nat, es: seq<Event>, b: nat)
    requires Runs(c, Init(models, k), es)
    requires PipelineBound.Within(After(c, Init(models, k), es).producers, b)
    ensures var queue := After(c, Init(models, k), es).queue;
            if c.maxSize <= 0 then queue == [] else |queue| <= c.maxSize - 1 + k * b
  {
    RepeatAt(Producer(Idle, [], [], 0), k);
    NoLoad(k, b);
    PipelineBound.RunBounded(c, Init(models, k), es, b);
  }

  /** The bound cannot be lowered: some run reaches it. */
  lemma QueueBoundReached(c: Config, k: nat, b: nat, x: Ref)
    requires k > 0 && b > 0 && c.maxSize >= 1 && x != NIL && c.converts(x)
    ensures exists es ::
              && Runs(c, Init(1, k), es)
              && PipelineBound.Within(After(c, Init(1, k), es).producers, b)
              && |After(c, Init(1, k), es).queue| == c.maxSize - 1 + k * b
  {
    var es := PipelineBound.Overfill(c, k, b, x);
  }

  lemma AllOrdered(c: Config, models: nat, k: nat, es: seq<Event>)
    requires Runs(c, Init(models, k), es)
    ensures PipelineOrder.Ordered(c, After(c, Init(models, k), es))
  {
    RepeatAt(Producer(Idle, [], [], 0), k);
    RepeatAt(Root([], [], []), models);
    PipelineOrder.RunOrdered(c, Init(models, k), es);
  }

  /** Delivered, read and queued items together are the accepted batches in push
      order, and each of them still occupies consecutive places. */
  lemma QueueFifo(c: Config, models: nat, k: nat, es: seq<Event>)
    requires Runs(c, Init(models, k), es)
    ensures var s := After(c, Init(models, k), es);
            var stream := s.delivered + Read(s) + s.queue;
            && stream == PipelineOrder.AcceptedItems(s.accepted)
            && forall i :: 0 <= i < |s.accepted| ==>
                 var at := |PipelineOrder.AcceptedItems(s.accepted[..i])|;
                 at + |s.accepted[i].items| <= |stream| && stream[at..at + |s.accepted[i].items|] == s.accepted[i].items
  {
    AllOrdered(c, models, k, es);
    var s := After(c, Init(models, k), es);
    forall i | 0 <= i < |s.accepted|
      ensures var at := |PipelineOrder.AcceptedItems(s.accepted[..i])|;
              && at + |s.accepted[i].items| <= |PipelineOrder.AcceptedItems(s.accepted)|
              && PipelineOrder.AcceptedItems(s.accepted)[at..at + |s.accepted[i].items|] == s.accepted[i].items
    {
      PipelineOrder.BatchContiguous(s.accepted, i);
    }
  }

  /** A goroutine offers exactly the convertible samples it took, in the order it took
      them, and its accepted batches entered the queue in the order it offered them. */
  lemma ProducerOrder(c: Config, models: nat, k: nat, es: seq<Event>, p: nat)
    requires Runs(c, Init(models, k), es) && p < k
    ensures var s := After(c, Init(models, k), es);
            && |s.producers| == k
            && var w := s.producers[p];
               && Kept(c, w.taken) == PipelineOrder.OfferedItems(w.offered) + PipelineOrder.StillToOffer(c, w.phase)
               && PipelineOrder.By(p, s.accepted) == PipelineOrder.AcceptedOf(w.offered)
  {
    AllOrdered(c, models, k, es);
    PipelineBound.RunGrows(c, Init(models, k), es);
    assert PipelineOrder.ProducerOrdered(c, After(c, Init(models, k), es).producers[p]);
  }

  lemma {:induction false} RunKeepsRoots(c: Config, s: State, es: seq<Event>)
    requires Runs(c, s, es)
    ensures |After(c, s, es).roots| == |s.roots|
    decreases |es|
  {
    if es != [] {
      RunKeepsRoots(c, Apply(c, s, es[0]), es[1..]);
    }
  }

  lemma AllTicketed(c: Config, models: nat, k: nat, es: seq<Event>)
    requires Runs(c, Init(models, k), es)
    ensures var s := After(c, Init(models, k), es);
            && PipelineDrains.Ticketed(c, s) && PipelineDrains.DrainsRecorded(s)
            && |s.producers| == k && |s.roots| == models
            && forall m :: 0 <= m < models ==> s.roots[m].pushed == PipelineDrains.DrainedFrom(m, s.drains) + s.roots[m].list
  {
    var start, s := Init(models, k), After(c, Init(models, k), es);
    PipelineInversion.InitTicketed(c, models, k);
    PipelineDrains.RunTicketed(c, start, es);
    PipelineBound.RunGrows(c, start, es);
    RunKeepsRoots(c, start, es);
    AllOrdered(c, models, k, es);
    forall m | 0 <= m < models
      ensures s.roots[m].pushed == PipelineDrains.DrainedFrom(m, s.drains) + s.roots[m].list
    {
      assert PipelineOrder.RootOrdered(s.roots[m]);
    }
  }

  /** However many loops drain a model's list, what was pushed to it is what they took,
      drain by drain, and then what is still listed: samples left by a failed collection
      leave the list no later than newer ones. Each loop has taken its own drains. */
  lemma DrainOrder(c: Config, models: nat, k: nat, es: seq<Event>)
    requires Runs(c, Init(models, k), es)
    ensures var s := After(c, Init(models, k), es);
            && |s.producers| == k && |s.roots| == models
            && (forall m :: 0 <= m < models ==> s.roots[m].pushed == PipelineDrains.DrainedFrom(m, s.drains) + s.roots[m].list)
            && (forall m, n :: 0 <= m < models && 0 <= n <= |s.drains| ==> PipelineDrains.DrainedFrom(m, s.drains[..n]) <= s.roots[m].pushed)
            && (forall p :: 0 <= p < k ==> s.producers[p].taken == PipelineDrains.DrainedBy(p, s.drains))
  {
    AllTicketed(c, models, k, es);
    var s := After(c, Init(models, k), es);
    forall m, n | 0 <= m < models && 0 <= n <= |s.drains|
      ensures PipelineDrains.DrainedFrom(m, s.drains[..n]) <= s.roots[m].pushed
    {
      PipelinePlaces.DrainedPrefix(m, s.drains, n);
    }
  }

  /** A model's items in the queue's history each stood at some place of its list; they are
      still in that order iff the model's batches were pushed in the order of their drains. */
  lemma ModelOrder(c: Config, models: nat, k: nat, es: seq<Event>, m: nat)
    requires Runs(c, Init(models, k), es) && m < models
    ensures var s := After(c, Init(models, k), es);
            var stream, places := PipelinePlaces.Stream(m, s.drains, s.accepted), PipelinePlaces.StreamPlaces(c, m, s.drains, s.accepted);
            && |s.roots| == models && PipelinePlaces.Found(stream, places, s.roots[m].pushed)
            && (PipelinePlaces.Ascending(places) <==> PipelinePlaces.InDrainOrder(m, s.drains, s.accepted))
  {
    AllTicketed(c, models, k, es);
    var s := After(c, Init(models, k), es);
    PipelineInversion.TicketedEntries(c, s);
    PipelinePlaces.StreamFound(c, m, s.drains, s.accepted);
    PipelinePlaces.OrderKeptIff(c, m, s.drains, s.accepted);
  }

  lemma OrderSafe(c: Config, models: nat, serves: seq<nat>, m: nat, es: seq<Event>)
    requires Runs(c, Init(models, |serves|), es) && PipelineInversion.Serving(serves, es)
    requires !PipelineInversion.OrderAtRisk(c, serves, m)
    ensures !PipelineInversion.OrderLost(c, m, After(c, Init(models, |serves|), es))
  {
    AllTicketed(c, models, |serves|, es);
    var p: nat := 0;
    if forall p, q :: !PipelineInversion.Together(serves, m, p, q) {
      p := PipelineInversion.OneServer(c, models, serves, m, es);
    }
    PipelineInversion.SafeOrder(c, serves, After(c, Init(models, |serves|), es), m, p);
  }

  /** Given which model each goroutine serves: some run loses the order of a model's
      samples iff two goroutines serve it, the queue has room and some sample converts. */
  lemma OrderLostIff(c: Config, models: nat, serves: seq<nat>, m: nat)
    requires m < models
    ensures PipelineInversion.OrderAtRisk(c, serves, m) <==>
              exists es :: PipelineInversion.Loses(c, models, serves, m, es)
  {
    if PipelineInversion.OrderAtRisk(c, serves, m) {
      var x :| PipelinePlaces.Keeps(c, x);
      var p, q :| PipelineInversion.Together(serves, m, p, q);
      var es := PipelineInversion.InvertedRun(c, models, serves, m, p, q, x, x);
      AllTicketed(c, models, |serves|, es);
      PipelineInversion.InversionLoses(c, m, After(c, Init(models, |serves|), es), p, q, x, x);
      assert PipelineInversion.Loses(c, models, serves, m, es);
    } else if es :| PipelineInversion.Loses(c, models, serves, m, es) {
      OrderSafe(c, models, serves, m, es);
      assert false;
    }
  }

  /** A model served by one loop that serves no other: what handlers pushed, with nil and
      unconvertible samples left out, is what the loop offered, then what it holds, then
      what is still listed, in push order. */
  lemma SingleLoopOrder(c: Config, models: nat, k: nat, es: seq<Event>, p: nat, m: nat)
    requires Runs(c, Init(models, k), es) && p < k && m < models
    requires PipelineDrains.SoleEvents(es, p, m)
    ensures var s := After(c, Init(models, k), es);
            && |s.producers| == k && |s.roots| == models
            && var w, r := s.producers[p], s.roots[m];
               Kept(c, r.pushed)
               == PipelineOrder.OfferedItems(w.offered) + PipelineOrder.StillToOffer(c, w.phase) + Kept(c, r.list)
  {
    var start := Init(models, k);
    RepeatAt(Producer(Idle, [], [], 0), k);
    PipelineDrains.RunSole(c, start, es, p, m);
    ProducerOrder(c, models, k, es, p);
    DrainOrder(c, models, k, es);
    var s := After(c, start, es);
    PipelineDrains.SoleDrained(s.drains, p, m);
    PipelineOrder.KeptConcat(c, PipelineDrains.DrainedFrom(m, s.drains), s.roots[m].list);
  }

  /** Each counter plus what pending snapshots will add equals what happened, mod 2^64. */
  lemma CountersAgree(c: Config, models: nat, k: nat, es: seq<Event>, m: PipelineCounters.Measure)
    requires Runs(c, Init(models, k), es)
    ensures PipelineCounters.Agrees(m, After(c, Init(models, k), es))
    ensures PipelineCounters.WritesAgree(After(c, Init(models, k), es))
  {
    NothingReported(m, k);
    PipelineCounters.RunAgrees(m, c, Init(models, k), es);
  }

  /** No snapshot is still to run or to be started. */
  predicate AtRest(s: State) {
    s.pending == [] && forall p :: 0 <= p < |s.producers| ==> !s.producers[p].phase.Reporting?
  }

  lemma {:induction false} NoneReported(m: PipelineCounters.Measure, ps: seq<Producer>)
    requires forall p :: 0 <= p < |ps| ==> !ps[p].phase.Reporting?
    ensures PipelineCounters.ReportedBy(m, ps) == 0
  {
    if ps != [] {
      NoneReported(m, ps[1..]);
    }
  }

  lemma CounterAtRest(c: Config, models: nat, k: nat, es: seq<Event>, m: PipelineCounters.Measure)
    requires Runs(c, Init(models, k), es) && AtRest(After(c, Init(models, k), es))
    ensures var s := After(c, Init(models, k), es);
            PipelineCounters.Counter(m, s.counters) == PipelineCounters.Happened(m, s) % TWO_64
  {
    CountersAgree(c, models, k, es, m);
    NoneReported(m, After(c, Init(models, k), es).producers);
    assert PipelineCounters.Waiting(m, After(c, Init(models, k), es)) == 0;
  }

  lemma Wrapped(a: nat, b: nat)
    ensures ((a + b) % TWO_64 - b % TWO_64) % TWO_64 == a % TWO_64
  {
  }

  /** Once no snapshot is pending, accepted items by the counters are those delivered,
      read or queued; once the reader is back, every writer call is counted. */
  lemma CountersAtRest(c: Config, models: nat, k: nat, es: seq<Event>)
    requires Runs(c, Init(models, k), es) && AtRest(After(c, Init(models, k), es))
    ensures var s := After(c, Init(models, k), es);
            && (s.counters.total - s.counters.failTotal) % TWO_64 == |s.delivered + Read(s) + s.queue| % TWO_64
            && s.counters.failTotal == |s.rejected| % TWO_64
            && s.counters.failCount == s.rejections % TWO_64
            && (s.reader.Ready? ==> s.counters.writes == s.writerCalls % TWO_64)
            && s.counters.writeFails == s.failedCalls % TWO_64
  {
    var s := After(c, Init(models, k), es);
    CounterAtRest(c, models, k, es, PipelineCounters.Items);
    CounterAtRest(c, models, k, es, PipelineCounters.RejectedItems);
    CounterAtRest(c, models, k, es, PipelineCounters.Rejections);
    assert PipelineCounters.WritesAgree(s) by { CountersAgree(c, models, k, es, PipelineCounters.Items); }
    assert s.delivered + Read(s) + s.queue == PipelineOrder.AcceptedItems(s.accepted) by { QueueFifo(c, models, k, es); }
    Wrapped(|PipelineOrder.AcceptedItems(s.accepted)|, |s.rejected|);
  }

  /** The gauge QueueSize always shows a length that the queue has had, though in whatever
      order snapshots run it need not be the latest. */
  lemma GaugeSeen(c: Config, models: nat, k: nat, es: seq<Event>)
    requires Runs(c, Init(models, k), es)
    ensures exists n :: n in PipelineCounters.Lengths(c, Init(models, k), es) && After(c, Init(models, k), es).counters.size == n % TWO_64
  {
    var start := Init(models, k);
    assert 0 in PipelineCounters.Lengths(c, start, es);
    PipelineCounters.RunShows(c, start, es, {0});
    assert {0} + PipelineCounters.Lengths(c, start, es) == PipelineCounters.Lengths(c, start, es);
  }

  // ---- progress of the reading loop -----------------------------------------------

  /** With a batch size of at least one, in every run in which no one pushes, that many
      pops take batch * pops items, or all; the queue is empty iff they are at least
      ceil(length / batch). What was taken is delivered, or about to be, in order. */
  lemma ReaderDelivers(c: Config, s: State, es: seq<Event>)
    requires Runs(c, s, es) && PipelineReader.NoPush(es) && c.batch > 0
    ensures var s', pops := After(c, s, es), PipelineReader.Pops(es);
            && |s'.queue| == |s.queue| - Min(|s.queue|, c.batch * pops)
            && (s'.queue == [] <==> pops >= PipelineReader.Ceil(|s.queue|, c.batch))
            && s'.delivered + Read(s') + s'.queue == s.delivered + Read(s) + s.queue
  {
    var pops := PipelineReader.Pops(es);
    var n := PipelineReader.Taken(|s.queue|, c.batch, pops);
    PipelineReader.RunTakes(c, s, es);
    PipelineReader.TakenMeaning(|s.queue|, c.batch, pops);
    PipelineReader.CeilMeaning(|s.queue|, c.batch, pops);
    assert s.queue == s.queue[..n] + s.queue[n..];
  }

  /** Such runs exist, with any number of writers: the reading loop can always empty the
      queue. */
  lemma ReaderEmptiesQueue(c: Config, s: State, writers: nat) returns (es: seq<Event>)
    requires s.reader.Ready? && c.batch > 0
    ensures Runs(c, s, es) && PipelineReader.Pops(es) == PipelineReader.Ceil(|s.queue|, c.batch)
    ensures var s' := After(c, s, es);
            s'.reader.Ready? && s'.queue == [] && s'.delivered == s.delivered + s.queue
  {
    var n := PipelineReader.Ceil(|s.queue|, c.batch);
    if n > 0 {
      PipelineReader.StillSome(|s.queue|, c.batch, n);
    }
    es := PipelineReader.Rounds(c, s, writers, n);
    ReaderDelivers(c, s, es);
    var s' := After(c, s, es);
    assert s'.delivered + Read(s') + s'.queue == s'.delivered && Read(s) == [];
  }

  lemma StepStuck(c: Config, s: State, e: Event)
    requires Enabled(c, s, e) && c.batch == 0 && s.reader.Ready?
    ensures Apply(c, s, e).reader.Ready? && Apply(c, s, e).delivered == s.delivered
  {
  }

  lemma {:induction false} ReaderStuck(c: Config, s: State, es: seq<Event>)
    requires Runs(c, s, es) && c.batch == 0 && s.reader.Ready?
    ensures After(c, s, es).delivered == s.delivered
    decreases |es|
  {
    if es != [] {
      StepStuck(c, s, es[0]);
      ReaderStuck(c, Apply(c, s, es[0]), es[1..]);
    }
  }

  /** With a batch size of zero nothing is ever delivered. */
  lemma NothingDelivered(c: Config, models: nat, k: nat, es: seq<Event>)
    requires Runs(c, Init(models, k), es) && c.batch == 0
    ensures After(c, Init(models, k), es).delivered == []
  {
    ReaderStuck(c, Init(models, k), es);
  }
}
