/** The queue is first-in first-out over every interleaving, and no goroutine's
    samples change places on the way to the queue. */
module PipelineOrder {
  import opened Collections
  import opened SafeLists
  import opened Pipeline

  /** The accepted batches one after the other. */
  function AcceptedItems(accepted: seq<Entry>): seq<Ref> {
    if accepted == [] then [] else AcceptedItems(accepted[..|accepted| - 1]) + accepted[|accepted| - 1].items
  }

  function OfferedItems(offered: seq<Batch>): seq<Ref> {
    if offered == [] then [] else OfferedItems(offered[..|offered| - 1]) + offered[|offered| - 1].items
  }

  /** The batches that producer `p` pushed, in push order. */
  function By(p: nat, accepted: seq<Entry>): seq<seq<Ref>> {
    if accepted == [] then []
    else
      var last := accepted[|accepted| - 1];
      By(p, accepted[..|accepted| - 1]) + if last.p == p then [last.items] else []
  }

  /** The batches in a producer's own history that were accepted, in the order it offered them. */
  function AcceptedOf(offered: seq<Batch>): seq<seq<Ref>> {
    if offered == [] then []
    else
      var last := offered[|offered| - 1];
      AcceptedOf(offered[..|offered| - 1]) + if last.accepted then [last.items] else []
  }

  /** What is left to offer of the samples a producer took. */
  function StillToOffer(c: Config, phase: Phase): seq<Ref> {
    match phase
    case Processing(taken) => Kept(c, taken)
    case Forwarding(samples) => Select(c.converts, samples)
    case Offering(items) => items
    case Pushing(items) => items
    case _ => []
  }

  predicate RootOrdered(r: Root) { r.pushed == r.drained + r.list }

  predicate ProducerOrdered(c: Config, w: Producer) {
    Kept(c, w.taken) == OfferedItems(w.offered) + StillToOffer(c, w.phase)
  }

  predicate Ordered(c: Config, s: State) {
    && AcceptedItems(s.accepted) == s.delivered + Read(s) + s.queue
    && (forall m :: 0 <= m < |s.roots| ==> RootOrdered(s.roots[m]))
    && (forall p :: 0 <= p < |s.producers| ==> ProducerOrdered(c, s.producers[p]))
    && (forall p :: 0 <= p < |s.producers| ==> AcceptedOf(s.producers[p].offered) == By(p, s.accepted))
  }

  lemma KeptConcat(c: Config, a: seq<Ref>, b: seq<Ref>)
    ensures Kept(c, a + b) == Kept(c, a) + Kept(c, b)
  {
    SelectConcat(NonNil, a, b);
    SelectConcat(c.converts, Select(NonNil, a), Select(NonNil, b));
  }

  lemma TakeOrdered(c: Config, w: Producer, list: seq<Ref>)
    requires ProducerOrdered(c, w) && w.phase.Draining?
    ensures ProducerOrdered(c, w.(phase := Processing(list), taken := w.taken + list))
  {
    KeptConcat(c, w.taken, list);
  }

  lemma OfferedSnoc(offered: seq<Batch>, b: Batch)
    ensures OfferedItems(offered + [b]) == OfferedItems(offered) + b.items
    ensures AcceptedOf(offered + [b]) == AcceptedOf(offered) + if b.accepted then [b.items] else []
  {
    assert (offered + [b])[..|offered|] == offered;
  }

  lemma OfferOrdered(c: Config, w: Producer, b: Batch)
    requires ProducerOrdered(c, w) && (w.phase.Offering? || w.phase.Pushing?) && w.phase.items == b.items
    ensures ProducerOrdered(c, w.(phase := Reporting(|b.items|, b.accepted), offered := w.offered + [b]))
  {
    OfferedSnoc(w.offered, b);
  }

  lemma TakeListOrdered(c: Config, s: State, p: nat)
    requires At(s, p) && PhaseOf(s, p).Draining? && PhaseOf(s, p).model < |s.roots| && Ordered(c, s)
    ensures Ordered(c, TakeList(s, p))
  {
    var m, s' := PhaseOf(s, p).model, TakeList(s, p);
    TakeOrdered(c, s.producers[p], s.roots[m].list);
    assert RootOrdered(s.roots[m]);
    assert RootOrdered(s'.roots[m]);
    assert ProducerOrdered(c, s'.producers[p]);
  }

  lemma PhaseOrdered(c: Config, s: State, p: nat, phase: Phase)
    requires At(s, p) && Ordered(c, s)
    requires StillToOffer(c, phase) == StillToOffer(c, PhaseOf(s, p))
    ensures Ordered(c, SetPhase(s, p, phase))
  {
    assert ProducerOrdered(c, s.producers[p]);
  }

  lemma RejectOrdered(c: Config, s: State, p: nat)
    requires At(s, p) && PhaseOf(s, p).Offering? && Ordered(c, s)
    ensures Ordered(c, Reject(s, p, PhaseOf(s, p).items))
  {
    var items, w := PhaseOf(s, p).items, s.producers[p];
    OfferOrdered(c, w, Batch(items, false));
    OfferedSnoc(w.offered, Batch(items, false));
    assert ProducerOrdered(c, Reject(s, p, items).producers[p]);
  }

  lemma AcceptedSnoc(accepted: seq<Entry>, e: Entry)
    ensures AcceptedItems(accepted + [e]) == AcceptedItems(accepted) + e.items
    ensures forall q :: By(q, accepted + [e]) == By(q, accepted) + if q == e.p then [e.items] else []
  {
    assert (accepted + [e])[..|accepted|] == accepted;
  }

  lemma PushOrdered(c: Config, s: State, p: nat)
    requires At(s, p) && PhaseOf(s, p).Pushing? && Ordered(c, s)
    ensures Ordered(c, Push(s, p))
  {
    var items, w := PhaseOf(s, p).items, s.producers[p];
    var s' := Push(s, p);
    OfferOrdered(c, w, Batch(items, true));
    OfferedSnoc(w.offered, Batch(items, true));
    AcceptedSnoc(s.accepted, Entry(p, w.ticket, items));
    assert ProducerOrdered(c, s'.producers[p]);
    assert s.delivered + Read(s) + (s.queue + items) == (s.delivered + Read(s) + s.queue) + items;
    forall q | 0 <= q < |s.producers|
      ensures AcceptedOf(s'.producers[q].offered) == By(q, s'.accepted)
    {
      assert AcceptedOf(s.producers[q].offered) == By(q, s.accepted);
    }
  }

  lemma PopOrdered(c: Config, s: State)
    requires s.reader.Ready? && Ordered(c, s)
    ensures Ordered(c, Pop(c, s))
  {
    var n := PopCount(|s.queue|, c.batch);
    assert s.delivered + [] + s.queue == s.delivered + s.queue[..n] + s.queue[n..];
  }

  lemma PushToListOrdered(c: Config, s: State, m: nat, samples: seq<Ref>)
    requires m < |s.roots| && Ordered(c, s)
    ensures Ordered(c, PushToList(s, m, samples))
  {
    assert RootOrdered(s.roots[m]);
    assert RootOrdered(PushToList(s, m, samples).roots[m]);
  }

  lemma ConvertOrdered(c: Config, s: State, p: nat)
    requires At(s, p) && PhaseOf(s, p).Forwarding? && Ordered(c, s)
    ensures Ordered(c, Convert(c, s, p))
  {
    var samples := PhaseOf(s, p).samples;
    PhaseOrdered(c, s, p, if samples == [] then Idle else Offering(Select(c.converts, samples)));
  }

  lemma LookAtQueueOrdered(c: Config, s: State, p: nat)
    requires At(s, p) && PhaseOf(s, p).Offering? && Ordered(c, s)
    ensures Ordered(c, LookAtQueue(c, s, p))
  {
    RejectOrdered(c, s, p);
    PhaseOrdered(c, s, p, Pushing(PhaseOf(s, p).items));
  }

  lemma SkipNilOrdered(c: Config, s: State, p: nat)
    requires At(s, p) && PhaseOf(s, p).Processing? && Ordered(c, s)
    ensures Ordered(c, SkipNil(s, p))
  {
    PhaseOrdered(c, s, p, Forwarding(Select(NonNil, PhaseOf(s, p).taken)));
  }

  lemma StepOrdered(c: Config, s: State, e: Event)
    requires Enabled(c, s, e) && Ordered(c, s)
    ensures Ordered(c, Apply(c, s, e))
  {
    match e
    case HandlerPush(m, samples) => PushToListOrdered(c, s, m, samples);
    case SeeList(p, m) => PhaseOrdered(c, s, p, Draining(m));
    case DrainList(p) => TakeListOrdered(c, s, p);
    case ProcessTaken(p) => SkipNilOrdered(c, s, p);
    case ConvertSamples(p) => ConvertOrdered(c, s, p);
    case SeeQueue(p) => LookAtQueueOrdered(c, s, p);
    case PushBatch(p) => PushOrdered(c, s, p);
    case Report(p) => PhaseOrdered(c, s, p, Idle);
    case PopBatch => PopOrdered(c, s);
    case _ =>
  }

  lemma {:induction false} RunOrdered(c: Config, s: State, es: seq<Event>)
    requires Runs(c, s, es) && Ordered(c, s)
    ensures Ordered(c, After(c, s, es))
    decreases |es|
  {
    if es != [] {
      StepOrdered(c, s, es[0]);
      RunOrdered(c, Apply(c, s, es[0]), es[1..]);
    }
  }

  /** An accepted batch occupies consecutive places of the stream that leaves the queue. */
  lemma {:induction false} BatchContiguous(accepted: seq<Entry>, i: nat)
    requires i < |accepted|
    ensures var at := |AcceptedItems(accepted[..i])|;
            && at + |accepted[i].items| <= |AcceptedItems(accepted)|
            && AcceptedItems(accepted)[at..at + |accepted[i].items|] == accepted[i].items
  {
    var n := |accepted| - 1;
    if i < n {
      BatchContiguous(accepted[..n], i);
      assert accepted[..n][..i] == accepted[..i];
    }
  }
}
