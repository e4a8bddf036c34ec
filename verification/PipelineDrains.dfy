/** Several loops may drain one model's list. Each drain gets a ticket, and every batch in
    the queue's history shows the ticket of the drain it came from; so one can say where
    in a model's list each queued sample stood, and when their order is lost. */
module PipelineDrains {
  import opened Collections
  import opened Pipeline
  import opened PipelineOrder

  // ---- drains and the lists they empty --------------------------------------------

  /** What was taken from model `m`'s list. */
  function DrainedFrom(m: nat, drains: seq<Drain>): seq<Ref> {
    if drains == [] then []
    else
      var last := drains[|drains| - 1];
      DrainedFrom(m, drains[..|drains| - 1]) + if last.model == m then last.items else []
  }

  /** What producer `p` took. */
  function DrainedBy(p: nat, drains: seq<Drain>): seq<Ref> {
    if drains == [] then []
    else
      var last := drains[|drains| - 1];
      DrainedBy(p, drains[..|drains| - 1]) + if last.p == p then last.items else []
  }

  predicate DrainsRecorded(s: State) {
    && (forall m :: 0 <= m < |s.roots| ==> s.roots[m].drained == DrainedFrom(m, s.drains))
    && (forall p :: 0 <= p < |s.producers| ==> s.producers[p].taken == DrainedBy(p, s.drains))
  }

  lemma DrainedSnoc(drains: seq<Drain>, d: Drain)
    ensures forall m :: DrainedFrom(m, drains + [d]) == DrainedFrom(m, drains) + if d.model == m then d.items else []
    ensures forall p :: DrainedBy(p, drains + [d]) == DrainedBy(p, drains) + if d.p == p then d.items else []
  {
    assert (drains + [d])[..|drains|] == drains;
  }

  lemma TakeListRecorded(s: State, p: nat)
    requires At(s, p) && PhaseOf(s, p).Draining? && PhaseOf(s, p).model < |s.roots| && DrainsRecorded(s)
    ensures DrainsRecorded(TakeList(s, p))
  {
    var m := PhaseOf(s, p).model;
    DrainedSnoc(s.drains, Drain(p, m, s.roots[m].list));
  }

  /** What an event other than a drain leaves alone. */
  predicate TakenSame(s: State, s': State) {
    && s'.drains == s.drains && |s'.roots| == |s.roots| && |s'.producers| == |s.producers|
    && (forall m :: 0 <= m < |s.roots| ==> s'.roots[m].drained == s.roots[m].drained)
    && (forall p :: 0 <= p < |s.producers| ==> s'.producers[p].taken == s.producers[p].taken)
  }

  lemma PhaseKeepsTaken(s: State, p: nat, phase: Phase)
    requires At(s, p)
    ensures TakenSame(s, SetPhase(s, p, phase))
  {
  }

  lemma OfferKeepsTaken(s: State, p: nat)
    requires At(s, p)
    ensures PhaseOf(s, p).Offering? ==> TakenSame(s, Reject(s, p, PhaseOf(s, p).items))
    ensures PhaseOf(s, p).Pushing? ==> TakenSame(s, Push(s, p))
  {
  }

  lemma TakenKept(c: Config, s: State, e: Event)
    requires Enabled(c, s, e) && !e.DrainList?
    ensures TakenSame(s, Apply(c, s, e))
  {
    match e
    case SeeList(p, m) => PhaseKeepsTaken(s, p, Draining(m));
    case ProcessTaken(p) => PhaseKeepsTaken(s, p, SkipNil(s, p).producers[p].phase);
    case ConvertSamples(p) => PhaseKeepsTaken(s, p, Convert(c, s, p).producers[p].phase);
    case SeeQueue(p) =>
      OfferKeepsTaken(s, p);
      PhaseKeepsTaken(s, p, Pushing(PhaseOf(s, p).items));
    case PushBatch(p) => OfferKeepsTaken(s, p);
    case Report(p) => PhaseKeepsTaken(s, p, Idle);
    case _ =>
  }

  lemma StepRecorded(c: Config, s: State, e: Event)
    requires Enabled(c, s, e) && DrainsRecorded(s)
    ensures DrainsRecorded(Apply(c, s, e))
  {
    if e.DrainList? {
      TakeListRecorded(s, e.p);
    } else {
      TakenKept(c, s, e);
    }
  }

  // ---- tickets --------------------------------------------------------------------

  /** The phases between a drain and the end of its batch. */
  predicate Holds(phase: Phase) { phase.Processing? || phase.Forwarding? || phase.Offering? || phase.Pushing? }

  predicate EntryOk(c: Config, drains: seq<Drain>, k: nat, e: Entry) {
    && e.p < k && e.ticket < |drains| && drains[e.ticket].p == e.p
    && e.items == Kept(c, drains[e.ticket].items)
  }

  /** What producer `p` holds is what is left of its latest drain. */
  predicate TicketOk(c: Config, drains: seq<Drain>, ps: seq<Producer>, p: nat) {
    p < |ps| && Holds(ps[p].phase) ==>
      var t := ps[p].ticket;
      t < |drains| && drains[t].p == p && StillToOffer(c, ps[p].phase) == Kept(c, drains[t].items)
  }

  /** The batch at place `i` of the queue's history came before what its producer holds now. */
  predicate Earlier(accepted: seq<Entry>, ps: seq<Producer>, i: nat) {
    i < |accepted| && accepted[i].p < |ps| && Holds(ps[accepted[i].p].phase) ==>
      accepted[i].ticket < ps[accepted[i].p].ticket
  }

  predicate Later(accepted: seq<Entry>, i: nat, j: nat) {
    i < j < |accepted| && accepted[i].p == accepted[j].p ==> accepted[i].ticket < accepted[j].ticket
  }

  ghost predicate TicketsOk(c: Config, drains: seq<Drain>, ps: seq<Producer>, accepted: seq<Entry>) {
    && (forall i :: 0 <= i < |accepted| ==> EntryOk(c, drains, |ps|, accepted[i]))
    && (forall p: nat :: TicketOk(c, drains, ps, p))
    && (forall i: nat :: Earlier(accepted, ps, i))
    && (forall i: nat, j: nat :: Later(accepted, i, j))
    && (c.maxSize <= 0 ==> accepted == [] && forall p :: 0 <= p < |ps| ==> !ps[p].phase.Pushing?)
  }

  ghost predicate Ticketed(c: Config, s: State) { TicketsOk(c, s.drains, s.producers, s.accepted) }

  /** A producer that goes on with what it holds, or lets go of it. */
  lemma PhaseTickets(c: Config, drains: seq<Drain>, ps: seq<Producer>, accepted: seq<Entry>, p: nat, w: Producer)
    requires TicketsOk(c, drains, ps, accepted) && p < |ps| && w.ticket == ps[p].ticket
    requires w.phase.Pushing? ==> c.maxSize > 0
    requires Holds(w.phase) ==> Holds(ps[p].phase) && StillToOffer(c, w.phase) == StillToOffer(c, ps[p].phase)
    ensures TicketsOk(c, drains, ps[p := w], accepted)
  {
    var now := ps[p := w];
    assert TicketOk(c, drains, ps, p);
    forall q: nat
      ensures TicketOk(c, drains, now, q)
    {
      assert TicketOk(c, drains, ps, q);
    }
    forall i: nat
      ensures Earlier(accepted, now, i)
    {
      assert Earlier(accepted, ps, i);
    }
  }

  /** A producer takes the next ticket. */
  lemma DrainTickets(c: Config, drains: seq<Drain>, ps: seq<Producer>, accepted: seq<Entry>, p: nat, d: Drain, w: Producer)
    requires TicketsOk(c, drains, ps, accepted) && p < |ps| && d.p == p
    requires w.ticket == |drains| && w.phase == Processing(d.items)
    ensures TicketsOk(c, drains + [d], ps[p := w], accepted)
  {
    var now := ps[p := w];
    var after := drains + [d];
    forall i | 0 <= i < |accepted|
      ensures EntryOk(c, after, |ps|, accepted[i]) && Earlier(accepted, now, i)
    {
      assert EntryOk(c, drains, |ps|, accepted[i]) && Earlier(accepted, ps, i);
    }
    forall q: nat
      ensures TicketOk(c, after, now, q)
    {
      assert TicketOk(c, drains, ps, q);
    }
  }

  /** A producer's batch enters the queue, with the producer's ticket. */
  lemma PushTickets(c: Config, drains: seq<Drain>, ps: seq<Producer>, accepted: seq<Entry>, p: nat, w: Producer)
    requires TicketsOk(c, drains, ps, accepted) && p < |ps| && ps[p].phase.Pushing? && !Holds(w.phase)
    ensures TicketsOk(c, drains, ps[p := w], accepted + [Entry(p, ps[p].ticket, ps[p].phase.items)])
  {
    var now := ps[p := w];
    var after := accepted + [Entry(p, ps[p].ticket, ps[p].phase.items)];
    assert TicketOk(c, drains, ps, p);
    forall i | 0 <= i < |after|
      ensures EntryOk(c, drains, |ps|, after[i]) && Earlier(after, now, i)
    {
      assert i < |accepted| ==> EntryOk(c, drains, |ps|, accepted[i]) && Earlier(accepted, ps, i);
    }
    forall q: nat
      ensures TicketOk(c, drains, now, q)
    {
      assert TicketOk(c, drains, ps, q);
    }
    forall i: nat, j: nat
      ensures Later(after, i, j)
    {
      assert Later(accepted, i, j) && Earlier(accepted, ps, i);
    }
  }

  lemma PhaseTicketed(c: Config, s: State, p: nat, phase: Phase)
    requires At(s, p) && Ticketed(c, s) && (phase.Pushing? ==> c.maxSize > 0)
    requires Holds(phase) ==> Holds(PhaseOf(s, p)) && StillToOffer(c, phase) == StillToOffer(c, PhaseOf(s, p))
    ensures Ticketed(c, SetPhase(s, p, phase))
  {
    PhaseTickets(c, s.drains, s.producers, s.accepted, p, s.producers[p].(phase := phase));
  }

  lemma ConvertTicketed(c: Config, s: State, p: nat)
    requires At(s, p) && PhaseOf(s, p).Forwarding? && Ticketed(c, s)
    ensures Ticketed(c, Convert(c, s, p))
  {
    var samples := PhaseOf(s, p).samples;
    PhaseTicketed(c, s, p, if samples == [] then Idle else Offering(Select(c.converts, samples)));
  }

  lemma LookAtQueueTicketed(c: Config, s: State, p: nat)
    requires At(s, p) && PhaseOf(s, p).Offering? && Ticketed(c, s)
    ensures Ticketed(c, LookAtQueue(c, s, p))
  {
    PhaseTickets(c, s.drains, s.producers, s.accepted, p, LookAtQueue(c, s, p).producers[p]);
  }

  lemma StepTicketed(c: Config, s: State, e: Event)
    requires Enabled(c, s, e) && Ticketed(c, s)
    ensures Ticketed(c, Apply(c, s, e))
  {
    match e
    case SeeList(p, m) => PhaseTicketed(c, s, p, Draining(m));
    case DrainList(p) =>
      var m, s' := PhaseOf(s, p).model, TakeList(s, p);
      DrainTickets(c, s.drains, s.producers, s.accepted, p, Drain(p, m, s.roots[m].list), s'.producers[p]);
    case ProcessTaken(p) => PhaseTicketed(c, s, p, Forwarding(Select(NonNil, PhaseOf(s, p).taken)));
    case ConvertSamples(p) => ConvertTicketed(c, s, p);
    case SeeQueue(p) => LookAtQueueTicketed(c, s, p);
    case PushBatch(p) => PushTickets(c, s.drains, s.producers, s.accepted, p, Push(s, p).producers[p]);
    case Report(p) => PhaseTicketed(c, s, p, Idle);
    case _ =>
  }

  lemma {:induction false} RunTicketed(c: Config, s: State, es: seq<Event>)
    requires Runs(c, s, es) && Ticketed(c, s) && DrainsRecorded(s)
    ensures Ticketed(c, After(c, s, es)) && DrainsRecorded(After(c, s, es))
    decreases |es|
  {
    if es != [] {
      StepTicketed(c, s, es[0]);
      StepRecorded(c, s, es[0]);
      RunTicketed(c, Apply(c, s, es[0]), es[1..]);
    }
  }

  // ---- a model with a single loop -------------------------------------------------

  /** Only producer `p` looks at model `m`, and it looks at no other. */
  predicate SoleEvents(es: seq<Event>, p: nat, m: nat) {
    forall i :: 0 <= i < |es| && es[i].SeeList? ==> (es[i].p == p <==> es[i].model == m)
  }

  predicate SoleDrains(drains: seq<Drain>, p: nat, m: nat) {
    forall t :: 0 <= t < |drains| ==> (drains[t].p == p <==> drains[t].model == m)
  }

  predicate Sole(s: State, p: nat, m: nat) {
    && (forall q :: 0 <= q < |s.producers| && s.producers[q].phase.Draining? ==> (q == p <==> s.producers[q].phase.model == m))
    && SoleDrains(s.drains, p, m)
  }

  /** A producer starts to drain only by looking at a list. */
  lemma DrainingKept(c: Config, s: State, e: Event)
    requires Enabled(c, s, e) && !e.DrainList?
    ensures var s' := Apply(c, s, e);
            forall q :: 0 <= q < |s'.producers| && s'.producers[q].phase.Draining? ==>
              At(s, q) && (s'.producers[q].phase == s.producers[q].phase || (e.SeeList? && e.p == q && s'.producers[q].phase.model == e.model))
  {
  }

  lemma StepSole(c: Config, s: State, e: Event, p: nat, m: nat)
    requires Enabled(c, s, e) && Sole(s, p, m)
    requires e.SeeList? ==> (e.p == p <==> e.model == m)
    ensures Sole(Apply(c, s, e), p, m)
  {
    if !e.DrainList? {
      TakenKept(c, s, e);
      DrainingKept(c, s, e);
    }
  }

  lemma {:induction false} RunSole(c: Config, s: State, es: seq<Event>, p: nat, m: nat)
    requires Runs(c, s, es) && Sole(s, p, m) && SoleEvents(es, p, m)
    ensures Sole(After(c, s, es), p, m)
    decreases |es|
  {
    if es != [] {
      StepSole(c, s, es[0], p, m);
      RunSole(c, Apply(c, s, es[0]), es[1..], p, m);
    }
  }

  lemma {:induction false} SoleDrained(drains: seq<Drain>, p: nat, m: nat)
    requires SoleDrains(drains, p, m)
    ensures DrainedFrom(m, drains) == DrainedBy(p, drains)
  {
    if drains != [] {
      SoleDrained(drains[..|drains| - 1], p, m);
    }
  }
}
