/** No sample is lost and none is duplicated, over every interleaving. */
module PipelineConservation {
  import opened Collections
  import opened SafeLists
  import opened Pipeline

  function Times(s: seq<Ref>, x: Ref): nat { multiset(s)[x] }

  function TimesInFlight(ps: seq<Producer>, x: Ref): nat {
    if ps == [] then 0 else Times(InFlight(ps[0].phase), x) + TimesInFlight(ps[1..], x)
  }

  function TimesListed(roots: seq<Root>, x: Ref): nat {
    if roots == [] then 0 else Times(roots[0].list, x) + TimesListed(roots[1..], x)
  }

  function TimesPushed(roots: seq<Root>, x: Ref): nat {
    if roots == [] then 0 else Times(roots[0].pushed, x) + TimesPushed(roots[1..], x)
  }

  /** Every push of `x` by a handler is in exactly one place. */
  predicate Conserved(s: State, x: Ref) {
    TimesPushed(s.roots, x) ==
    TimesListed(s.roots, x) + TimesInFlight(s.producers, x) + s.dropped[x] + s.rejected[x]
    + Times(s.queue, x) + Times(Read(s), x) + Times(s.delivered, x)
  }

  lemma {:induction false} InFlightUpdate(ps: seq<Producer>, p: nat, w: Producer, x: Ref)
    requires p < |ps|
    ensures TimesInFlight(ps[p := w], x) + Times(InFlight(ps[p].phase), x) == TimesInFlight(ps, x) + Times(InFlight(w.phase), x)
  {
    if p == 0 {
      assert ps[p := w][1..] == ps[1..];
    } else {
      InFlightUpdate(ps[1..], p - 1, w, x);
      assert ps[p := w][1..] == ps[1..][p - 1 := w];
    }
  }

  lemma {:induction false} RootUpdate(roots: seq<Root>, m: nat, r: Root, x: Ref)
    requires m < |roots|
    ensures TimesListed(roots[m := r], x) + Times(roots[m].list, x) == TimesListed(roots, x) + Times(r.list, x)
    ensures TimesPushed(roots[m := r], x) + Times(roots[m].pushed, x) == TimesPushed(roots, x) + Times(r.pushed, x)
  {
    if m == 0 {
      assert roots[m := r][1..] == roots[1..];
    } else {
      RootUpdate(roots[1..], m - 1, r, x);
      assert roots[m := r][1..] == roots[1..][m - 1 := r];
    }
  }

  lemma ListStepsConserve(s: State, m: nat, samples: seq<Ref>, x: Ref)
    requires m < |s.roots| && Conserved(s, x)
    ensures Conserved(PushToList(s, m, samples), x)
  {
    RootUpdate(s.roots, m, PushToList(s, m, samples).roots[m], x);
  }

  lemma TakeListConserves(s: State, p: nat, x: Ref)
    requires At(s, p) && PhaseOf(s, p).Draining? && PhaseOf(s, p).model < |s.roots| && Conserved(s, x)
    ensures Conserved(TakeList(s, p), x)
  {
    var m, s' := PhaseOf(s, p).model, TakeList(s, p);
    RootUpdate(s.roots, m, s'.roots[m], x);
    InFlightUpdate(s.producers, p, s'.producers[p], x);
  }

  /** A phase change that only moves `gone` out of the producer's hands into `dropped`. */
  lemma DropConserves(s: State, p: nat, phase: Phase, x: Ref)
    requires At(s, p) && Conserved(s, x)
    requires multiset(InFlight(phase)) <= multiset(InFlight(PhaseOf(s, p)))
    ensures Conserved(SetPhase(s, p, phase).(dropped := s.dropped + (multiset(InFlight(PhaseOf(s, p))) - multiset(InFlight(phase)))), x)
  {
    InFlightUpdate(s.producers, p, s.producers[p].(phase := phase), x);
  }

  lemma KeepConserves(s: State, p: nat, phase: Phase, x: Ref)
    requires At(s, p) && Conserved(s, x)
    requires InFlight(phase) == InFlight(PhaseOf(s, p))
    ensures Conserved(SetPhase(s, p, phase), x)
  {
    InFlightUpdate(s.producers, p, s.producers[p].(phase := phase), x);
  }

  lemma RejectConserves(s: State, p: nat, x: Ref)
    requires At(s, p) && PhaseOf(s, p).Offering? && Conserved(s, x)
    ensures Conserved(Reject(s, p, PhaseOf(s, p).items), x)
  {
    InFlightUpdate(s.producers, p, Reject(s, p, PhaseOf(s, p).items).producers[p], x);
  }

  lemma PushConserves(s: State, p: nat, x: Ref)
    requires At(s, p) && PhaseOf(s, p).Pushing? && Conserved(s, x)
    ensures Conserved(Push(s, p), x)
  {
    InFlightUpdate(s.producers, p, Push(s, p).producers[p], x);
  }

  lemma SkipNilConserves(s: State, p: nat, x: Ref)
    requires At(s, p) && PhaseOf(s, p).Processing? && Conserved(s, x)
    ensures Conserved(SkipNil(s, p), x)
  {
    SelectPart(NonNil, PhaseOf(s, p).taken);
    DropConserves(s, p, Forwarding(Select(NonNil, PhaseOf(s, p).taken)), x);
  }

  lemma ConvertConserves(c: Config, s: State, p: nat, x: Ref)
    requires At(s, p) && PhaseOf(s, p).Forwarding? && Conserved(s, x)
    ensures Conserved(Convert(c, s, p), x)
  {
    var samples := PhaseOf(s, p).samples;
    if samples == [] {
      KeepConserves(s, p, Idle, x);
    } else {
      var items := Select(c.converts, samples);
      assert multiset(items) <= multiset(samples) by { SelectPart(c.converts, samples); }
      DropConserves(s, p, Offering(items), x);
    }
  }

  lemma LookAtQueueConserves(c: Config, s: State, p: nat, x: Ref)
    requires At(s, p) && PhaseOf(s, p).Offering? && Conserved(s, x)
    ensures Conserved(LookAtQueue(c, s, p), x)
  {
    if |s.queue| >= c.maxSize {
      RejectConserves(s, p, x);
    } else {
      KeepConserves(s, p, Pushing(PhaseOf(s, p).items), x);
    }
  }

  lemma PopConserves(c: Config, s: State, x: Ref)
    requires s.reader.Ready? && Conserved(s, x)
    ensures Conserved(Pop(c, s), x)
  {
    var n := PopCount(|s.queue|, c.batch);
    assert s.queue == s.queue[..n] + s.queue[n..];
  }

  lemma StepConserves(c: Config, s: State, e: Event, x: Ref)
    requires Enabled(c, s, e) && Conserved(s, x)
    ensures Conserved(Apply(c, s, e), x)
  {
    match e
    case HandlerPush(m, samples) => ListStepsConserve(s, m, samples, x);
    case SeeList(p, m) => KeepConserves(s, p, Draining(m), x);
    case DrainList(p) => TakeListConserves(s, p, x);
    case ProcessTaken(p) => SkipNilConserves(s, p, x);
    case ConvertSamples(p) => ConvertConserves(c, s, p, x);
    case SeeQueue(p) => LookAtQueueConserves(c, s, p, x);
    case PushBatch(p) => PushConserves(s, p, x);
    case Report(p) => KeepConserves(s, p, Idle, x);
    case PopBatch => PopConserves(c, s, x);
    case _ =>
  }

  lemma {:induction false} RunConserves(c: Config, s: State, es: seq<Event>, x: Ref)
    requires Runs(c, s, es) && Conserved(s, x)
    ensures Conserved(After(c, s, es), x)
    decreases |es|
  {
    if es != [] {
      StepConserves(c, s, es[0], x);
      RunConserves(c, Apply(c, s, es[0]), es[1..], x);
    }
  }
}
