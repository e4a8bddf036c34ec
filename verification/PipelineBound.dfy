/** How long the queue can get, given that its length is checked in one critical
    section and the batch pushed in another. */
module PipelineBound {
  import opened Collections
  import opened Pipeline

  /** No producer has offered a batch of more than `b` items. */
  predicate Within(ps: seq<Producer>, b: nat) {
    forall p, i :: 0 <= p < |ps| && 0 <= i < |ps[p].offered| ==> |ps[p].offered[i].items| <= b
  }

  /** `b` for each producer between its check and its push. */
  function Load(ps: seq<Producer>, b: nat): nat {
    if ps == [] then 0 else (if ps[0].phase.Pushing? then b else 0) + Load(ps[1..], b)
  }

  predicate Bounded(c: Config, s: State, b: nat) {
    if c.maxSize <= 0 then s.queue == [] && forall p :: 0 <= p < |s.producers| ==> !s.producers[p].phase.Pushing?
    else |s.queue| + Load(s.producers, b) <= c.maxSize - 1 + |s.producers| * b
  }

  lemma {:induction false} LoadBound(ps: seq<Producer>, b: nat)
    ensures Load(ps, b) <= |ps| * b
  {
    if ps != [] {
      LoadBound(ps[1..], b);
      assert |ps| * b == b + |ps[1..]| * b;
    }
  }

  lemma {:induction false} LoadUpdate(ps: seq<Producer>, p: nat, w: Producer, b: nat)
    requires p < |ps|
    ensures Load(ps[p := w], b) + (if ps[p].phase.Pushing? then b else 0) == Load(ps, b) + (if w.phase.Pushing? then b else 0)
  {
    if p == 0 {
      assert ps[p := w][1..] == ps[1..];
    } else {
      LoadUpdate(ps[1..], p - 1, w, b);
      assert ps[p := w][1..] == ps[1..][p - 1 := w];
    }
  }

  lemma LookAtQueueBounded(c: Config, s: State, p: nat, b: nat)
    requires At(s, p) && PhaseOf(s, p).Offering? && Bounded(c, s, b)
    ensures Bounded(c, LookAtQueue(c, s, p), b)
  {
    var s' := LookAtQueue(c, s, p);
    LoadUpdate(s.producers, p, s'.producers[p], b);
    LoadBound(s'.producers, b);
  }

  lemma PushBounded(c: Config, s: State, p: nat, b: nat)
    requires At(s, p) && PhaseOf(s, p).Pushing? && Bounded(c, s, b)
    requires Within(Push(s, p).producers, b)
    ensures Bounded(c, Push(s, p), b)
  {
    var w := Push(s, p).producers[p];
    LoadUpdate(s.producers, p, w, b);
    assert |w.offered[|w.offered| - 1].items| <= b;
  }

  lemma QuietBounded(c: Config, s: State, p: nat, phase: Phase, b: nat)
    requires At(s, p) && Bounded(c, s, b) && !phase.Pushing?
    ensures Bounded(c, SetPhase(s, p, phase), b)
  {
    LoadUpdate(s.producers, p, s.producers[p].(phase := phase), b);
  }

  lemma TakeListBounded(c: Config, s: State, p: nat, b: nat)
    requires At(s, p) && PhaseOf(s, p).Draining? && PhaseOf(s, p).model < |s.roots| && Bounded(c, s, b)
    ensures Bounded(c, TakeList(s, p), b)
  {
    LoadUpdate(s.producers, p, TakeList(s, p).producers[p], b);
  }

  lemma StepBounded(c: Config, s: State, e: Event, b: nat)
    requires Enabled(c, s, e) && Bounded(c, s, b)
    requires Within(Apply(c, s, e).producers, b)
    ensures Bounded(c, Apply(c, s, e), b)
  {
    match e
    case SeeList(p, m) => QuietBounded(c, s, p, Draining(m), b);
    case DrainList(p) => TakeListBounded(c, s, p, b);
    case ProcessTaken(p) => QuietBounded(c, s, p, SkipNil(s, p).producers[p].phase, b);
    case ConvertSamples(p) => QuietBounded(c, s, p, Convert(c, s, p).producers[p].phase, b);
    case SeeQueue(p) => LookAtQueueBounded(c, s, p, b);
    case PushBatch(p) => PushBounded(c, s, p, b);
    case Report(p) => QuietBounded(c, s, p, Idle, b);
    case _ =>
  }

  /** Histories only grow, so a bound on the batches offered in the end held all along. */
  predicate Grows(ps: seq<Producer>, qs: seq<Producer>) {
    |ps| == |qs| && forall p :: 0 <= p < |ps| ==> ps[p].offered <= qs[p].offered
  }

  lemma UpdateGrows(ps: seq<Producer>, p: nat, w: Producer)
    requires p < |ps| && ps[p].offered <= w.offered
    ensures Grows(ps, ps[p := w])
  {
  }

  lemma StepGrows(c: Config, s: State, e: Event)
    requires Enabled(c, s, e)
    ensures Grows(s.producers, Apply(c, s, e).producers)
  {
    match e
    case SeeQueue(p) => UpdateGrows(s.producers, p, LookAtQueue(c, s, p).producers[p]);
    case PushBatch(p) => UpdateGrows(s.producers, p, Push(s, p).producers[p]);
    case SeeList(p, m) => UpdateGrows(s.producers, p, LookAtList(s, p, m).producers[p]);
    case DrainList(p) => UpdateGrows(s.producers, p, TakeList(s, p).producers[p]);
    case ProcessTaken(p) => UpdateGrows(s.producers, p, SkipNil(s, p).producers[p]);
    case ConvertSamples(p) => UpdateGrows(s.producers, p, Convert(c, s, p).producers[p]);
    case Report(p) => UpdateGrows(s.producers, p, StartSnapshot(s, p).producers[p]);
    case _ =>
  }

  lemma {:induction false} RunGrows(c: Config, s: State, es: seq<Event>)
    requires Runs(c, s, es)
    ensures Grows(s.producers, After(c, s, es).producers)
    decreases |es|
  {
    if es != [] {
      StepGrows(c, s, es[0]);
      RunGrows(c, Apply(c, s, es[0]), es[1..]);
    }
  }

  lemma GrowsWithin(ps: seq<Producer>, qs: seq<Producer>, b: nat)
    requires Grows(ps, qs) && Within(qs, b)
    ensures Within(ps, b)
  {
    forall p, i | 0 <= p < |ps| && 0 <= i < |ps[p].offered|
      ensures |ps[p].offered[i].items| <= b
    {
      assert ps[p].offered[i] == qs[p].offered[i];
    }
  }

  lemma {:induction false} RunBounded(c: Config, s: State, es: seq<Event>, b: nat)
    requires Runs(c, s, es) && Bounded(c, s, b)
    requires Within(After(c, s, es).producers, b)
    ensures Bounded(c, After(c, s, es), b)
    ensures |After(c, s, es).producers| == |s.producers|
    decreases |es|
  {
    if es != [] {
      var s1 := Apply(c, s, es[0]);
      StepGrows(c, s, es[0]);
      RunGrows(c, s1, es[1..]);
      GrowsWithin(s1.producers, After(c, s, es).producers, b);
      StepBounded(c, s, es[0], b);
      RunBounded(c, s1, es[1..], b);
    }
  }

  // ---- a run that reaches the bound ---------------------------------------

  lemma {:induction false} RunsConcat(c: Config, s: State, es: seq<Event>, more: seq<Event>)
    requires Runs(c, s, es) && Runs(c, After(c, s, es), more)
    ensures Runs(c, s, es + more) && After(c, s, es + more) == After(c, After(c, s, es), more)
    decreases |es|
  {
    if es == [] {
      assert es + more == more;
    } else {
      assert (es + more)[1..] == es[1..] + more;
      RunsConcat(c, Apply(c, s, es[0]), es[1..], more);
    }
  }

  lemma RunsThen(c: Config, s: State, es: seq<Event>, e: Event)
    requires Runs(c, s, es) && Enabled(c, After(c, s, es), e)
    ensures Runs(c, s, es + [e]) && After(c, s, es + [e]) == Apply(c, After(c, s, es), e)
  {
    var s1 := After(c, s, es);
    assert [e][1..] == [];
    assert Runs(c, Apply(c, s1, e), [e][1..]);
    assert Runs(c, s1, [e]) && After(c, s1, [e]) == Apply(c, s1, e);
    RunsConcat(c, s, es, [e]);
  }

  lemma {:induction false} SelectRepeat(keep: Ref -> bool, x: Ref, n: nat)
    requires keep(x)
    ensures Select(keep, Repeat(x, n)) == Repeat(x, n)
  {
    if n > 0 {
      SelectRepeat(keep, x, n - 1);
    }
  }

  /** The state a scenario goes through: list `m` is empty and the queue holds `n` items. */
  predicate Scene(s: State, m: nat, k: nat, n: nat) {
    m < |s.roots| && s.roots[m].list == [] && |s.producers| == k && |s.queue| == n
  }

  /** From `s` to `s'` one producer drained a batch that was pushed meanwhile, and holds it now. */
  predicate Took(s: State, s': State, m: nat, p: nat, batch: seq<Ref>, phase: Phase) {
    && m < |s.roots| && At(s, p)
    && s'.producers == s.producers[p := Producer(phase, s.producers[p].taken + batch, s.producers[p].offered, |s.drains|)]
    && s'.drains == s.drains + [Drain(p, m, batch)] && s'.accepted == s.accepted && s'.queue == s.queue
    && |s'.roots| == |s.roots| && s'.roots[m].list == [] && s'.roots[m].pushed == s.roots[m].pushed + batch
  }

  /** The run looks at no list but `m`, and only producer `p` looks. */
  predicate LooksOnly(es: seq<Event>, p: nat, m: nat) {
    forall i :: 0 <= i < |es| && es[i].SeeList? ==> es[i] == SeeList(p, m)
  }

  lemma Collect(c: Config, s: State, m: nat, k: nat, p: nat, batch: seq<Ref>) returns (es: seq<Event>)
    requires Scene(s, m, k, |s.queue|) && p < k && PhaseOf(s, p).Idle? && batch != []
    ensures Runs(c, s, es) && LooksOnly(es, p, m)
    ensures var s' := After(c, s, es);
            Scene(s', m, k, |s.queue|) && Took(s, s', m, p, batch, Processing(batch))
  {
    var s1 := PushToList(s, m, batch);
    assert s1.roots[m].list == batch;
    es := [];
    RunsThen(c, s, es, HandlerPush(m, batch)); es := es + [HandlerPush(m, batch)];
    RunsThen(c, s, es, SeeList(p, m)); es := es + [SeeList(p, m)];
    RunsThen(c, s, es, DrainList(p)); es := es + [DrainList(p)];
  }

  lemma Prepare(c: Config, s: State, m: nat, k: nat, p: nat, n: nat, x: Ref) returns (es: seq<Event>)
    requires Scene(s, m, k, |s.queue|) && p < k && PhaseOf(s, p) == Processing(Repeat(x, n))
    requires |s.queue| < c.maxSize && n > 0 && x != NIL && c.converts(x)
    ensures es == [ProcessTaken(p), ConvertSamples(p), SeeQueue(p)] && Runs(c, s, es)
    ensures After(c, s, es) == SetPhase(s, p, Pushing(Repeat(x, n))).(dropped := After(c, s, es).dropped)
  {
    SelectRepeat(NonNil, x, n);
    SelectRepeat(c.converts, x, n);
    es := [];
    RunsThen(c, s, es, ProcessTaken(p)); es := es + [ProcessTaken(p)];
    RunsThen(c, s, es, ConvertSamples(p)); es := es + [ConvertSamples(p)];
    RunsThen(c, s, es, SeeQueue(p)); es := es + [SeeQueue(p)];
  }

  /** Producer `p` brings `n` copies of `x` up to the point between check and push. */
  lemma Bring(c: Config, s: State, m: nat, k: nat, p: nat, n: nat, x: Ref) returns (es: seq<Event>)
    requires Scene(s, m, k, |s.queue|) && p < k && PhaseOf(s, p).Idle?
    requires |s.queue| < c.maxSize && n > 0 && x != NIL && c.converts(x)
    ensures Runs(c, s, es) && LooksOnly(es, p, m)
    ensures var s' := After(c, s, es);
            Scene(s', m, k, |s.queue|) && Took(s, s', m, p, Repeat(x, n), Pushing(Repeat(x, n)))
  {
    es := Collect(c, s, m, k, p, Repeat(x, n));
    var s1 := After(c, s, es);
    var more := Prepare(c, s1, m, k, p, n, x);
    RunsConcat(c, s, es, more);
    es := es + more;
  }

  predicate AllIdle(ps: seq<Producer>, from: nat) {
    forall p :: from <= p < |ps| ==> ps[p].phase.Idle?
  }

  predicate AllPushing(ps: seq<Producer>, upTo: nat, n: nat) {
    upTo <= |ps| && forall p :: 0 <= p < upTo ==> ps[p].phase.Pushing? && |ps[p].phase.items| == n
  }

  /** Producer `p`, alone between check and push, pushes one item and becomes idle. */
  lemma Finish(c: Config, s: State, m: nat, k: nat, p: nat) returns (es: seq<Event>)
    requires Scene(s, m, k, |s.queue|) && p < k && PhaseOf(s, p).Pushing? && |PhaseOf(s, p).items| == 1
    requires (forall q :: 0 <= q < k && q != p ==> s.producers[q].phase.Idle?) && Within(s.producers, 1)
    ensures Runs(c, s, es)
    ensures var s' := After(c, s, es);
            Scene(s', m, k, |s.queue| + 1) && AllIdle(s'.producers, 0) && Within(s'.producers, 1)
  {
    es := [];
    RunsThen(c, s, es, PushBatch(p)); es := es + [PushBatch(p)];
    RunsThen(c, s, es, Report(p)); es := es + [Report(p)];
  }

  /** One producer fills the queue item by item. */
  lemma {:induction false} Fill(c: Config, k: nat, n: nat, x: Ref) returns (es: seq<Event>)
    requires k > 0 && n < c.maxSize && x != NIL && c.converts(x)
    ensures Runs(c, Init(1, k), es)
    ensures var s := After(c, Init(1, k), es);
            Scene(s, 0, k, n) && AllIdle(s.producers, 0) && Within(s.producers, 1)
  {
    var start := Init(1, k);
    if n == 0 {
      es := [];
      RepeatAt(Producer(Idle, [], [], 0), k);
    } else {
      es := Fill(c, k, n - 1, x);
      var s := After(c, start, es);
      var more := Bring(c, s, 0, k, 0, 1, x);
      RunsConcat(c, start, es, more);
      es := es + more;
      more := Finish(c, After(c, start, es), 0, k, 0);
      RunsConcat(c, start, es, more);
      es := es + more;
    }
  }

  /** Then the first `j` producers all pass the check before any of them pushes. */
  lemma {:induction false} BringAll(c: Config, s: State, m: nat, k: nat, j: nat, n: nat, x: Ref) returns (es: seq<Event>)
    requires Scene(s, m, k, |s.queue|) && AllIdle(s.producers, 0) && j <= k
    requires |s.queue| < c.maxSize && n > 0 && x != NIL && c.converts(x) && Within(s.producers, n)
    ensures Runs(c, s, es)
    ensures var s' := After(c, s, es);
            && Scene(s', m, k, |s.queue|) && Within(s'.producers, n)
            && AllPushing(s'.producers, j, n) && AllIdle(s'.producers, j)
  {
    es := [];
    if j > 0 {
      es := BringAll(c, s, m, k, j - 1, n, x);
      var s1 := After(c, s, es);
      var more := Bring(c, s1, m, k, j - 1, n, x);
      RunsConcat(c, s, es, more);
      es := es + more;
    }
  }

  lemma OneFactor(j: int, n: int)
    ensures j * n == (j - 1) * n + n
  {
  }

  lemma PushOne(s: State, m: nat, k: nat, j: nat, n: nat)
    requires Scene(s, m, k, |s.queue|) && 0 < j && AllPushing(s.producers, j, n) && Within(s.producers, n)
    ensures var s1 := Push(s, j - 1);
            Scene(s1, m, k, |s.queue| + n) && AllPushing(s1.producers, j - 1, n) && Within(s1.producers, n)
  {
  }

  /** Then they all push. */
  lemma {:induction false} PushAll(c: Config, s: State, m: nat, k: nat, j: nat, n: nat) returns (es: seq<Event>)
    requires Scene(s, m, k, |s.queue|) && AllPushing(s.producers, j, n) && Within(s.producers, n)
    ensures Runs(c, s, es)
    ensures var s' := After(c, s, es);
            Scene(s', m, k, |s.queue| + j * n) && Within(s'.producers, n)
    decreases j
  {
    es := [];
    if j > 0 {
      PushOne(s, m, k, j, n);
      var e := PushBatch(j - 1);
      RunsThen(c, s, [], e);
      assert [] + [e] == [e];
      var more := PushAll(c, Push(s, j - 1), m, k, j - 1, n);
      RunsConcat(c, s, [e], more);
      es := [e] + more;
      OneFactor(j, n);
    }
  }

  lemma Overfill(c: Config, k: nat, b: nat, x: Ref) returns (es: seq<Event>)
    requires k > 0 && b > 0 && c.maxSize >= 1 && x != NIL && c.converts(x)
    ensures Runs(c, Init(1, k), es)
    ensures var s := After(c, Init(1, k), es);
            Within(s.producers, b) && |s.queue| == c.maxSize - 1 + k * b
  {
    var start := Init(1, k);
    var es1 := Fill(c, k, c.maxSize - 1, x);
    var s1 := After(c, start, es1);
    var es2 := BringAll(c, s1, 0, k, k, b, x);
    var s2 := After(c, s1, es2);
    var es3 := PushAll(c, s2, 0, k, k, b);
    RunsConcat(c, start, es1, es2);
    RunsConcat(c, start, es1 + es2, es3);
    es := es1 + es2 + es3;
  }
}
