/** Two loops of one model can overtake each other between their drains and their pushes. */
module PipelineInversion {
  import opened Collections
  import opened Pipeline
  import opened PipelineDrains
  import opened PipelinePlaces
  import PipelineBound

  /** The model's samples are in the queue's history in another order than in its list. */
  predicate OrderLost(c: Config, m: nat, s: State) { !Ascending(StreamPlaces(c, m, s.drains, s.accepted)) }

  /** Every goroutine is the loop of one monitor, and so drains the list of that monitor's
      model only: `serves` gives the model of each goroutine. */
  predicate Serving(serves: seq<nat>, es: seq<Event>) {
    forall i :: 0 <= i < |es| && es[i].SeeList? ==> es[i].p < |serves| && es[i].model == serves[es[i].p]
  }

  /** Two goroutines serve the model. */
  predicate Together(serves: seq<nat>, m: nat, p: nat, q: nat) {
    p < |serves| && q < |serves| && p != q && serves[p] == serves[q] == m
  }

  /** They do, there is room in the queue, and there is a sample that converts. */
  ghost predicate OrderAtRisk(c: Config, serves: seq<nat>, m: nat) {
    c.maxSize > 0 && (exists x :: Keeps(c, x)) && exists p, q :: Together(serves, m, p, q)
  }

  /** A run of goroutines that serve these models, in which the model's order is lost. */
  ghost predicate Loses(c: Config, models: nat, serves: seq<nat>, m: nat, es: seq<Event>) {
    && Runs(c, Init(models, |serves|), es) && Serving(serves, es)
    && OrderLost(c, m, After(c, Init(models, |serves|), es))
  }

  lemma InitTicketed(c: Config, models: nat, k: nat)
    ensures Ticketed(c, Init(models, k)) && DrainsRecorded(Init(models, k))
  {
    RepeatAt(Producer(Idle, [], [], 0), k);
    RepeatAt(Root([], [], []), models);
  }

  lemma TicketedEntries(c: Config, s: State)
    requires Ticketed(c, s)
    ensures EntriesOk(c, s.drains, s.accepted)
  {
    forall i | 0 <= i < |s.accepted|
      ensures s.accepted[i].ticket < |s.drains| && s.accepted[i].items == Kept(c, s.drains[s.accepted[i].ticket].items)
    {
      assert EntryOk(c, s.drains, |s.producers|, s.accepted[i]);
    }
  }

  lemma ServingTogether(serves: seq<nat>, m: nat, p: nat, q: nat, first: seq<Event>, second: seq<Event>)
    requires Together(serves, m, p, q) && PipelineBound.LooksOnly(first, p, m) && PipelineBound.LooksOnly(second, q, m)
    ensures Serving(serves, first + second)
  {
  }

  lemma BothHold(c: Config, models: nat, serves: seq<nat>, m: nat, p: nat, q: nat, x: Ref, y: Ref) returns (es: seq<Event>)
    requires m < models && Together(serves, m, p, q) && c.maxSize > 0 && Keeps(c, x) && Keeps(c, y)
    ensures Runs(c, Init(models, |serves|), es) && Serving(serves, es)
    ensures var s := After(c, Init(models, |serves|), es);
            && |s.roots| == models && s.roots[m].pushed == [x, y] && s.queue == [] && s.accepted == []
            && s.drains == [Drain(p, m, [x]), Drain(q, m, [y])] && |s.producers| == |serves|
            && s.producers[p].phase == Pushing([x]) && s.producers[p].ticket == 0
            && s.producers[q].phase == Pushing([y]) && s.producers[q].ticket == 1
  {
    var k := |serves|;
    var start := Init(models, k);
    RepeatAt(Producer(Idle, [], [], 0), k);
    RepeatAt(Root([], [], []), models);
    assert Repeat(x, 1) == [x] && Repeat(y, 1) == [y];
    var first := PipelineBound.Bring(c, start, m, k, p, 1, x);
    var s1 := After(c, start, first);
    var second := PipelineBound.Bring(c, s1, m, k, q, 1, y);
    PipelineBound.RunsConcat(c, start, first, second);
    ServingTogether(serves, m, p, q, first, second);
    es := first + second;
    var s2 := After(c, start, es);
    assert s2.producers[p] == s1.producers[p] && s2.roots[m].pushed == [] + [x] + [y];
  }

  /** Producer `p` drains [x], then producer `q` drains [y]; both find room in the queue,
      and producer `q` pushes first. */
  lemma InvertedRun(c: Config, models: nat, serves: seq<nat>, m: nat, p: nat, q: nat, x: Ref, y: Ref) returns (es: seq<Event>)
    requires m < models && Together(serves, m, p, q) && c.maxSize > 0 && Keeps(c, x) && Keeps(c, y)
    ensures Runs(c, Init(models, |serves|), es) && Serving(serves, es)
    ensures var s := After(c, Init(models, |serves|), es);
            && |s.roots| == models && s.roots[m].pushed == [x, y] && s.queue == [y, x]
            && s.drains == [Drain(p, m, [x]), Drain(q, m, [y])] && s.accepted == [Entry(q, 1, [y]), Entry(p, 0, [x])]
  {
    var start := Init(models, |serves|);
    es := BothHold(c, models, serves, m, p, q, x, y);
    PipelineBound.RunsThen(c, start, es, PushBatch(q)); es := es + [PushBatch(q)];
    PipelineBound.RunsThen(c, start, es, PushBatch(p)); es := es + [PushBatch(p)];
  }

  lemma InversionLoses(c: Config, m: nat, s: State, p: nat, q: nat, x: Ref, y: Ref)
    requires Ticketed(c, s)
    requires s.drains == [Drain(p, m, [x]), Drain(q, m, [y])] && s.accepted == [Entry(q, 1, [y]), Entry(p, 0, [x])]
    ensures OrderLost(c, m, s)
  {
    TicketedEntries(c, s);
    OrderKeptIff(c, m, s.drains, s.accepted);
    assert Counts(m, s.drains, s.accepted[0]) && Counts(m, s.drains, s.accepted[1]);
  }

  lemma {:induction false} NothingKept(c: Config, items: seq<Ref>)
    requires forall x :: !Keeps(c, x)
    ensures Kept(c, items) == []
  {
    if items != [] {
      NothingKept(c, items[1..]);
      PipelineOrder.KeptConcat(c, [items[0]], items[1..]);
      assert items == [items[0]] + items[1..];
      KeptOne(c, items[0]);
    }
  }

  /** A goroutine that could drain the model, if any: all drains of the model are its own. */
  lemma OneServer(c: Config, models: nat, serves: seq<nat>, m: nat, es: seq<Event>) returns (p: nat)
    requires Runs(c, Init(models, |serves|), es) && Serving(serves, es)
    requires forall p, q :: !Together(serves, m, p, q)
    ensures SoleDrains(After(c, Init(models, |serves|), es).drains, p, m)
  {
    var start := Init(models, |serves|);
    RepeatAt(Producer(Idle, [], [], 0), |serves|);
    p := |serves|;
    if q: nat :| q < |serves| && serves[q] == m {
      p := q;
    }
    assert forall q: nat :: q < |serves| && serves[q] == m ==> q == p by {
      forall q: nat | q < |serves| && serves[q] == m
        ensures q == p
      {
        assert !Together(serves, m, p, q);
      }
    }
    RunSole(c, start, es, p, m);
  }

  /** Without that risk batches are pushed in drain order. */
  lemma SafeOrder(c: Config, serves: seq<nat>, s: State, m: nat, p: nat)
    requires Ticketed(c, s) && !OrderAtRisk(c, serves, m)
    requires (forall p, q :: !Together(serves, m, p, q)) ==> SoleDrains(s.drains, p, m)
    ensures !OrderLost(c, m, s)
  {
    TicketedEntries(c, s);
    OrderKeptIff(c, m, s.drains, s.accepted);
    forall i, j | 0 <= i < j < |s.accepted| && Counts(m, s.drains, s.accepted[i]) && Counts(m, s.drains, s.accepted[j])
      ensures s.accepted[i].ticket < s.accepted[j].ticket
    {
      assert EntryOk(c, s.drains, |s.producers|, s.accepted[i]) && EntryOk(c, s.drains, |s.producers|, s.accepted[j]);
      assert Later(s.accepted, i, j);
      if forall x :: !Keeps(c, x) {
        NothingKept(c, s.drains[s.accepted[i].ticket].items);
      }
    }
  }
}
