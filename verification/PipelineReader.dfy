/** The progress of the reading loop. */
module PipelineReader {
  import opened Collections
  import opened Pipeline
  import opened PipelineBound

  predicate IsPop(e: Event) { e.PopBatch? }

  function Pops(es: seq<Event>): nat { |Select(IsPop, es)| }

  predicate NoPush(es: seq<Event>) { forall i :: 0 <= i < |es| ==> !es[i].PushBatch? }

  /** n / batch, rounded up. */
  function Ceil(n: nat, batch: nat): nat
    requires batch > 0
  {
    (n + batch - 1) / batch
  }

  lemma MulUp(a: nat, b: nat, c: nat)
    requires b <= c
    ensures a * b <= a * c
  {
  }

  lemma CeilMeaning(n: nat, batch: nat, p: nat)
    requires batch > 0
    ensures n <= batch * p <==> Ceil(n, batch) <= p
  {
    var q := Ceil(n, batch);
    assert n + batch - 1 == batch * q + (n + batch - 1) % batch;
    if q <= p {
      MulUp(batch, q, p);
    } else {
      MulUp(batch, p, q - 1);
      assert batch * (q - 1) == batch * q - batch;
    }
  }

  /** What that many pops take from a queue of that length: each a full batch, or all. */
  function Taken(len: nat, batch: nat, pops: nat): (n: nat)
    ensures n <= len
  {
    if pops == 0 then 0
    else
      var first := Min(len, batch);
      first + Taken(len - first, batch, pops - 1)
  }

  lemma {:induction false} TakenMeaning(len: nat, batch: nat, pops: nat)
    ensures Taken(len, batch, pops) == Min(len, batch * pops)
  {
    if pops > 0 {
      TakenMeaning(len - Min(len, batch), batch, pops - 1);
      assert batch * pops == batch + batch * (pops - 1);
    }
  }

  lemma Split(q: seq<Ref>, first: nat, later: nat)
    requires first + later <= |q|
    ensures q[first..][later..] == q[first + later..] && q[..first] + q[first..][..later] == q[..first + later]
  {
  }

  /** From `s` to `s'` the `n` oldest items of the queue were delivered, or are about to be. */
  predicate Takes(s: State, s': State, n: nat) {
    n <= |s.queue| && s'.queue == s.queue[n..] && s'.delivered + Read(s') == s.delivered + Read(s) + s.queue[..n]
  }

  lemma TakesTogether(s: State, s1: State, s2: State, n: nat, more: nat)
    requires Takes(s, s1, n) && Takes(s1, s2, more)
    ensures Takes(s, s2, n + more)
  {
    var q := s.queue;
    assert q[n..][more..] == q[n + more..];
    assert q[..n] + q[n..][..more] == q[..n + more];
    assert s.delivered + Read(s) + q[..n] + s1.queue[..more] == s.delivered + Read(s) + (q[..n] + s1.queue[..more]);
  }

  lemma StepTakes(c: Config, s: State, e: Event)
    requires Enabled(c, s, e) && !e.PushBatch? && c.batch > 0
    ensures Takes(s, Apply(c, s, e), if e.PopBatch? then Min(|s.queue|, c.batch) else 0)
  {
    assert s.queue[..0] == [] && s.queue[0..] == s.queue;
  }

  /** One event, and then `pops` further pops. */
  lemma TakesNext(c: Config, s: State, e: Event, s': State, pops: nat)
    requires Enabled(c, s, e) && !e.PushBatch? && c.batch > 0
    requires Takes(Apply(c, s, e), s', Taken(|Apply(c, s, e).queue|, c.batch, pops))
    ensures Takes(s, s', Taken(|s.queue|, c.batch, if e.PopBatch? then 1 + pops else pops))
  {
    StepTakes(c, s, e);
    TakesTogether(s, Apply(c, s, e), s', if e.PopBatch? then Min(|s.queue|, c.batch) else 0, Taken(|Apply(c, s, e).queue|, c.batch, pops));
  }

  lemma NothingTaken(s: State)
    ensures Takes(s, s, 0)
  {
    assert s.queue[..0] == [] && s.queue[0..] == s.queue;
  }

  /** Every run in which no one pushes: each pop takes a full batch or all there is, and
      what is taken is delivered or in the reading loop's hands, in order. */
  lemma {:induction false} RunTakes(c: Config, s: State, es: seq<Event>)
    requires Runs(c, s, es) && NoPush(es) && c.batch > 0
    ensures Takes(s, After(c, s, es), Taken(|s.queue|, c.batch, Pops(es)))
    decreases |es|
  {
    if es == [] {
      NothingTaken(s);
    } else {
      var rest := es[1..];
      assert forall i :: 0 <= i < |rest| ==> rest[i] == es[i + 1];
      RunTakes(c, Apply(c, s, es[0]), rest);
      TakesNext(c, s, es[0], After(c, s, es), Pops(rest));
    }
  }

  // ---- a run that empties the queue -------------------------------------------------

  /** All writers that still have the batch return. */
  lemma {:induction false} FinishCalls(c: Config, s: State) returns (es: seq<Event>)
    requires s.reader.Writing?
    ensures Runs(c, s, es) && Pops(es) == 0 && NoPush(es)
    ensures var s' := After(c, s, es); s'.reader == Writing(0) && s'.queue == s.queue && s'.delivered == s.delivered
    decreases s.reader.left
  {
    es := [];
    if s.reader.left > 0 {
      var e := WriterDone(true);
      RunsThen(c, s, [], e);
      assert [] + [e] == [e];
      var more := FinishCalls(c, FinishCall(s, true));
      RunsConcat(c, s, [e], more);
      es := [e] + more;
      assert es[1..] == more;
    }
  }

  /** One round of the reading loop while no one pushes. */
  lemma ReadRound(c: Config, s: State, writers: nat) returns (es: seq<Event>)
    requires s.reader.Ready? && c.batch > 0 && s.queue != []
    ensures Runs(c, s, es) && Pops(es) == 1 && NoPush(es) && After(c, s, es).reader.Ready?
  {
    es := [PopBatch, HandOver(writers)];
    RunsThen(c, s, [], PopBatch);
    RunsThen(c, s, [PopBatch], HandOver(writers));
    assert [] + [PopBatch] == [PopBatch] && [PopBatch] + [HandOver(writers)] == es;
    assert es[1..] == [HandOver(writers)] && es[1..][1..] == [] && Select(IsPop, es[1..]) == [];
    var more := FinishCalls(c, After(c, s, es));
    RunsConcat(c, s, es, more);
    SelectConcat(IsPop, es, more);
    es := es + more;
    RunsThen(c, s, es, ReadAgain);
    SelectConcat(IsPop, es, [ReadAgain]);
    assert Select(IsPop, [ReadAgain]) == [] by { assert [ReadAgain][1..] == []; }
    es := es + [ReadAgain];
  }

  /** Fewer pops than that leave something. */
  lemma StillSome(len: nat, batch: nat, n: nat)
    requires batch > 0 && 0 < n <= Ceil(len, batch)
    ensures Taken(len, batch, n - 1) < len
  {
    TakenMeaning(len, batch, n - 1);
    CeilMeaning(len, batch, n - 1);
  }

  lemma {:induction false} TakenGrows(len: nat, batch: nat, n: nat)
    ensures Taken(len, batch, n) <= Taken(len, batch, n + 1)
  {
    if n > 0 {
      TakenGrows(len - Min(len, batch), batch, n - 1);
    }
  }

  /** That many rounds, of which the last one still finds something. */
  lemma {:induction false} Rounds(c: Config, s: State, writers: nat, n: nat) returns (es: seq<Event>)
    requires s.reader.Ready? && c.batch > 0 && (n > 0 ==> Taken(|s.queue|, c.batch, n - 1) < |s.queue|)
    ensures Runs(c, s, es) && Pops(es) == n && NoPush(es) && After(c, s, es).reader.Ready?
  {
    es := [];
    if n > 0 {
      if n > 1 {
        TakenGrows(|s.queue|, c.batch, n - 2);
      }
      es := Rounds(c, s, writers, n - 1);
      RunTakes(c, s, es);
      var more := ReadRound(c, After(c, s, es), writers);
      RunsConcat(c, s, es, more);
      SelectConcat(IsPop, es, more);
      es := es + more;
    }
  }
}
