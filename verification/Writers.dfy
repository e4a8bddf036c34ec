/** internal/writer/writers.go: the Writers object, one method at a time. The module
    Pipeline says what happens when the critical sections of several calls interleave. */
module Writers {
  import opened Collections
  import opened SafeLists
  import opened Pipeline
  import opened PipelineBound
  import PipelineCounters

  /** What an undisturbed WriteSamples does to the queue, and the snapshot it starts. */
  function WriteEffect(c: Config, queue: seq<Ref>, samples: seq<Ref>): (seq<Ref>, Option<Snap>) {
    var items := Select(c.converts, samples);
    var accepted := |queue| < c.maxSize;
    var after := if accepted && samples != [] then queue + items else queue;
    (after, if samples == [] then None else Some(Snap(|items|, |after|, accepted)))
  }

  /** The events of one WriteSamples call, run without interruption, have that effect. */
  lemma WriteUndisturbed(c: Config, s: State, p: nat) returns (es: seq<Event>)
    requires At(s, p) && PhaseOf(s, p).Forwarding?
    ensures Runs(c, s, es)
    ensures var s', effect := After(c, s, es), WriteEffect(c, s.queue, PhaseOf(s, p).samples);
            && s'.queue == effect.0
            && s'.pending == s.pending + (if effect.1.Some? then [effect.1.value] else [])
            && At(s', p) && PhaseOf(s', p).Idle?
  {
    es := [];
    var s1 := Convert(c, s, p);
    RunsThen(c, s, es, ConvertSamples(p)); es := es + [ConvertSamples(p)];
    if PhaseOf(s, p).samples != [] {
      var s2 := LookAtQueue(c, s1, p);
      RunsThen(c, s, es, SeeQueue(p)); es := es + [SeeQueue(p)];
      if |s.queue| < c.maxSize {
        RunsThen(c, s, es, PushBatch(p)); es := es + [PushBatch(p)];
        s2 := Push(s2, p);
      }
      RunsThen(c, s, es, Report(p)); es := es + [Report(p)];
    }
  }

  lemma OneMore(done: set<string>, failing: set<string>, key: string)
    requires key !in done
    ensures |done + {key}| == |done| + 1
    ensures |(done + {key}) * failing| == |done * failing| + if key in failing then 1 else 0
  {
    assert (done + {key}) * failing == done * failing + if key in failing then {key} else {};
  }

  function Wrap(n: nat): UInt64 { n % TWO_64 }

  /** The counters after `writes` more writer calls, `fails` of which returned an error. */
  function AddWrites(n: Counters, writes: nat, fails: nat): Counters {
    n.(writes := Wrap(n.writes + writes), writeFails := Wrap(n.writeFails + fails))
  }

  lemma CountsAdd(n: Counters, writes: nat, fails: nat, ok: bool)
    ensures CountWrite(AddWrites(n, writes, fails), ok) == AddWrites(n, writes + 1, fails + if ok then 0 else 1)
  {
    PipelineCounters.AddWrapped(n.writes + writes, 1);
    PipelineCounters.AddWrapped(n.writeFails + fails, 1);
  }

  class Writers {
    const config: Config
    const queue: SafeListLimited<Ref>
    var writerMap: set<string>

    var queueFailCount: UInt64
    var queueFailTotal: UInt64
    var queueTotalCount: UInt64
    var queueSize: UInt64
    var writeTotalCount: UInt64
    var writeFailTotal: UInt64

    ghost predicate Valid()
      reads this
    {
      queue.maxSize == config.maxSize
    }

    /** QueueMetrics: a copy of the counters. */
    function QueueMetrics(): Counters
      reads this
    {
      Counters(queueFailCount, queueFailTotal, queueTotalCount, queueSize, writeTotalCount, writeFailTotal)
    }

    constructor (config: Config)
      ensures Valid() && this.config == config && fresh(queue) && fresh(queue.SL)
      ensures queue.SL.Fifo() == [] && writerMap == {} && QueueMetrics() == Init(0, 0).counters
    {
      this.config := config;
      queue := new SafeListLimited<Ref>(config.maxSize);
      writerMap := {};
      queueFailCount, queueFailTotal, queueTotalCount, queueSize := 0, 0, 0, 0;
      writeTotalCount, writeFailTotal := 0, 0;
    }

    /** `created` is the success of newWriter. */
    method Register(name: string, created: bool) returns (ok: bool)
      modifies this`writerMap
      ensures ok == created
      ensures writerMap == if created then old(writerMap) + {name} else old(writerMap)
    {
      if !created {
        return false;
      }
      writerMap := writerMap + {name};
      return true;
    }

    method DeRegister(name: string) returns (ok: bool)
      modifies this`writerMap
      ensures ok == (name in old(writerMap)) && writerMap == old(writerMap) - {name}
    {
      if name in writerMap {
        writerMap := writerMap - {name};
        return true;
      }
      return false;
    }

    /** Returns the arguments of the snapshot goroutine it starts, if it starts one. */
    method WriteSamples(samples: seq<Ref>) returns (started: Option<Snap>)
      requires Valid()
      modifies queue.SL
      ensures queue.SL.Fifo() == WriteEffect(config, old(queue.SL.Fifo()), samples).0
      ensures started == WriteEffect(config, old(queue.SL.Fifo()), samples).1
    {
      if |samples| == 0 {
        return None;
      }
      var items := [];
      for i := 0 to |samples|
        invariant items == Select(config.converts, samples[..i])
        invariant queue.SL.Fifo() == old(queue.SL.Fifo())
      {
        SelectConcat(config.converts, samples[..i], [samples[i]]);
        assert samples[..i + 1] == samples[..i] + [samples[i]];
        if config.converts(samples[i]) {
          items := items + [samples[i]];
        }
      }
      assert samples[..|samples|] == samples;
      var success := queue.PushFrontN(items);
      var l := queue.Len();
      return Some(Snap(|items|, l, success));
    }

    /** snapshot in mode "queue". */
    method SnapshotQueue(snap: Snap)
      modifies this
      ensures QueueMetrics() == CountBatch(old(QueueMetrics()), snap) && writerMap == old(writerMap)
      ensures queueSize == snap.size % TWO_64
    {
      queueTotalCount := Wrap(queueTotalCount + snap.count);
      queueSize := Wrap(snap.size);
      if !snap.accepted {
        queueFailCount := Wrap(queueFailCount + 1);
        queueFailTotal := Wrap(queueFailTotal + snap.count);
      }
    }

    /** snapshot in mode "write". */
    method SnapshotWrite(ok: bool)
      modifies this
      ensures QueueMetrics() == CountWrite(old(QueueMetrics()), ok) && writerMap == old(writerMap)
    {
      writeTotalCount := Wrap(writeTotalCount + 1);
      if !ok {
        writeFailTotal := Wrap(writeFailTotal + 1);
      }
    }

    /** One round of loopRead: an empty batch means the loop sleeps. */
    method ReadBatch() returns (items: seq<Ref>)
      requires Valid()
      modifies queue.SL
      ensures var count := PopCount(|old(queue.SL.Fifo())|, config.batch);
              items == old(queue.SL.Fifo())[..count] && queue.SL.Fifo() == old(queue.SL.Fifo())[count..]
    {
      items := queue.PopBackN(config.batch);
    }

    /** WriteTimeSeries on a non-empty batch: every registered writer is called once, in
        any order; the calls of `failing` writers return an error. The counters come out
        the same for every order. */
    method WriteTimeSeries(failing: set<string>) returns (called: seq<string>)
      modifies this
      ensures writerMap == old(writerMap)
      ensures |called| == |writerMap| && forall name :: name in called <==> name in writerMap
      ensures QueueMetrics() == AddWrites(old(QueueMetrics()), |writerMap|, |writerMap * failing|)
    {
      called := [];
      var rest := writerMap;
      ghost var done: set<string> := {};
      while rest != {}
        invariant writerMap == old(writerMap) && rest + done == writerMap && rest !! done
        invariant |called| == |done| && forall name :: name in called <==> name in done
        invariant QueueMetrics() == AddWrites(old(QueueMetrics()), |done|, |done * failing|)
        decreases rest
      {
        var key :| key in rest;
        CountsAdd(old(QueueMetrics()), |done|, |done * failing|, key !in failing);
        OneMore(done, failing, key);
        rest, done, called := rest - {key}, done + {key}, called + [key];
        SnapshotWrite(key !in failing);
      }
      assert done == writerMap;
    }
  }
}
