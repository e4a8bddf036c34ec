/** Stopping a loop does not interrupt its tick, so a new loop of the same name can tick
    beside it: exactly when a start finds a tick of the name still under way. */
module TickOverlaps {
  import opened HandlerSettings
  import opened Lifecycles

  /** Loop `i` is a loop of `name`, and its tick is under way. */
  predicate TicksAt(s: State, name: string, i: nat) { i < |s.loops| && s.loops[i].name == name && s.loops[i].ticking }

  ghost predicate SomeTick(s: State, name: string) { exists i: nat :: TicksAt(s, name, i) }

  /** The n-th event started a tick of loop `i`, and nothing has ended it since. */
  ghost predicate StartedAt(models: set<string>, es: seq<Event>, i: nat, n: nat) {
    n < |es| && es[n] == TickStart(i) && MayTick(After(models, es[..n]), i) && forall m :: n < m < |es| ==> es[m] != TickEnd(i)
  }

  lemma StartedStep(models: set<string>, es: seq<Event>, e: Event, i: nat)
    ensures forall n: nat :: n < |es| ==> (StartedAt(models, es + [e], i, n) <==> StartedAt(models, es, i, n) && e != TickEnd(i))
    ensures StartedAt(models, es + [e], i, |es|) <==> e == TickStart(i) && MayTick(After(models, es), i)
  {
    var all := es + [e];
    assert all[..|es|] == es;
    forall n: nat | n < |es|
      ensures StartedAt(models, all, i, n) <==> StartedAt(models, es, i, n) && e != TickEnd(i)
    {
      assert all[..n] == es[..n] && all[n] == es[n] && all[|es|] == e;
      assert forall m :: n < m < |es| ==> all[m] == es[m];
    }
  }

  lemma TickingStep(models: set<string>, s: State, e: Event, i: nat)
    ensures var s' := Apply(models, s, e);
            i < |s'.loops| && s'.loops[i].ticking <==>
              (e == TickStart(i) && MayTick(s, i)) || (e != TickEnd(i) && i < |s.loops| && s.loops[i].ticking)
  {
  }

  /** A tick is under way iff it was started, when it might, and has not ended. */
  lemma {:induction false} TickingIff(models: set<string>, es: seq<Event>, i: nat)
    ensures i < |After(models, es).loops| && After(models, es).loops[i].ticking <==> exists n: nat :: StartedAt(models, es, i, n)
    decreases |es|
  {
    if es != [] {
      var before, last := es[..|es| - 1], es[|es| - 1];
      assert es == before + [last];
      TickingIff(models, before, i);
      AfterThen(models, before, last);
      StartedStep(models, before, last, i);
      TickingStep(models, After(models, before), last, i);
      if n: nat :| StartedAt(models, es, i, n) {
        assert n < |before| || n == |before|;
      }
      if n: nat :| StartedAt(models, before, i, n) {
        assert last != TickEnd(i) ==> StartedAt(models, es, i, n);
      }
    }
  }

  /** Two ticks of `name` are under way. */
  ghost predicate Overlap(s: State, name: string) {
    exists i: nat, j: nat :: i != j && TicksAt(s, name, i) && TicksAt(s, name, j)
  }

  /** The event starts a loop of `name`. */
  predicate Starts(models: set<string>, s: State, e: Event, name: string) { Accepts(models, e, name) && name !in s.tasks }

  /** Every start of `name` found none of its ticks under way. */
  ghost predicate CleanStarts(models: set<string>, es: seq<Event>, name: string) {
    forall i: nat :: i < |es| && Starts(models, After(models, es[..i]), es[i], name) ==> !SomeTick(After(models, es[..i]), name)
  }

  /** At most one tick of `name` is under way, and if it has a task it is that task's loop's. */
  ghost predicate Single(s: State, name: string) {
    && (forall i: nat, j: nat :: TicksAt(s, name, i) && TicksAt(s, name, j) ==> i == j)
    && (name in s.tasks ==> forall i: nat :: TicksAt(s, name, i) ==> i == s.tasks[name])
  }

  lemma StepSingle(models: set<string>, s: State, e: Event, name: string)
    requires Inv(s) && Single(s, name) && (Starts(models, s, e, name) ==> !SomeTick(s, name))
    ensures Single(Apply(models, s, e), name)
  {
    var s' := Apply(models, s, e);
    match e
    case TickStart(l) =>
      forall i: nat | TicksAt(s', name, i)
        ensures TicksAt(s, name, i) || (i == l && MayTick(s, l))
      {
      }
    case _ =>
      forall i: nat | TicksAt(s', name, i)
        ensures TicksAt(s, name, i)
      {
      }
  }

  lemma {:induction false} CleanSingle(models: set<string>, es: seq<Event>, name: string)
    requires CleanStarts(models, es, name)
    ensures Single(After(models, es), name)
    decreases |es|
  {
    if es != [] {
      var n := |es| - 1;
      forall i: nat | i < n && Starts(models, After(models, es[..n][..i]), es[..n][i], name)
        ensures !SomeTick(After(models, es[..n][..i]), name)
      {
        assert es[..n][..i] == es[..i] && es[..n][i] == es[i];
      }
      CleanSingle(models, es[..n], name);
      AllInv(models, es[..n]);
      StepSingle(models, After(models, es[..n]), es[n], name);
    }
  }

  /** If every start of a name finds none of its ticks under way, no two ever overlap. */
  lemma CleanNoOverlap(models: set<string>, es: seq<Event>, name: string)
    requires CleanStarts(models, es, name)
    ensures !Overlap(After(models, es), name)
  {
    CleanSingle(models, es, name);
  }

  /** A start, and the new loop's first tick: ticks overlap then iff one was under way. */
  lemma StartOverlapsIff(models: set<string>, es: seq<Event>, e: Event, name: string)
    requires Starts(models, After(models, es), e, name) && !Overlap(After(models, es), name)
    ensures Overlap(After(models, es + [e] + [TickStart(|After(models, es).loops|)]), name) <==> SomeTick(After(models, es), name)
  {
    var s := After(models, es);
    var l := |s.loops|;
    AllInv(models, es);
    AfterThen(models, es, e);
    AfterThen(models, es + [e], TickStart(l));
    var s' := After(models, es + [e] + [TickStart(l)]);
    assert forall i: nat :: TicksAt(s', name, i) <==> TicksAt(s, name, i) || i == l;
    if i: nat :| TicksAt(s, name, i) {
      assert TicksAt(s', name, i) && TicksAt(s', name, l);
    }
    if i: nat, j: nat :| i != j && TicksAt(s', name, i) && TicksAt(s', name, j) {
      assert TicksAt(s, name, i) || TicksAt(s, name, j);
    }
  }

  lemma CleanPrefix(models: set<string>, es: seq<Event>, name: string, n: nat, l: nat)
    requires CleanStarts(models, es, name) && n <= |es|
    ensures CleanStarts(models, es[..n] + [TickStart(l)], name)
  {
    var all := es[..n] + [TickStart(l)];
    forall i: nat | i < |all| && Starts(models, After(models, all[..i]), all[i], name)
      ensures !SomeTick(After(models, all[..i]), name)
    {
      assert all[i] == es[i] && all[..i] == es[..i];
    }
  }

  lemma OverlapStays(models: set<string>, es: seq<Event>, l: nat, name: string)
    requires Overlap(After(models, es), name)
    ensures Overlap(After(models, es + [TickStart(l)]), name)
  {
    AfterThen(models, es, TickStart(l));
    var i: nat, j: nat :| i != j && TicksAt(After(models, es), name, i) && TicksAt(After(models, es), name, j);
    assert TicksAt(After(models, es + [TickStart(l)]), name, i) && TicksAt(After(models, es + [TickStart(l)]), name, j);
  }

  lemma DirtyOverlaps(models: set<string>, es: seq<Event>, name: string, i: nat) returns (n: nat, l: nat)
    requires i < |es| && Starts(models, After(models, es[..i]), es[i], name) && SomeTick(After(models, es[..i]), name)
    ensures n <= |es| && Overlap(After(models, es[..n] + [TickStart(l)]), name)
  {
    l := |After(models, es[..i]).loops|;
    assert es[..i + 1] == es[..i] + [es[i]];
    if Overlap(After(models, es[..i]), name) {
      OverlapStays(models, es[..i], l, name);
      n := i;
    } else {
      StartOverlapsIff(models, es[..i], es[i], name);
      n := i + 1;
    }
  }

  /** So a history can lead to an overlap, at some point of it and with one more tick, iff
      some start in it finds a tick of the name under way. */
  lemma OverlapIff(models: set<string>, es: seq<Event>, name: string)
    ensures CleanStarts(models, es, name) <==>
              forall n: nat, l: nat :: n <= |es| ==> !Overlap(After(models, es[..n] + [TickStart(l)]), name)
  {
    if CleanStarts(models, es, name) {
      forall n: nat, l: nat | n <= |es|
        ensures !Overlap(After(models, es[..n] + [TickStart(l)]), name)
      {
        CleanPrefix(models, es, name, n, l);
        CleanNoOverlap(models, es[..n] + [TickStart(l)], name);
      }
    } else {
      var i: nat :| i < |es| && Starts(models, After(models, es[..i]), es[i], name) && SomeTick(After(models, es[..i]), name);
      var n, l := DirtyOverlaps(models, es, name, i);
    }
  }

  /** A history in which that happens: a stop and a new start during a tick. */
  lemma TicksMayOverlap(spec: Spec, name: string)
    ensures exists es :: var s := After({spec.job.model}, es);
              && |s.loops| == 2 && s.loops[0].name == s.loops[1].name == name
              && s.loops[0].ticking && s.loops[1].ticking
  {
    var models := {spec.job.model};
    var found := Found(name, spec, Accepted);
    var es := [];
    AfterThen(models, es, found); es := es + [found];
    AfterThen(models, es, TickStart(0)); es := es + [TickStart(0)];
    var s := After(models, es);
    assert s.loops == [Loop(name, spec.job, 0, true)] && s.tasks == map[name := 0];
    AfterThen(models, es, NotFound(name)); es := es + [NotFound(name)];
    AfterThen(models, es, found); es := es + [found];
    s := After(models, es);
    assert s.loops == [Loop(name, spec.job, 0, true), Loop(name, spec.job, 1, false)];
    AfterThen(models, es, TickStart(1)); es := es + [TickStart(1)];
    assert After(models, es).loops[1].ticking;
  }
}
