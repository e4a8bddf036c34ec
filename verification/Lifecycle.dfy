/** The life of the monitor loops: which names have a task, which stop channels are
    closed, which loops may still tick, and what they collect with, over every history of
    reconciles and ticks. */
module Lifecycles {
  import opened Collections
  import opened HandlerSettings

  /** What a monitor's closure keeps of its spec. */
  datatype Job = Job(model: string, labels: map<string, string>, period: int)

  /** A monitor's spec: its job, and the configuration that goes to the model's handler. */
  datatype Spec = Spec(job: Job, config: ConfigMap)

  /** A goroutine started by Run; `ticking` while the closure is executing. */
  datatype Loop = Loop(name: string, job: Job, stopCh: nat, ticking: bool)

  /** Channels are numbered in the order they are made; `closes` counts how often each was closed. */
  datatype State = State(
    tasks: map<string, nat>,
    closes: seq<nat>,
    loops: seq<Loop>,
    settings: map<string, Settings>)  // of each model's handler

  /** `outcome` says what the handler's Init would make of the configuration. */
  datatype Event =
    | NotFound(name: string)
    | GetFailed(name: string)
    | Found(name: string, spec: Spec, outcome: Outcome)
    | StopEverything
    | TickStart(loop: nat)
    | TickEnd(loop: nat)

  function Init(models: set<string>): State { State(map[], [], [], map m | m in models :: UNSET) }

  function SettingsOf(s: State, m: string): Settings { if m in s.settings then s.settings[m] else UNSET }

  function CloseOnce(closes: seq<nat>, ch: nat): seq<nat> {
    if ch < |closes| then closes[ch := closes[ch] + 1] else closes
  }

  /** pkg/worker/worker.go: Stop. */
  function Stop(s: State, name: string): State {
    if name in s.tasks then s.(closes := CloseOnce(s.closes, s.tasks[name]), tasks := s.tasks - {name}) else s
  }

  /** AddWorkerTask then Run, for a name without a task. */
  function Start(s: State, name: string, job: Job): State {
    var ch := |s.closes|;
    s.(tasks := s.tasks[name := ch], closes := s.closes + [0], loops := s.loops + [Loop(name, job, ch, false)])
  }

  function NamesOf(tasks: map<string, nat>, ch: nat): set<string> {
    set name | name in tasks && tasks[name] == ch
  }

  /** StopAll closes the channel of each task, as often as tasks have it. */
  function StopAll(s: State): State {
    s.(tasks := map[],
       closes := seq(|s.closes|, ch requires 0 <= ch < |s.closes| => s.closes[ch] + |NamesOf(s.tasks, ch)|))
  }

  function InitModel(s: State, spec: Spec, outcome: Outcome): State {
    var m := spec.job.model;
    s.(settings := s.settings[m := AfterInit(SettingsOf(s, m), spec.config, outcome)])
  }

  /** internal/controller/monitor_controller.go: Reconcile of a monitor that exists. */
  function ReconcileFound(models: set<string>, s: State, name: string, spec: Spec, outcome: Outcome): State {
    if name in s.tasks || spec.job.model !in models then s
    else
      var s1 := InitModel(s, spec, outcome);
      if outcome.Accepted? then Start(s1, name, spec.job) else s1
  }

  predicate MayTick(s: State, loop: nat) {
    && loop < |s.loops| && !s.loops[loop].ticking
    && s.loops[loop].stopCh < |s.closes| && s.closes[s.loops[loop].stopCh] == 0
  }

  /** A tick event that cannot happen leaves the state alone. */
  function Apply(models: set<string>, s: State, e: Event): State {
    match e
    case NotFound(name) => Stop(s, name)
    case GetFailed(_) => s
    case Found(name, spec, outcome) => ReconcileFound(models, s, name, spec, outcome)
    case StopEverything => StopAll(s)
    case TickStart(i) => if MayTick(s, i) then s.(loops := s.loops[i := s.loops[i].(ticking := true)]) else s
    case TickEnd(i) => if i < |s.loops| then s.(loops := s.loops[i := s.loops[i].(ticking := false)]) else s
  }

  function After(models: set<string>, es: seq<Event>): State
    decreases |es|
  {
    if es == [] then Init(models) else Apply(models, After(models, es[..|es| - 1]), es[|es| - 1])
  }

  // ---- what every state satisfies ---------------------------------------------

  ghost predicate Inv(s: State) {
    && |s.loops| == |s.closes|
    && (forall ch :: 0 <= ch < |s.closes| ==> s.closes[ch] <= 1)
    && (forall i :: 0 <= i < |s.loops| ==> s.loops[i].stopCh == i)
    && (forall name :: name in s.tasks ==>
          s.tasks[name] < |s.closes| && s.closes[s.tasks[name]] == 0 && s.loops[s.tasks[name]].name == name)
    && (forall ch :: 0 <= ch < |s.closes| && s.closes[ch] == 0 ==>
          s.loops[ch].name in s.tasks && s.tasks[s.loops[ch].name] == ch)
  }

  lemma OneName(s: State, ch: nat)
    requires Inv(s) && ch < |s.closes|
    ensures |NamesOf(s.tasks, ch)| == if s.closes[ch] == 0 then 1 else 0
  {
    if s.closes[ch] == 0 {
      assert NamesOf(s.tasks, ch) == {s.loops[ch].name};
    } else {
      assert NamesOf(s.tasks, ch) == {};
    }
  }

  /** StopAll leaves no task and every channel closed once. */
  lemma StopAllCloses(s: State, closes: seq<nat>)
    requires Inv(s) && |closes| == |s.closes| && forall ch :: 0 <= ch < |closes| ==> closes[ch] == 1
    ensures StopAll(s) == s.(tasks := map[], closes := closes) && Inv(StopAll(s))
  {
    forall ch: nat | ch < |s.closes|
      ensures StopAll(s).closes[ch] == 1
    {
      OneName(s, ch);
    }
  }

  lemma StopInv(s: State, name: string)
    requires Inv(s)
    ensures Inv(Stop(s, name))
  {
  }

  lemma StartInv(s: State, name: string, job: Job)
    requires Inv(s) && name !in s.tasks
    ensures Inv(Start(s, name, job))
  {
  }

  lemma LoopInv(s: State, i: nat, ticking: bool)
    requires Inv(s) && i < |s.loops|
    ensures Inv(s.(loops := s.loops[i := s.loops[i].(ticking := ticking)]))
  {
  }

  function Ones(n: nat): seq<nat> { seq(n, _ => 1) }

  lemma StepInv(models: set<string>, s: State, e: Event)
    requires Inv(s)
    ensures Inv(Apply(models, s, e))
  {
    match e
    case NotFound(name) => StopInv(s, name);
    case Found(name, spec, outcome) =>
      if name !in s.tasks && spec.job.model in models {
        StartInv(InitModel(s, spec, outcome), name, spec.job);
      }
    case StopEverything => StopAllCloses(s, Ones(|s.closes|));
    case TickStart(i) => if MayTick(s, i) { LoopInv(s, i, true); }
    case TickEnd(i) => if i < |s.loops| { LoopInv(s, i, false); }
    case _ =>
  }

  lemma {:induction false} AllInv(models: set<string>, es: seq<Event>)
    ensures Inv(After(models, es))
    decreases |es|
  {
    if es != [] {
      AllInv(models, es[..|es| - 1]);
      StepInv(models, After(models, es[..|es| - 1]), es[|es| - 1]);
    }
  }

  /** The loop's stop channel is open. */
  predicate MayStillTick(s: State, i: nat) {
    i < |s.loops| && s.loops[i].stopCh < |s.closes| && s.closes[s.loops[i].stopCh] == 0
  }

  ghost predicate OneLoop(s: State, name: string) {
    exists i: nat :: MayStillTick(s, i) && s.loops[i].name == name &&
      forall j: nat :: MayStillTick(s, j) && s.loops[j].name == name ==> j == i
  }

  /** No channel is closed twice; a channel is open exactly when some task has it; every
      task has exactly one loop that is not stopped, and every such loop serves a task. */
  lemma ChannelsAndLoops(models: set<string>, es: seq<Event>)
    ensures var s := After(models, es);
            && (forall ch :: 0 <= ch < |s.closes| ==> s.closes[ch] <= 1)
            && (forall ch :: 0 <= ch < |s.closes| ==> (s.closes[ch] == 0 <==> exists name :: name in s.tasks && s.tasks[name] == ch))
            && (forall name :: name in s.tasks ==> OneLoop(s, name))
            && (forall i :: 0 <= i < |s.loops| && MayStillTick(s, i) ==> s.loops[i].name in s.tasks)
  {
    AllInv(models, es);
    var s := After(models, es);
    forall name | name in s.tasks
      ensures OneLoop(s, name)
    {
      assert MayStillTick(s, s.tasks[name]) && s.loops[s.tasks[name]].name == name;
    }
    forall ch | 0 <= ch < |s.closes|
      ensures s.closes[ch] == 0 <==> exists name :: name in s.tasks && s.tasks[name] == ch
    {
      if s.closes[ch] == 0 {
        assert s.loops[ch].name in s.tasks;
      }
    }
  }

  // ---- which monitor runs, read off the history -------------------------------

  predicate Accepts(models: set<string>, e: Event, name: string) {
    e.Found? && e.name == name && e.outcome.Accepted? && e.spec.job.model in models
  }

  predicate Resets(e: Event, name: string) {
    e.StopEverything? || (e.NotFound? && e.name == name)
  }

  /** The i-th event accepted the monitor, and nothing has stopped it since. */
  ghost predicate InForceSince(models: set<string>, es: seq<Event>, name: string, i: nat) {
    i < |es| && Accepts(models, es[i], name) && forall j :: i < j < |es| ==> !Resets(es[j], name)
  }

  ghost predicate FirstInForce(models: set<string>, es: seq<Event>, name: string, i: nat) {
    InForceSince(models, es, name, i) && forall j: nat :: j < i ==> !InForceSince(models, es, name, j)
  }

  /** What the state says about `name` is what the history says. */
  ghost predicate Agrees(models: set<string>, es: seq<Event>, name: string) {
    var s := After(models, es);
    && (name in s.tasks <==> exists i: nat :: FirstInForce(models, es, name, i))
    && (forall i: nat :: FirstInForce(models, es, name, i) ==>
          name in s.tasks && s.tasks[name] < |s.loops| && s.loops[s.tasks[name]].job == es[i].spec.job)
  }

  lemma InForceStep(models: set<string>, es: seq<Event>, e: Event, name: string, i: nat)
    ensures InForceSince(models, es + [e], name, i) <==>
              if i == |es| then Accepts(models, e, name)
              else InForceSince(models, es, name, i) && !Resets(e, name)
  {
    var all := es + [e];
    if i < |es| && InForceSince(models, all, name, i) {
      forall j | i < j < |es|
        ensures !Resets(es[j], name)
      {
        assert all[j] == es[j];
      }
      assert all[|es|] == e;
    }
  }

  /** If the monitor is in force since some event, it is since a first one. */
  lemma {:induction false} SomeFirst(models: set<string>, es: seq<Event>, name: string, bound: nat)
    ensures (exists i: nat :: i < bound && InForceSince(models, es, name, i)) ==> exists i: nat :: i < bound && FirstInForce(models, es, name, i)
  {
    if i: nat :| i < bound && InForceSince(models, es, name, i) {
      SomeFirst(models, es, name, i);
      if forall j: nat :: j < i ==> !InForceSince(models, es, name, j) {
        assert FirstInForce(models, es, name, i);
      }
    }
  }

  lemma FirstStep(models: set<string>, es: seq<Event>, e: Event, name: string)
    ensures forall i: nat :: i < |es| ==>
              (FirstInForce(models, es + [e], name, i) <==> FirstInForce(models, es, name, i) && !Resets(e, name))
    ensures FirstInForce(models, es + [e], name, |es|) <==>
              Accepts(models, e, name) && forall j: nat :: !FirstInForce(models, es, name, j)
  {
    forall i: nat
      ensures InForceSince(models, es + [e], name, i) <==>
                if i == |es| then Accepts(models, e, name) else InForceSince(models, es, name, i) && !Resets(e, name)
    {
      InForceStep(models, es, e, name, i);
    }
    SomeFirst(models, es, name, |es|);
  }

  lemma StepAgrees(models: set<string>, es: seq<Event>, e: Event, name: string)
    requires Agrees(models, es, name)
    ensures Agrees(models, es + [e], name)
  {
    FirstStep(models, es, e, name);
    AllInv(models, es);
    var all := es + [e];
    assert all[..|all| - 1] == es;
    var s, s' := After(models, es), After(models, all);
    assert s' == Apply(models, s, e);
    if i: nat :| FirstInForce(models, es, name, i) {
      assert i < |es| && all[i] == es[i];
    }
  }

  /** After any history a name has a task iff it was accepted by a reconcile with no
      NotFound of that name and no StopAll since, and its loop does the job in the spec
      of the first such reconcile: later ones change nothing while it runs. */
  lemma {:induction false} RunningIffAccepted(models: set<string>, es: seq<Event>, name: string)
    ensures Agrees(models, es, name)
    decreases |es|
  {
    if es != [] {
      var n := |es| - 1;
      RunningIffAccepted(models, es[..n], name);
      StepAgrees(models, es[..n], es[n], name);
      assert es[..n] + [es[n]] == es;
    }
  }

  /** A tick that starts belongs to a monitor that is in force, and does the job it was
      accepted with. What it collects with is another matter: see below. */
  lemma TicksInForce(models: set<string>, es: seq<Event>, loop: nat) returns (i: nat)
    requires MayTick(After(models, es), loop)
    ensures var l := After(models, es).loops[loop];
            FirstInForce(models, es, l.name, i) && es[i].spec.job == l.job
  {
    AllInv(models, es);
    var name := After(models, es).loops[loop].name;
    RunningIffAccepted(models, es, name);
    i :| FirstInForce(models, es, name, i);
  }

  lemma AfterThen(models: set<string>, es: seq<Event>, e: Event)
    ensures After(models, es + [e]) == Apply(models, After(models, es), e)
  {
    assert (es + [e])[..|es|] == es;
  }

  // ---- the configuration a tick collects with ---------------------------------

  /** The i-th event reached the Init of model `m`: a reconcile of a known model whose
      monitor was not running. */
  ghost predicate Reaches(models: set<string>, es: seq<Event>, m: string, i: nat) {
    && i < |es| && es[i].Found? && es[i].spec.job.model == m && m in models
    && es[i].name !in After(models, es[..i]).tasks
  }

  /** It also assigned this field of the handler. */
  ghost predicate Sets(models: set<string>, es: seq<Event>, m: string, field: string, i: nat) {
    Reaches(models, es, m, i) && Assigns(es[i].outcome, field)
  }

  ghost predicate LastSets(models: set<string>, es: seq<Event>, m: string, field: string, i: nat) {
    Sets(models, es, m, field, i) && forall j: nat :: i < j < |es| ==> !Sets(models, es, m, field, j)
  }

  ghost predicate LastReaches(models: set<string>, es: seq<Event>, m: string, i: nat) {
    Reaches(models, es, m, i) && forall j: nat :: i < j < |es| ==> !Reaches(models, es, m, j)
  }

  function FieldOf(models: set<string>, es: seq<Event>, m: string, field: string): Option<ConfigMap> {
    Source(SettingsOf(After(models, es), m), field)
  }

  ghost predicate FieldAgrees(models: set<string>, es: seq<Event>, m: string, field: string) {
    && (forall i: nat :: LastSets(models, es, m, field, i) ==> FieldOf(models, es, m, field) == Some(es[i].spec.config))
    && ((forall i: nat :: !Sets(models, es, m, field, i)) ==> FieldOf(models, es, m, field) == None)
  }

  lemma SetsStep(models: set<string>, es: seq<Event>, e: Event, m: string, field: string)
    ensures forall i: nat :: i < |es| ==> (Sets(models, es + [e], m, field, i) <==> Sets(models, es, m, field, i))
    ensures Sets(models, es + [e], m, field, |es|) <==>
              e.Found? && e.spec.job.model == m && m in models && e.name !in After(models, es).tasks && Assigns(e.outcome, field)
  {
    var all := es + [e];
    assert all[..|es|] == es;
    forall i: nat | i < |es|
      ensures Sets(models, all, m, field, i) <==> Sets(models, es, m, field, i)
    {
      assert all[i] == es[i] && all[..i] == es[..i];
    }
  }

  /** An event either sets the field, or leaves it alone. */
  lemma FieldStep(models: set<string>, es: seq<Event>, e: Event, m: string, field: string)
    ensures FieldOf(models, es + [e], m, field) ==
            if Sets(models, es + [e], m, field, |es|) then Some(e.spec.config) else FieldOf(models, es, m, field)
  {
    AfterThen(models, es, e);
    SetsStep(models, es, e, m, field);
  }

  lemma FieldAgreesStep(models: set<string>, es: seq<Event>, e: Event, m: string, field: string)
    requires FieldAgrees(models, es, m, field)
    ensures FieldAgrees(models, es + [e], m, field)
  {
    var all := es + [e];
    SetsStep(models, es, e, m, field);
    FieldStep(models, es, e, m, field);
    if !Sets(models, all, m, field, |es|) {
      forall i: nat | LastSets(models, all, m, field, i)
        ensures LastSets(models, es, m, field, i) && all[i] == es[i]
      {
        assert i < |es|;
      }
    }
  }

  /** Whatever the history, each field of a model's handler holds what the last reconcile
      that assigned it gave, be that reconcile accepted or refused, of this monitor or of
      another one. */
  lemma {:induction false} LatestConfig(models: set<string>, es: seq<Event>, m: string, field: string)
    ensures FieldAgrees(models, es, m, field)
    decreases |es|
  {
    if es != [] {
      var before, last := es[..|es| - 1], es[|es| - 1];
      assert es == before + [last];
      LatestConfig(models, before, m, field);
      FieldAgreesStep(models, before, last, m, field);
    }
  }

  /** If the last Init of the model was accepted, every field holds its configuration. */
  lemma LatestAccepted(models: set<string>, es: seq<Event>, m: string, i: nat)
    requires LastReaches(models, es, m, i) && es[i].outcome.Accepted?
    ensures RunsWith(SettingsOf(After(models, es), m), es[i].spec.config)
  {
    forall field
      ensures Source(SettingsOf(After(models, es), m), field) == Some(es[i].spec.config)
    {
      LatestConfig(models, es, m, field);
      assert LastSets(models, es, m, field, i);
    }
  }

  /** In force up to an accepting event means in force after it, by the same first event. */
  lemma PrefixInForce(models: set<string>, es: seq<Event>, name: string, i: nat, k: nat)
    requires InForceSince(models, es, name, i) && InForceSince(models, es[..i], name, k)
    ensures k < i && InForceSince(models, es, name, k)
  {
    forall j | k < j < |es|
      ensures !Resets(es[j], name)
    {
      if j < i {
        assert es[..i][j] == es[j];
      }
    }
  }

  lemma {:induction false} LastFrom(models: set<string>, es: seq<Event>, m: string, field: string, i: nat)
    requires Sets(models, es, m, field, i)
    ensures exists j: nat :: i <= j && LastSets(models, es, m, field, j)
    decreases |es| - i
  {
    if j: nat :| i < j < |es| && Sets(models, es, m, field, j) {
      LastFrom(models, es, m, field, j);
    } else {
      assert LastSets(models, es, m, field, i);
    }
  }

  /** The reconcile that accepted a running monitor reached the Init of its model. */
  lemma AcceptanceReaches(models: set<string>, es: seq<Event>, name: string, i: nat)
    requires FirstInForce(models, es, name, i)
    ensures Reaches(models, es, es[i].spec.job.model, i)
  {
    RunningIffAccepted(models, es[..i], name);
    if k: nat :| FirstInForce(models, es[..i], name, k) {
      PrefixInForce(models, es, name, i, k);
    }
  }

  /** A running monitor collects with nothing that is older than its own acceptance. */
  lemma NothingOlder(models: set<string>, es: seq<Event>, name: string, i: nat, field: string)
    requires FirstInForce(models, es, name, i)
    ensures exists j: nat :: i <= j < |es| && Reaches(models, es, es[i].spec.job.model, j)
              && FieldOf(models, es, es[i].spec.job.model, field) == Some(es[j].spec.config)
  {
    var m := es[i].spec.job.model;
    AcceptanceReaches(models, es, name, i);
    LatestConfig(models, es, m, field);
    LastFrom(models, es, m, field, i);
  }
}
