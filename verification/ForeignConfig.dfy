/** When a running monitor can be without its own configuration. */
module ForeignConfigs {
  import opened Collections
  import opened HandlerSettings
  import opened Lifecycles

  /** What the Inits of the handlers can make of configurations: whether a model's Init
      can have that outcome on that configuration. */
  type Inits = (string, ConfigMap, Outcome) -> bool

  predicate FollowsAt(specs: map<string, Spec>, may: Inits, e: Event)
    requires e.Found?
  {
    e.name in specs && e.spec == specs[e.name] && may(e.spec.job.model, e.spec.config, e.outcome)
  }

  /** Every reconcile is one of a monitor with an unchanging spec, and its Init does
      what the model's Init can do. */
  ghost predicate Follows(specs: map<string, Spec>, may: Inits, es: seq<Event>) {
    forall i :: 0 <= i < |es| && es[i].Found? ==> FollowsAt(specs, may, es[i])
  }

  /** A monitor that runs has not got its own configuration in every field. */
  ghost predicate SomeForeign(specs: map<string, Spec>, s: State) {
    exists name :: name in s.tasks && name in specs && !RunsWith(SettingsOf(s, specs[name].job.model), specs[name].config)
  }

  /** The Init assigns at least one field. */
  predicate HasEffect(outcome: Outcome) { outcome.Accepted? || outcome.replaced != {} }

  /** Two monitors share a known model and differ in its configuration. */
  predicate Disagree(models: set<string>, specs: map<string, Spec>, a: string, b: string) {
    && a in specs && b in specs && specs[a].job.model == specs[b].job.model && specs[a].job.model in models
    && specs[a].config != specs[b].config
  }

  predicate Acceptable(specs: map<string, Spec>, may: Inits, a: string)
    requires a in specs
  {
    may(specs[a].job.model, specs[a].config, Accepted)
  }

  /** They disagree, the first can be accepted, and the second can then assign something. */
  ghost predicate Overwrites(models: set<string>, specs: map<string, Spec>, may: Inits, a: string, b: string, outcome: Outcome) {
    && Disagree(models, specs, a, b) && Acceptable(specs, may, a)
    && may(specs[b].job.model, specs[b].config, outcome) && HasEffect(outcome)
  }

  /** Nothing but `cfg` has been assigned to any field. */
  predicate OnlyFrom(s: Settings, cfg: ConfigMap) {
    s.base in {None, Some(cfg)} && forall field :: field in s.over ==> s.over[field] == cfg
  }

  /** Models with an acceptable monitor have only its configuration. */
  ghost predicate AllOwn(models: set<string>, specs: map<string, Spec>, may: Inits, s: State) {
    && (forall name :: name in s.tasks ==>
          && name in specs && specs[name].job.model in models && Acceptable(specs, may, name)
          && SettingsOf(s, specs[name].job.model).base.Some?)
    && forall name :: name in specs && specs[name].job.model in models && Acceptable(specs, may, name) ==>
         OnlyFrom(SettingsOf(s, specs[name].job.model), specs[name].config)
  }

  lemma OwnStep(models: set<string>, specs: map<string, Spec>, may: Inits, s: State, e: Event)
    requires AllOwn(models, specs, may, s) && (e.Found? ==> FollowsAt(specs, may, e))
    requires forall a, b, outcome :: !Overwrites(models, specs, may, a, b, outcome)
    ensures AllOwn(models, specs, may, Apply(models, s, e))
  {
    if e.Found? && e.name !in s.tasks && e.spec.job.model in models {
      var s1 := InitModel(s, e.spec, e.outcome);
      forall name | name in specs && specs[name].job.model in models && Acceptable(specs, may, name)
        ensures OnlyFrom(SettingsOf(s1, specs[name].job.model), specs[name].config)
      {
        assert !Overwrites(models, specs, may, name, e.name, e.outcome);
        assert OnlyFrom(SettingsOf(s, specs[name].job.model), specs[name].config);
      }
    }
  }

  lemma {:induction false} AgreeingOwn(models: set<string>, specs: map<string, Spec>, may: Inits, es: seq<Event>)
    requires Follows(specs, may, es) && forall a, b, outcome :: !Overwrites(models, specs, may, a, b, outcome)
    ensures AllOwn(models, specs, may, After(models, es))
    decreases |es|
  {
    if es != [] {
      var n := |es| - 1;
      AgreeingOwn(models, specs, may, es[..n]);
      OwnStep(models, specs, may, After(models, es[..n]), es[n]);
    }
  }

  /** Two reconciles: the first monitor runs, and the second one's Init, accepted or
      refused, has taken fields of the shared handler away from it. */
  lemma ForeignConfig(models: set<string>, specs: map<string, Spec>, may: Inits, a: string, b: string, outcome: Outcome) returns (field: string)
    requires Overwrites(models, specs, may, a, b, outcome)
    ensures var es := [Found(a, specs[a], Accepted), Found(b, specs[b], outcome)];
            && Follows(specs, may, es) && a in After(models, es).tasks
            && FieldOf(models, es, specs[a].job.model, field) == Some(specs[b].config)
            && SomeForeign(specs, After(models, es))
  {
    var first, second := Found(a, specs[a], Accepted), Found(b, specs[b], outcome);
    AfterThen(models, [], first);
    AfterThen(models, [first], second);
    assert [] + [first] == [first] && [first] + [second] == [first, second];
    field := "address";
    if outcome.Refused? {
      field :| field in outcome.replaced;
    }
    assert Source(SettingsOf(After(models, [first, second]), specs[a].job.model), field) == Some(specs[b].config);
  }

  /** Given the specs of all monitors and what Inits can do, some history has a monitor
      running without its own configuration iff two of them share a known model and
      differ, one can be accepted, and the other can be accepted or assign some field
      before it is refused. */
  lemma ForeignConfigIff(models: set<string>, specs: map<string, Spec>, may: Inits)
    ensures (exists es :: Follows(specs, may, es) && SomeForeign(specs, After(models, es))) <==>
            exists a, b, outcome :: Overwrites(models, specs, may, a, b, outcome)
  {
    if a, b, outcome :| Overwrites(models, specs, may, a, b, outcome) {
      var field := ForeignConfig(models, specs, may, a, b, outcome);
    } else if es :| Follows(specs, may, es) && SomeForeign(specs, After(models, es)) {
      AgreeingOwn(models, specs, may, es);
      assert false;
    }
  }

  /** Inits whose outcome is a function of the model and the configuration. */
  function Determined(init: (string, ConfigMap) -> Outcome): Inits {
    (m, cfg, outcome) => outcome == init(m, cfg)
  }

  predicate TakesOver(models: set<string>, specs: map<string, Spec>, init: (string, ConfigMap) -> Outcome, a: string, b: string) {
    && Disagree(models, specs, a, b)
    && init(specs[a].job.model, specs[a].config).Accepted? && HasEffect(init(specs[b].job.model, specs[b].config))
  }

  /** For those: one of the two is accepted, and the other is accepted or assigns some field. */
  lemma DeterminedForeignIff(models: set<string>, specs: map<string, Spec>, init: (string, ConfigMap) -> Outcome)
    ensures (exists es :: Follows(specs, Determined(init), es) && SomeForeign(specs, After(models, es))) <==>
            exists a, b :: TakesOver(models, specs, init, a, b)
  {
    var may := Determined(init);
    ForeignConfigIff(models, specs, may);
    if a, b :| TakesOver(models, specs, init, a, b) {
      assert Overwrites(models, specs, may, a, b, init(specs[b].job.model, specs[b].config));
    }
    if a, b, outcome :| Overwrites(models, specs, may, a, b, outcome) {
      assert TakesOver(models, specs, init, a, b);
    }
  }
}
