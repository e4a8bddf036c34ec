/** pkg/input/manager.go: one shared handler and one shared list per model. */
module Factories {
  import opened Collections
  import opened SafeLists
  import opened Samples
  import opened Processes
  import opened HandlerSettings

  /** What a handler's Gather pushed, and whether it returned without an error. */
  datatype Gathered = Gathered(samples: seq<Sample?>, ok: bool)

  /** A handler, as far as the factory sees it: its name and its settings. */
  class Handler {
    const Name: string
    var settings: Settings

    constructor (name: string)
      ensures Name == name && settings == UNSET
    {
      Name, settings := name, UNSET;
    }

    /** An Init that fails leaves a mixture of old and new settings behind. */
    method Init(cfg: ConfigMap, outcome: Outcome) returns (ok: bool)
      modifies this
      ensures settings == AfterInit(old(settings), cfg, outcome) && ok == outcome.Accepted?
    {
      settings := AfterInit(settings, cfg, outcome);
      ok := outcome.Accepted?;
    }

    /** Also says which settings the collection ran with. */
    method Gather(slist: SampleList, outcome: Gathered) returns (ok: bool, ghost ranWith: Settings)
      modifies slist
      ensures slist.Fifo() == old(slist.Fifo()) + outcome.samples && ok == outcome.ok && ranWith == settings
    {
      ranWith := settings;
      slist.PushFrontN(outcome.samples);
      ok := outcome.ok;
    }
  }

  class SharedHandlerFactory {
    var RootList: map<string, SampleList>
    var handlers: seq<Handler>
    var supportModel: map<string, Handler>

    /** The registry's two maps agree, and no two models share a handler or a list. */
    ghost predicate Valid()
      reads this
    {
      && supportModel.Keys == RootList.Keys
      && (forall m :: m in supportModel ==> supportModel[m].Name == m)
      && (forall m, n :: m in RootList && n in RootList && m != n ==> RootList[m] != RootList[n])
    }

    /** The settings of each model's handler. */
    ghost function AllSettings(): map<string, Settings>
      reads this, supportModel.Values
    {
      map m | m in supportModel :: supportModel[m].settings
    }

    constructor ()
      ensures Valid() && supportModel == map[] && handlers == []
    {
      RootList, handlers, supportModel := map[], [], map[];
    }

    /** Registering a model again replaces its handler and starts a new, empty list. */
    method RegisterHandler(handler: Handler)
      requires Valid()
      modifies this
      ensures Valid()
      ensures handlers == old(handlers) + [handler]
      ensures supportModel == old(supportModel)[handler.Name := handler]
      ensures handler.Name in RootList && fresh(RootList[handler.Name]) && RootList[handler.Name].Fifo() == []
      ensures RootList == old(RootList)[handler.Name := RootList[handler.Name]]
    {
      handlers := handlers + [handler];
      supportModel := supportModel[handler.Name := handler];
      var list := new SafeList<Sample?>();
      RootList := RootList[handler.Name := list];
    }

    method InitConfig(model: string, cfg: ConfigMap, outcome: Outcome) returns (ok: bool)
      requires Valid()
      modifies supportModel.Values
      ensures Valid() && ok == (model in supportModel && outcome.Accepted?)
      ensures AllSettings() ==
              if model in supportModel then old(AllSettings())[model := AfterInit(old(AllSettings())[model], cfg, outcome)]
              else old(AllSettings())
    {
      if model !in supportModel {
        return false;
      }
      ok := supportModel[model].Init(cfg, outcome);
    }

    /** Both lookups of the source; under Valid the second cannot fail when the first succeeds. */
    method Gather(model: string, outcome: Gathered) returns (ok: bool, ghost ranWith: Settings)
      requires Valid()
      modifies set m | m in RootList && m == model :: RootList[m]
      ensures Valid() && ok == (model in supportModel && outcome.ok)
      ensures model in supportModel ==>
                && RootList[model].Fifo() == old(RootList[model].Fifo()) + outcome.samples
                && ranWith == AllSettings()[model]
    {
      if model !in supportModel {
        return false, UNSET;
      }
      ok, ranWith := supportModel[model].Gather(RootList[model], outcome);
    }

    method List(model: string) returns (list: Option<SampleList>)
      requires Valid()
      ensures list == if model in supportModel then Some(RootList[model]) else None
    {
      if model !in RootList {
        return None;
      }
      return Some(RootList[model]);
    }

    /** internal/controller/monitor_controller.go: one tick of a monitor's closure, up to
        the samples it hands to WriteSamples. A failed gather leaves what it pushed in the
        shared list, untouched; the next successful tick of any monitor of the model
        forwards it, oldest first, ahead of what that tick's own gather pushes. It is then
        that tick's monitor whose labels the samples get, whoever collected them. */
    method Tick(model: string, labels: LabelMap, outcome: Gathered, now: Time) returns (ok: bool, forwarded: seq<Sample?>)
      requires Valid() && now != ZERO_TIME
      modifies (set m | m in RootList && m == model :: RootList[m]),
               (set s | s in outcome.samples && s != null),
               (set m, s | m in RootList && m == model && s in RootList[m].L && s != null :: s)
      ensures ok == (model in supportModel && outcome.ok)
      ensures !ok ==> forwarded == []
      ensures !ok && model in RootList ==> RootList[model].Fifo() == old(RootList[model].Fifo()) + outcome.samples
      ensures !ok ==> forall s: Sample :: s in outcome.samples || (model in RootList && s in old(RootList[model].L)) ==>
                s.Labels == old(s.Labels) && s.Timestamp == old(s.Timestamp)
      ensures ok ==>
                && model in RootList && RootList[model].Fifo() == []
                && forwarded == Select(Present, old(RootList[model].Fifo()) + outcome.samples)
                && forall s: Sample :: s in outcome.samples || s in old(RootList[model].L) ==>
                     s.Labels == Enrich(old(s.Labels), labels) && s.Timestamp == (if old(s.Timestamp) == ZERO_TIME then now else old(s.Timestamp))
      ensures forall i :: 0 <= i < |forwarded| ==> forwarded[i] != null && forwarded[i].Timestamp != ZERO_TIME
    {
      forwarded := [];
      ghost var ranWith;
      ok, ranWith := Gather(model, outcome);
      if !ok {
        return;
      }
      var list := RootList[model];
      ReverseMembers(old(RootList[model].L));
      ReverseMembers(list.L);
      forall s
        ensures s in list.L <==> s in old(RootList[model].L) || s in outcome.samples
      {
        assert s in list.L <==> s in list.Fifo();
      }
      var processed := Process(list, labels, now);
      ghost var stamped := processed.Fifo();
      assert allocated(stamped);
      forwarded := processed.PopBackAll();
      assert forwarded == stamped;
    }
  }
}
