/** pkg/worker/worker.go and internal/controller/monitor_controller.go: the objects that
    Reconcile changes, step by step. Their state is the state of the module Lifecycles,
    and Reconcile is proved to make exactly its transitions. */
module Monitors {
  import opened HandlerSettings
  import Factories
  import L = Lifecycles

  class Workers {
    var Tasks: map<string, nat>
    /** One entry per channel ever made: how often it was closed. */
    var closes: seq<nat>
    /** One entry per goroutine ever started by Run. */
    var loops: seq<L.Loop>

    ghost function View(settings: map<string, Settings>): L.State
      reads this
    {
      L.State(Tasks, closes, loops, settings)
    }

    ghost predicate Valid()
      reads this
    {
      L.Inv(View(map[]))
    }

    constructor ()
      ensures Tasks == map[] && closes == [] && loops == [] && Valid()
    {
      Tasks, closes, loops := map[], [], [];
    }

    method Exist(name: string) returns (ok: bool)
      ensures ok == (name in Tasks)
    {
      ok := name in Tasks;
    }

    /** Closing a channel that is closed already would panic. */
    method Close(ch: nat)
      requires ch < |closes| && closes[ch] == 0
      modifies this`closes
      ensures closes == old(closes)[ch := 1]
    {
      closes := closes[ch := closes[ch] + 1];
    }

    method AddWorkerTask(name: string)
      modifies this`Tasks, this`closes
      ensures name in old(Tasks) ==> Tasks == old(Tasks) && closes == old(closes)
      ensures name !in old(Tasks) ==> Tasks == old(Tasks)[name := |old(closes)|] && closes == old(closes) + [0]
    {
      if name !in Tasks {
        var stopCh := |closes|;
        closes := closes + [0];
        Tasks := Tasks[name := stopCh];
      }
    }

    method Run(name: string, job: L.Job) returns (ok: bool)
      modifies this`loops
      ensures ok == (name in Tasks)
      ensures loops == if ok then old(loops) + [L.Loop(name, job, Tasks[name], false)] else old(loops)
    {
      if name !in Tasks {
        return false;
      }
      loops := loops + [L.Loop(name, job, Tasks[name], false)];
      return true;
    }

    method Stop(name: string)
      requires Valid()
      modifies this`Tasks, this`closes
      ensures Valid() && View(map[]) == L.Stop(old(View(map[])), name)
    {
      if name !in Tasks {
        return;
      }
      Close(Tasks[name]);
      Tasks := Tasks - {name};
    }

    /** Tasks are visited in any order; each is closed and deleted during the visit. */
    method StopAll()
      requires Valid()
      modifies this`Tasks, this`closes
      ensures Valid() && View(map[]) == L.StopAll(old(View(map[])))
    {
      ghost var start := View(map[]);
      while Tasks != map[]
        invariant Tasks.Keys <= start.tasks.Keys && |closes| == |start.closes|
        invariant forall name :: name in Tasks ==> Tasks[name] == start.tasks[name]
        invariant forall ch :: 0 <= ch < |closes| ==>
                    closes[ch] == if start.loops[ch].name in Tasks && start.closes[ch] == 0 then 0 else 1
        decreases |Tasks.Keys|
      {
        assert Tasks.Keys != {};
        var name :| name in Tasks.Keys;
        Close(Tasks[name]);
        Tasks := Tasks - {name};
      }
      L.StopAllCloses(start, closes);
    }
  }

  /** What the API server answered. `outcome` is how the handler's Init would end. */
  datatype Answer = NotFound | Failed | Got(spec: L.Spec, outcome: Outcome)

  function AsEvent(name: string, answer: Answer): L.Event {
    match answer
    case NotFound => L.NotFound(name)
    case Failed => L.GetFailed(name)
    case Got(spec, outcome) => L.Found(name, spec, outcome)
  }

  class MonitorReconciler {
    const worker: Workers
    const factory: Factories.SharedHandlerFactory

    ghost function View(): L.State
      reads worker, factory, factory.supportModel.Values
    {
      worker.View(factory.AllSettings())
    }

    ghost predicate Valid()
      reads worker, factory
    {
      worker.Valid() && factory.Valid()
    }

    constructor (worker: Workers, factory: Factories.SharedHandlerFactory)
      ensures this.worker == worker && this.factory == factory
    {
      this.worker, this.factory := worker, factory;
    }

    /** InitConfig, as a transition: a model that is not known has no handler to change. */
    method InitModel(spec: L.Spec, outcome: Outcome) returns (ok: bool)
      requires Valid()
      modifies factory.supportModel.Values
      ensures Valid() && ok == (spec.job.model in factory.supportModel && outcome.Accepted?)
      ensures View() == if spec.job.model in factory.supportModel then L.InitModel(old(View()), spec, outcome) else old(View())
    {
      ok := factory.InitConfig(spec.job.model, spec.config, outcome);
    }

    /** Registers and starts a worker for a name that has none. */
    method StartTask(name: string, job: L.Job) returns (ok: bool)
      requires Valid() && name !in worker.Tasks
      modifies worker
      ensures ok && Valid()
      ensures View() == L.Start(old(View()), name, job)
    {
      worker.AddWorkerTask(name);
      ok := worker.Run(name, job);
    }

    /** Reconcile once the monitor was read. */
    method ReconcileFound(name: string, spec: L.Spec, outcome: Outcome) returns (ok: bool)
      requires Valid()
      modifies worker, factory.supportModel.Values
      ensures Valid() && factory.supportModel == old(factory.supportModel)
      ensures View() == L.ReconcileFound(factory.supportModel.Keys, old(View()), name, spec, outcome)
      ensures ok <==> name in old(worker.Tasks) || (spec.job.model in factory.supportModel && outcome.Accepted?)
    {
      ghost var before := View();
      var exist := worker.Exist(name);
      if exist {
        return true;
      }
      ok := InitModel(spec, outcome);
      ghost var initialized := View();
      if !ok {
        return;
      }
      ok := StartTask(name, spec.job);
      assert View() == L.Start(initialized, name, spec.job) && initialized == L.InitModel(before, spec, outcome);
    }

    /** `ok` is false where the source returns an error. A start after
        AddWorkerTask never fails. */
    method Reconcile(name: string, answer: Answer) returns (ok: bool)
      requires Valid()
      modifies worker, factory.supportModel.Values
      ensures Valid() && factory.supportModel == old(factory.supportModel)
      ensures View() == L.Apply(factory.supportModel.Keys, old(View()), AsEvent(name, answer))
      ensures ok <==> match answer
                      case NotFound => true
                      case Failed => false
                      case Got(spec, outcome) =>
                        name in old(worker.Tasks) || (spec.job.model in factory.supportModel && outcome.Accepted?)
    {
      match answer
      case NotFound =>
        worker.Stop(name);
        ok := true;
      case Failed =>
        ok := false;
      case Got(spec, outcome) =>
        ok := ReconcileFound(name, spec, outcome);
    }
  }
}
