/** Submitting, reprioritizing and cancelling runs against the workflow API. */
module Runs {
  import opened Wrappers
  import opened Argo
  import opened MergePatch
  import Priorities
  import Lister
  import Queue
  import Relisting
  import Sorting
  import ChaosClient
  import ChaosRouter = Router

  datatype RunError = BadRequest | NotFound | NotScenario | NotPending | Fault(message: string)

  /** The two patches the control plane sends. */
  datatype Change = Priority(p: Int32) | Shutdown

  function Body(c: Change): Json {
    if c.Priority? then PriorityPatch(c.p) else ShutdownPatch()
  }

  function Applied(w: Workflow, c: Change): Workflow {
    if c.Priority? then w.(priority := Some(c.p)) else w.(shutdown := Some("Terminate"))
  }

  class WorkflowApi {
    var workflows: map<string, Workflow>

    constructor ()
      ensures workflows == map[]
    {
      workflows := map[];
    }

    method Get(name: string, fault: Option<string>) returns (r: Result<Workflow, RunError>)
      ensures r == if fault.Some? then Failure(Fault(fault.value))
                   else if name in workflows then Success(workflows[name]) else Failure(NotFound)
    {
      if fault.Some? {
        return Failure(Fault(fault.value));
      }
      if name !in workflows {
        return Failure(NotFound);
      }
      return Success(workflows[name]);
    }

    method Create(w: Workflow, fault: Option<string>) returns (err: Option<RunError>)
      modifies this
      ensures err.None? <==> fault.None? && w.name !in old(workflows)
      ensures workflows == if err.None? then old(workflows)[w.name := w] else old(workflows)
    {
      if fault.Some? {
        return Some(Fault(fault.value));
      }
      if w.name in workflows {
        return Some(Fault("already exists"));
      }
      workflows := workflows[w.name := w];
      return None;
    }

    /** The server merges the patch into the stored document; nothing else of it is touched. */
    method Patch(name: string, c: Change, fault: Option<string>) returns (err: Option<RunError>)
      modifies this
      ensures err.None? <==> fault.None? && name in old(workflows)
      ensures err.Some? ==> workflows == old(workflows)
      ensures err.None? ==>
        && workflows == old(workflows)[name := Applied(old(workflows)[name], c)]
        && forall rest :: Document(workflows[name], rest) == Merge(Document(old(workflows)[name], rest), Body(c))
    {
      if fault.Some? {
        return Some(Fault(fault.value));
      }
      if name !in workflows {
        return Some(NotFound);
      }
      forall rest
        ensures Document(Applied(workflows[name], c), rest) == Merge(Document(workflows[name], rest), Body(c))
      {
        PatchesUpdateWorkflow(workflows[name], rest, if c.Priority? then c.p else 0);
      }
      workflows := workflows[name := Applied(workflows[name], c)];
      return None;
    }
  }

  datatype Request = Request(
    scenario: string, target: string, priority: Option<int>, parameters: map<string, string>, createdBy: string)

  /** The given parameters in the order of some walk, and always the target. */
  function Arguments(order: seq<string>, req: Request): seq<Parameter>
    requires forall i :: 0 <= i < |order| ==> order[i] in req.parameters
  {
    seq(|order|, i requires 0 <= i < |order| => Parameter(order[i], req.parameters[order[i]]))
    + [Parameter("target_id", req.target)]
  }

  /** The walk over the parameters. */
  method CollectArguments(req: Request) returns (arguments: seq<Parameter>, ghost order: seq<string>)
    ensures IsListing(order, req.parameters.Keys)
    ensures arguments == Arguments(order, req)
  {
    var left := req.parameters.Keys;
    arguments, order := [], [];
    while left != {}
      invariant left <= req.parameters.Keys
      invariant IsListing(order, req.parameters.Keys - left)
      invariant arguments + [Parameter("target_id", req.target)] == Arguments(order, req)
      decreases left
    {
      var k :| k in left;
      assert arguments == (arguments + [Parameter("target_id", req.target)])[..|order|];
      arguments, order := arguments + [Parameter(k, req.parameters[k])], order + [k];
      left := left - {k};
    }
    assert req.parameters.Keys - left == req.parameters.Keys;
    arguments := arguments + [Parameter("target_id", req.target)];
  }

  predicate IsGiven(p: Parameter, req: Request) {
    p.name in req.parameters && req.parameters[p.name] == p.value
  }

  /** The parameters of the request and the target, which comes last. */
  ghost predicate IsArguments(args: seq<Parameter>, req: Request) {
    && (forall p :: p in args <==> IsGiven(p, req) || p == Parameter("target_id", req.target))
    && args != [] && args[|args| - 1] == Parameter("target_id", req.target)
  }

  /** The workflow refers to the scenario's template, is labelled with scenario, run and target, names who asked for
      it, and has not started. */
  ghost predicate IsSubmission(w: Workflow, req: Request, runId: string) {
    && w.name == runId && w.template == Some(req.scenario)
    && w.labels.Keys == {"dlh.scenario", "dlh.run-id"} + (if req.target != "" then {"dlh.target"} else {})
    && w.labels["dlh.scenario"] == req.scenario && w.labels["dlh.run-id"] == runId
    && (req.target != "" ==> w.labels["dlh.target"] == req.target)
    && w.annotations == map["dlh.created-by" := req.createdBy]
    && w.shutdown.None? && w.phase == "" && w.finished.None? && w.semaphore.None?
  }

  lemma SubmittedIsSubmission(req: Request, d: Priorities.Details, p: Option<Int32>)
    requires d.target == req.target && d.createdBy == req.createdBy
    ensures IsSubmission(Priorities.Submitted(req.scenario, d, p), req, d.runId)
  {
    assert "dlh.scenario"[4] != "dlh.run-id"[4] && "dlh.scenario"[4] != "dlh.target"[4]
        && "dlh.run-id"[4] != "dlh.target"[4];
  }

  /** Whatever the order of the walk, the workflow gets each parameter of the request, and as its last one the
      target. */
  lemma ArgumentsAreExact(order: seq<string>, req: Request, p: Parameter)
    requires IsListing(order, req.parameters.Keys)
    ensures p in Arguments(order, req)
        <==> (p.name in req.parameters && req.parameters[p.name] == p.value) || p == Parameter("target_id", req.target)
    ensures Arguments(order, req)[|Arguments(order, req)| - 1] == Parameter("target_id", req.target)
  {
    var args := Arguments(order, req);
    if p.name in req.parameters && req.parameters[p.name] == p.value {
      var i :| 0 <= i < |order| && order[i] == p.name;
      assert args[i] == p;
    }
    assert args[|order|] == Parameter("target_id", req.target);
  }

  class Submitter {
    const api: WorkflowApi
    const defaults: Priorities.Store?

    constructor (api: WorkflowApi, defaults: Priorities.Store?)
      ensures this.api == api && this.defaults == defaults
    {
      this.api, this.defaults := api, defaults;
    }

    /** `fault` is what a read of the default priorities runs into. */
    function Resolved(req: Request, t: Priorities.Template, fault: Option<string>): Option<Int32>
      reads defaults
    {
      var default := if defaults == null then Success(None)
                     else if fault.Some? then Failure(fault.value)
                     else Priorities.DefaultOf(defaults.data, req.scenario);
      Priorities.ResolvePriority(req.priority, default, t.priority)
    }

    /** The stored default of the scenario, if there is a store, it can be read and it has one. */
    function StoredDefault(scenario: string, fault: Option<string>): Option<int>
      reads defaults
    {
      if defaults != null && fault.None? && scenario in Priorities.OverridesOf(defaults.data)
      then Some(Priorities.OverridesOf(defaults.data)[scenario])
      else None
    }

    method ResolvePriority(req: Request, t: Priorities.Template, fault: Option<string>) returns (p: Option<Int32>)
      ensures p == Resolved(req, t, fault)
      ensures req.priority.Some? ==> p == Some(Wrap32(req.priority.value))
      ensures req.priority.None? && StoredDefault(req.scenario, fault).Some? ==>
                p == Some(Wrap32(StoredDefault(req.scenario, fault).value))
      ensures req.priority.None? && StoredDefault(req.scenario, fault).None? ==> p == t.priority
    {
      if req.priority.Some? {
        return Some(Wrap32(req.priority.value));
      }
      if defaults != null {
        var d := defaults.Get(req.scenario, fault);
        if d.Success? && d.value.Some? {
          return Some(Wrap32(d.value.value));
        }
      }
      return t.priority;
    }

    /** `lookup` answers the template lookup, `stamp` is the formatted time and `created` the server's clock. */
    method Submit(req: Request, lookup: Result<Priorities.Template, RunError>, stamp: string, created: int,
                  readFault: Option<string>, createFault: Option<string>)
      returns (r: Result<string, RunError>, ghost order: seq<string>)
      modifies api
      ensures r.Success? <==>
        && req.scenario != "" && lookup.Success?
        && "dlh.category" in lookup.value.labels && lookup.value.labels["dlh.category"] == "scenario"
        && createFault.None? && req.scenario + "-" + stamp !in old(api.workflows)
      ensures r.Failure? ==> api.workflows == old(api.workflows)
      ensures req.scenario != "" && lookup.Success? && !Priorities.IsScenario(lookup.value) ==>
          r == Failure(NotScenario)
      ensures r.Success? ==>
        && r.value == req.scenario + "-" + stamp
        && IsListing(order, req.parameters.Keys)
        && var d := Priorities.Details(r.value, req.target, req.createdBy, Arguments(order, req), created);
           api.workflows
           == old(api.workflows)[
                r.value := Priorities.Submitted(req.scenario, d, Resolved(req, lookup.value, readFault))]
      ensures r.Success? ==>
        && r.value in api.workflows && IsSubmission(api.workflows[r.value], req, r.value)
        && IsArguments(api.workflows[r.value].arguments, req) && api.workflows[r.value].created == created
        && var p := api.workflows[r.value].priority;
           if req.priority.Some? then p == Some(Wrap32(req.priority.value))
           else if StoredDefault(req.scenario, readFault).Some?
           then p == Some(Wrap32(StoredDefault(req.scenario, readFault).value))
           else p == lookup.value.priority
    {
      order := [];
      if req.scenario == "" {
        return Failure(BadRequest), order;
      }
      if lookup.Failure? {
        return Failure(lookup.error), order;
      }
      if !Priorities.IsScenario(lookup.value) {
        return Failure(NotScenario), order;
      }
      var runId := req.scenario + "-" + stamp;
      var arguments;
      arguments, order := CollectArguments(req);
      var priority := ResolvePriority(req, lookup.value, readFault);
      var d := Priorities.Details(runId, req.target, req.createdBy, arguments, created);
      assert IsArguments(arguments, req) by {
        forall p ensures p in arguments <==> IsGiven(p, req) || p == Parameter("target_id", req.target) {
          ArgumentsAreExact(order, req, p);
        }
        ArgumentsAreExact(order, req, Parameter("target_id", req.target));
      }
      var err := api.Create(Priorities.Submitted(req.scenario, d, priority), createFault);
      if err.Some? {
        return Failure(err.value), order;
      }
      SubmittedIsSubmission(req, d, priority);
      return Success(runId), order;
    }

    /** Only a pending run is changed, and only in its priority. */
    method Reprioritize(runId: string, priority: int, getFault: Option<string>, patchFault: Option<string>)
      returns (err: Option<RunError>)
      modifies api
      ensures err.None?
          <==> (getFault.None? && patchFault.None? && runId in old(api.workflows) &&
                old(api.workflows)[runId].phase in {"", "Pending"})
      ensures getFault.None? && runId in old(api.workflows) && old(api.workflows)[runId].phase !in {"", "Pending"} ==>
          err == Some(NotPending)
      ensures err.Some? ==> api.workflows == old(api.workflows)
      ensures err.None? ==>
          api.workflows == old(api.workflows)[runId := old(api.workflows)[runId].(priority := Some(Wrap32(priority)))]
    {
      var w := api.Get(runId, getFault);
      if w.Failure? {
        return Some(w.error);
      }
      if w.value.phase != "Pending" && w.value.phase != "" {
        return Some(NotPending);
      }
      err := api.Patch(runId, Priority(Wrap32(priority)), patchFault);
    }
  }

  /** The queue page: a fresh list of everything cached, sorted into lanes. `listFault` is what the list call runs
      into. */
  method GetQueue(cache: Cache, keys: Result<seq<Queue.LockKey>, string>, listFault: Option<string>)
    returns (r: Result<seq<Queue.Lane>, string>, ghost wfs: seq<Workflow>)
    requires IsKeyed(cache)
    ensures r.Success? <==> keys.Success? && listFault.None?
    ensures r.Success? ==>
      && Lister.IsView(wfs, cache)
      && r.value == Sorting.Map(k => Queue.LaneOf(Relisting.Wrapped(wfs), k), keys.value)
      && Queue.AreOrderedLanes(r.value, keys.value)
  {
    wfs := [];
    if keys.Failure? {
      return Failure(keys.error), wfs;
    }
    if listFault.Some? {
      return Failure(listFault.value), wfs;
    }
    var page := Lister.List(cache, Lister.EVERYTHING);
    var lanes := Queue.BuildLanes(Relisting.Wrapped(page), keys.value);
    return Success(lanes), page;
  }

  /** Reprioritizing a run within 32 bits and building the queue anew, each time from its own list of the cache,
      moves that one entry in a lane, if and only if no two holders of the lane are of one age and no two other
      waiters tie. */
  lemma ReprioritizeThenRebuild(before: Cache, runId: string, p: int, k: Queue.LockKey)
    requires IsKeyed(before) && runId in before && Priorities.IsInt32(p)
    ensures var after, w := before[runId := before[runId].(priority := Some(Wrap32(p)))], before[runId];
      (forall a, b :: Lister.IsView(a, before) && Lister.IsView(b, after) ==>
         Queue.IsMoveOfOne(Queue.LaneOf(Relisting.Wrapped(a), k), Queue.LaneOf(Relisting.Wrapped(b), k), w, p,
                           Queue.Waits(Some(w), k.key)))
      <==>
      (Relisting.AreHoldersApart(before, k.key) && Relisting.AreWaitersApart(before, k.key, Some(runId)))
  {
    Queue.ContendersHoldOrWait(Some(before[runId]), k.key);
    Relisting.MovesOneIffApart(before, runId, p, k);
  }

  /** Cancelling: chaos of the run is cleaned up as well as it can be, then the workflow is told to stop. `cached`
      tells whether the informer's cache knows the run; without a chaos router nothing is cleaned. */
  method CancelRun(router: ChaosRouter.Router?, api: WorkflowApi, cached: bool, runId: string, ws: ChaosRouter.Weathers,
                   patchFault: Option<string>)
    returns (err: Option<RunError>, ghost clients: seq<ChaosClient.Client>)
    modifies if router == null then {} else {router.cloud}, api
    ensures !cached ==>
      && err == Some(NotFound) && api.workflows == old(api.workflows)
      && (router != null ==> router.cloud.clusters == old(router.cloud.clusters))
    ensures cached && router != null ==>
      && ChaosRouter.IsFanOut(clients, router.local, router.Loaded())
      && router.cloud.clusters == ChaosRouter.Cleaned(old(router.cloud.clusters), clients, ws, runId)
    ensures cached ==>
      && (err.None? <==> patchFault.None? && runId in old(api.workflows))
      && api.workflows == if err.None?
                          then old(api.workflows)[runId := old(api.workflows)[runId].(shutdown := Some("Terminate"))]
                          else old(api.workflows)
  {
    clients := [];
    if !cached {
      return Some(NotFound), [];
    }
    if router != null {
      var ignored;
      ghost var errs;
      ignored, clients, errs := router.DeleteByRun(runId, ws);
    }
    err := api.Patch(runId, Shutdown, patchFault);
  }
}
