/** Whole runs of the chaos subsystem: creates, deletes, cleanups, ticks, registry refreshes and outside
    interference. */
module Lifecycle {
  import opened Wrappers
  import opened Kube
  import opened ChaosClient
  import opened Targets
  import opened Router
  import opened Watchdog

  datatype Sys = Sys(clusters: Clusters, loaded: Option<map<string, LoadedTarget>>)

  datatype Action =
    | CreateFor(run: string, targetId: string, res: Resource, dial: Option<Error>, answer: Result<string, Error>)
    | DeleteFor(targetId: string, ref: Ref, w: Weather)
    | CleanRun(run: string, clients: seq<Client>, ws: Weathers)
    | Tick(clients: seq<Client>, ws: Weathers, all: map<string, seq<Ref>>, terminal: string -> bool, del: Deletes)
    | Retarget(loaded: map<string, LoadedTarget>)
    | Meddle(id: ClusterId, objs: Objects)

  ghost predicate Step(local: LocalClient, s: Sys, a: Action, s': Sys)
  {
    match a
    case CreateFor(run, targetId, res, dial, answer) =>
      s' == s.(clusters := Created(s.clusters, local, s.loaded, run, targetId, res, dial, answer))
    case DeleteFor(targetId, ref, w) =>
      s' == s.(clusters := Deleted(s.clusters, local, s.loaded, targetId, ref, w))
    case CleanRun(run, clients, ws) =>
      IsFanOut(clients, local, s.loaded) && s' == s.(clusters := Cleaned(s.clusters, clients, ws, run))
    case Tick(clients, ws, all, terminal, del) =>
      && IsFanOut(clients, local, s.loaded) && IsManagedView(all, clients, ws, s.clusters)
      && s' == s.(clusters := Reap(s.clusters, local.cluster, all, terminal, del))
    case Retarget(loaded) =>
      s.loaded.Some? && IsRegister(loaded) && s' == s.(loaded := Some(loaded))
    case Meddle(id, objs) =>
      // Anyone may add or remove objects, but not alter ours or pass theirs off as ours.
      && s' == s.(clusters := s.clusters[id := objs])
      && forall ref :: ref in objs && objs[ref].origin.Ours? ==>
        ref in At(s.clusters, id) && At(s.clusters, id)[ref] == objs[ref]
  }

  ghost predicate Init(s: Sys) {
    && (forall id, ref :: ref in At(s.clusters, id) ==> At(s.clusters, id)[ref].origin.Foreign?)
    && (s.loaded.Some? ==> IsRegister(s.loaded.value))
  }

  ghost predicate IsRun(local: LocalClient, states: seq<Sys>, actions: seq<Action>)
  {
    && |states| == |actions| + 1
    && Init(states[0])
    && forall i :: 0 <= i < |actions| ==> Step(local, states[i], actions[i], states[i + 1])
  }

  /** What stays true of an object this control plane made in cluster `id`. */
  predicate IsTagged(local: LocalClient, id: ClusterId, ref: Ref, o: Object)
  {
    o.origin.Ours? ==>
      && Matches(o, RUN_ID, o.origin.runId) && Matches(o, MANAGED_BY, CONTROLPLANE)
      && ref.gvr in ChaosGvrs()
      && (o.origin.targetId == "" ==> id == local.cluster && ref.ns == local.ns)
  }

  ghost predicate Inv(local: LocalClient, s: Sys)
  {
    && (forall id, ref :: ref in At(s.clusters, id) ==> IsTagged(local, id, ref, At(s.clusters, id)[ref]))
    && (s.loaded.Some? ==> IsRegister(s.loaded.value))
  }

  lemma StepKeepsInv(local: LocalClient, s: Sys, a: Action, s': Sys)
    requires Inv(local, s) && Step(local, s, a, s')
    ensures Inv(local, s')
  {
    forall id, ref | ref in At(s'.clusters, id) ensures IsTagged(local, id, ref, At(s'.clusters, id)[ref]) {
      if ref in At(s.clusters, id) && At(s.clusters, id)[ref] == At(s'.clusters, id)[ref] {
        assert IsTagged(local, id, ref, At(s.clusters, id)[ref]);
      } else {
        OnlyCreateMakes(local, s, a, s', id, ref);
      }
    }
  }

  /** An object that was not there before the step is outside work or the result of a create. */
  lemma OnlyCreateMakes(local: LocalClient, s: Sys, a: Action, s': Sys, id: ClusterId, ref: Ref)
    requires Step(local, s, a, s')
    requires ref in At(s'.clusters, id)
        && !(ref in At(s.clusters, id) && At(s.clusters, id)[ref] == At(s'.clusters, id)[ref])
    ensures At(s'.clusters, id)[ref].origin.Ours? ==> IsMaker(local, s, a, id, ref, At(s'.clusters, id)[ref])
  {
  }

  /** `a` is the create whose success put `o` at `ref` of cluster `id`. */
  ghost predicate IsMaker(local: LocalClient, s: Sys, a: Action, id: ClusterId, ref: Ref, o: Object) {
    && a.CreateFor?
    && IsCreatable(s.clusters, local, s.loaded, a.targetId, a.res, a.dial, a.answer)
    && var c := PickOf(local, s.loaded, a.targetId).value;
    && ClusterOf(c) == Some(id) && ref == NewRef(c, a.res, a.answer) && o == StampedBy(c, a.run, a.res)
  }

  lemma {:induction false} RunKeepsInv(local: LocalClient, states: seq<Sys>, actions: seq<Action>, n: nat)
    requires IsRun(local, states, actions) && n < |states|
    ensures Inv(local, states[n])
  {
    if n > 0 {
      RunKeepsInv(local, states, actions, n - 1);
      StepKeepsInv(local, states[n - 1], actions[n - 1], states[n]);
    }
  }

  lemma MadeJustNow(local: LocalClient, states: seq<Sys>, actions: seq<Action>, k: nat, id: ClusterId, ref: Ref)
    requires IsRun(local, states, actions) && k < |actions|
    requires var s, s' := states[k], states[k + 1];
      ref in At(s'.clusters, id) && At(s'.clusters, id)[ref].origin.Ours?
      && !(ref in At(s.clusters, id) && At(s.clusters, id)[ref] == At(s'.clusters, id)[ref])
    ensures IsMaker(local, states[k], actions[k], id, ref, At(states[k + 1].clusters, id)[ref])
  {
    OnlyCreateMakes(local, states[k], actions[k], states[k + 1], id, ref);
  }

  /** Every live object of ours goes back to one create, and has not been touched since. */
  lemma {:induction false} Provenance(local: LocalClient, states: seq<Sys>, actions: seq<Action>, n: nat, id: ClusterId,
                                      ref: Ref)
    returns (k: nat)
    requires IsRun(local, states, actions) && n < |states|
    requires ref in At(states[n].clusters, id) && At(states[n].clusters, id)[ref].origin.Ours?
    ensures k < n && IsMaker(local, states[k], actions[k], id, ref, At(states[n].clusters, id)[ref])
    ensures forall m :: k < m <= n ==>
        ref in At(states[m].clusters, id) && At(states[m].clusters, id)[ref] == At(states[n].clusters, id)[ref]
  {
    assert n > 0;
    var s := states[n - 1];
    if ref in At(s.clusters, id) && At(s.clusters, id)[ref] == At(states[n].clusters, id)[ref] {
      k := Provenance(local, states, actions, n - 1, id, ref);
    } else {
      MadeJustNow(local, states, actions, n - 1, id, ref);
      k := n - 1;
    }
  }

  /** The client through which an object made for `targetId` in cluster `id` can still be seen. */
  predicate StillServed(local: LocalClient, loaded: Option<map<string, LoadedTarget>>, id: ClusterId, ns: string,
                        targetId: string)
  {
    var c := PickOf(local, loaded, targetId);
    c.Some? && ClusterOf(c.value) == Some(id) && c.value.ns == ns
  }

  /** Nothing created is lost: whatever labels the body brought, every live object of ours carries its run id and the
      managed-by label, comes from a create for that run, and is found again by both list operations of the router. */
  lemma NothingCreatedIsLost(local: LocalClient, states: seq<Sys>, actions: seq<Action>, n: nat, id: ClusterId,
                             ref: Ref)
    requires IsRun(local, states, actions) && n < |states|
    requires ref in At(states[n].clusters, id) && At(states[n].clusters, id)[ref].origin.Ours?
    ensures var s, o := states[n], At(states[n].clusters, id)[ref];
      && Matches(o, RUN_ID, o.origin.runId) && Matches(o, MANAGED_BY, CONTROLPLANE)
      && (exists k | 0 <= k < n ::
            IsMaker(local, states[k], actions[k], id, ref, o) && actions[k].run == o.origin.runId)
      && (StillServed(local, s.loaded, id, ref.ns, o.origin.targetId) ==>
            forall clients, ws: Weathers, i ::
              IsFanOut(clients, local, s.loaded) &&
              Answers(clients, ws, i, PickOf(local, s.loaded, o.origin.targetId), ref.gvr) ==>
                IsFound(clients, ws, s.clusters, o.origin.runId, ref))
  {
    var s, o := states[n], At(states[n].clusters, id)[ref];
    RunKeepsInv(local, states, actions, n);
    assert IsTagged(local, id, ref, o);
    var k := Provenance(local, states, actions, n, id, ref);
    assert actions[k].run == o.origin.runId;
    if StillServed(local, s.loaded, id, ref.ns, o.origin.targetId) {
      var c := PickOf(local, s.loaded, o.origin.targetId);
      forall clients, ws: Weathers, i | IsFanOut(clients, local, s.loaded) && Answers(clients, ws, i, c, ref.gvr)
        ensures IsFound(clients, ws, s.clusters, o.origin.runId, ref)
      {
        ListedIsFound(clients, ws, s.clusters, o.origin.runId, ref, i);
      }
    }
  }

  /** `ref` is in whatever the router's `ListByRun` returns for `run`, and under `run` in whatever its `ListManaged`
      returns. */
  ghost predicate IsFound(clients: seq<Client>, ws: Weathers, cs: Clusters, run: string, ref: Ref) {
    && (forall parts :: AreListings(parts, clients, ws, cs, run) ==> ref in Flat(parts))
    && (run != "" ==> forall all :: IsManagedView(all, clients, ws, cs) ==> run in all && ref in all[run])
  }

  lemma ListedIsFound(clients: seq<Client>, ws: Weathers, cs: Clusters, run: string, ref: Ref, i: nat)
    requires i < |clients| && ref in ListedByRun(clients[i], ws(i), cs, run)
        && ref in ListedManaged(clients[i], ws(i), cs, run)
    ensures IsFound(clients, ws, cs, run, ref)
  {
    assert Reported(clients, ws, cs, run, ref);
    forall parts | AreListings(parts, clients, ws, cs, run) ensures ref in Flat(parts) {
      FlatIsListed(parts, clients, ws, cs, run, ref);
    }
  }

  /** The `i`-th client is `c`, can be reached, and its list of this kind succeeds; the others may do as they like. */
  predicate Answers(clients: seq<Client>, ws: Weathers, i: int, c: Option<Client>, gvr: Gvr) {
    0 <= i < |clients| && c == Some(clients[i]) && DialError(clients[i], ws(i).dial).None? && ws(i).list(gvr).None?
  }

  /** The client an object of ours was made for takes part in every fan-out while its target leads to its cluster. */
  lemma ServerTakesPart(local: LocalClient, loaded: Option<map<string, LoadedTarget>>, id: ClusterId, ns: string,
                        targetId: string, clients: seq<Client>)
    requires StillServed(local, loaded, id, ns, targetId) && IsFanOut(clients, local, loaded)
    ensures exists i :: 0 <= i < |clients| && PickOf(local, loaded, targetId) == Some(clients[i])
  {
    var c := PickOf(local, loaded, targetId).value;
    FanOutMember(clients, local, loaded, c);
    var i :| 0 <= i < |clients| && clients[i] == c;
  }

  /** The managed objects of `run` the local client is responsible for. */
  function LocalManaged(local: LocalClient, s: Sys, run: string): set<Ref>
  {
    var objs := At(s.clusters, local.cluster);
    set ref | ref in objs && ref.ns == local.ns && ref.gvr in ChaosGvrs()
              && Matches(objs[ref], MANAGED_BY, CONTROLPLANE) && Matches(objs[ref], RUN_ID, run)
  }

  /** Nothing is made for `run` by this step, neither by a create nor from outside. */
  ghost predicate IsQuiet(local: LocalClient, s: Sys, a: Action, s': Sys, run: string)
  {
    && (a.CreateFor? ==> a.run != run)
    && (a.Meddle? ==> LocalManaged(local, s', run) <= LocalManaged(local, s, run))
  }

  lemma QuietStepShrinks(local: LocalClient, s: Sys, a: Action, s': Sys, run: string)
    requires Step(local, s, a, s') && IsQuiet(local, s, a, s', run)
    ensures LocalManaged(local, s', run) <= LocalManaged(local, s, run)
  {
    if !a.Meddle? {
      forall ref | ref in LocalManaged(local, s', run) ensures ref in LocalManaged(local, s, run) {
        if a.CreateFor? && s' != s && ref !in At(s.clusters, local.cluster) {
          assert At(s'.clusters, local.cluster)[ref].labels[RUN_ID] == a.run;
        }
      }
    }
  }

  /** Removing objects from the local cluster takes exactly those of them that belong to the run off its count. */
  lemma CountAfterRemoval(local: LocalClient, s: Sys, doomed: set<Ref>, run: string)
    ensures var s' := s.(clusters := Without(s.clusters, local.cluster, doomed));
      && LocalManaged(local, s', run) == LocalManaged(local, s, run) - doomed
      && |LocalManaged(local, s', run)| == |LocalManaged(local, s, run)| - |LocalManaged(local, s, run) * doomed|
  {
    var s' := s.(clusters := Without(s.clusters, local.cluster, doomed));
    assert LocalManaged(local, s', run) == LocalManaged(local, s, run) - doomed;
    assert LocalManaged(local, s, run)
        == (LocalManaged(local, s, run) - doomed) + (LocalManaged(local, s, run) * doomed);
  }

  /** A successful delete of one of the run's local objects, through any client that leads to the local cluster,
      drops the count by one. */
  lemma DeleteDropsCount(local: LocalClient, s: Sys, a: Action, s': Sys, run: string)
    requires Step(local, s, a, s') && a.DeleteFor? && a.ref in LocalManaged(local, s, run)
    requires IsDeletable(local, s.loaded, a.targetId, a.ref, a.w)
        && ClusterOf(PickOf(local, s.loaded, a.targetId).value) == Some(local.cluster)
    ensures |LocalManaged(local, s', run)| == |LocalManaged(local, s, run)| - 1
  {
    CountAfterRemoval(local, s, {a.ref}, run);
    assert LocalManaged(local, s, run) * {a.ref} == {a.ref};
  }

  /** A tick that sees `run` as terminal, and in which no local list and no delete for `run` fails. */
  ghost predicate IsClearingTick(a: Action, run: string) {
    && a.Tick? && a.terminal(run)
    && (forall gvr :: a.ws(0).list(gvr).None?)
    && (forall j :: a.del(run, j).None?)
  }

  lemma ClearingTickClears(local: LocalClient, s: Sys, a: Action, s': Sys, run: string)
    requires run != "" && Step(local, s, a, s') && IsClearingTick(a, run)
    ensures LocalManaged(local, s', run) == {}
  {
    FanOutMember(a.clients, local, s.loaded, local);
    forall ref | ref in LocalManaged(local, s, run) ensures ref in Reaped(a.all, a.all.Keys, a.terminal, a.del) {
      assert ref in ListedManaged(a.clients[0], a.ws(0), s.clusters, run);
      assert Reported(a.clients, a.ws, s.clusters, run, ref);
      assert run in a.all && ref in a.all[run];
      var j :| 0 <= j < |a.all[run]| && a.all[run][j] == ref;
      assert a.del(run, j).None?;
    }
    CountAfterRemoval(local, s, Reaped(a.all, a.all.Keys, a.terminal, a.del), run);
  }

  lemma SubsetCount<T>(a: set<T>, b: set<T>)
    requires a <= b
    ensures |a| <= |b|
  {
    assert b == a + (b - a);
  }

  ghost predicate StaysQuiet(local: LocalClient, states: seq<Sys>, actions: seq<Action>, from: nat, run: string)
    requires |states| == |actions| + 1
  {
    forall i :: from <= i < |actions| ==> IsQuiet(local, states[i], actions[i], states[i + 1], run)
  }

  lemma {:induction false} QuietRunShrinks(local: LocalClient, states: seq<Sys>, actions: seq<Action>, run: string,
                                           i: nat, j: nat)
    requires IsRun(local, states, actions) && i <= j < |states| && StaysQuiet(local, states, actions, i, run)
    ensures LocalManaged(local, states[j], run) <= LocalManaged(local, states[i], run)
    decreases j - i
  {
    if i < j {
      QuietRunShrinks(local, states, actions, run, i, j - 1);
      assert Step(local, states[j - 1], actions[j - 1], states[j - 1 + 1]);
      QuietStepShrinks(local, states[j - 1], actions[j - 1], states[j], run);
    }
  }

  /** Convergence: once nothing more is made for a run, its local count never grows, and from the first clearing
      tick on it is zero for good, whatever the registry, the other runs and the failures of the other clusters do.
      */
  lemma WatchdogConverges(local: LocalClient, states: seq<Sys>, actions: seq<Action>, from: nat, run: string)
    requires run != "" && IsRun(local, states, actions) && StaysQuiet(local, states, actions, from, run)
    ensures forall i, j :: from <= i <= j < |states| ==>
        |LocalManaged(local, states[j], run)| <= |LocalManaged(local, states[i], run)|
    ensures forall k, j :: from <= k < j < |states| && IsClearingTick(actions[k], run) ==>
        LocalManaged(local, states[j], run) == {}
  {
    forall i, j | from <= i <= j < |states|
      ensures |LocalManaged(local, states[j], run)| <= |LocalManaged(local, states[i], run)|
    {
      QuietRunShrinks(local, states, actions, run, i, j);
      SubsetCount(LocalManaged(local, states[j], run), LocalManaged(local, states[i], run));
    }
    forall k, j | from <= k < j < |states| && IsClearingTick(actions[k], run)
      ensures LocalManaged(local, states[j], run) == {}
    {
      assert Step(local, states[k], actions[k], states[k + 1]);
      ClearingTickClears(local, states[k], actions[k], states[k + 1], run);
      QuietRunShrinks(local, states, actions, run, k + 1, j);
    }
  }

  /** The gap in the reaper: no number of ticks removes anything from a cluster other than the local one. */
  lemma {:induction false} TicksNeverReapRemotes(local: LocalClient, states: seq<Sys>, actions: seq<Action>, i: nat,
                                                 j: nat, id: ClusterId)
    requires IsRun(local, states, actions) && i <= j < |states| && id != local.cluster
    requires forall k :: i <= k < j ==> actions[k].Tick? || actions[k].Retarget?
    ensures At(states[j].clusters, id) == At(states[i].clusters, id)
    decreases j - i
  {
    if i < j {
      TicksNeverReapRemotes(local, states, actions, i, j - 1, id);
      assert Step(local, states[j - 1], actions[j - 1], states[j - 1 + 1]);
    }
  }
}
