/** What one cross-cluster cleanup and one watchdog tick do and do not guarantee. */
module Cleanup {
  import opened Wrappers
  import opened Kube
  import opened ChaosClient
  import opened Router
  import opened Watchdog
  import Argo
  import Queue

  /** `ref` in cluster `id` is a chaos object labelled `run` that client `c` is responsible for. */
  predicate Covers(c: Client, cs: Clusters, run: string, id: ClusterId, ref: Ref) {
    && ClusterOf(c) == Some(id)
    && ref in At(cs, id) && ref.ns == c.ns && ref.gvr in ChaosGvrs() && Matches(At(cs, id)[ref], RUN_ID, run)
  }

  /** The calls of client `c` that concern `ref` succeed. */
  predicate Serves(c: Client, w: Weather, ref: Ref) {
    DialError(c, w.dial).None? && w.list(ref.gvr).None? && w.del(ref).None?
  }

  predicate IsServed(cs: Clusters, clients: seq<Client>, ws: Weathers, run: string, id: ClusterId, ref: Ref) {
    exists i :: 0 <= i < |clients| && Covers(clients[i], cs, run, id, ref) && Serves(clients[i], ws(i), ref)
  }

  /** Exactly the objects that some client covers and can list and delete are removed; all others keep their
      contents. */
  lemma CleanupIsExact(cs: Clusters, clients: seq<Client>, ws: Weathers, run: string, id: ClusterId, ref: Ref)
    requires ref in At(cs, id)
    ensures ref !in At(Cleaned(cs, clients, ws, run), id) <==> IsServed(cs, clients, ws, run, id, ref)
    ensures ref in At(Cleaned(cs, clients, ws, run), id) ==>
        At(Cleaned(cs, clients, ws, run), id)[ref] == At(cs, id)[ref]
  {
    forall i | 0 <= i < |clients|
      ensures Takes(cs, clients[i], ws(i), run, id, ref)
          <==> Covers(clients[i], cs, run, id, ref) && Serves(clients[i], ws(i), ref)
    {
    }
  }

  /** After a cleanup without an error, what is left of the run is exactly what no client managed to list. */
  lemma WhatANilErrorMeans(cs: Clusters, clients: seq<Client>, ws: Weathers, run: string, errs: seq<Option<Error>>,
                           id: ClusterId, ref: Ref)
    requires AreCleanupErrors(errs, cs, clients, ws, run) && IsFirst(None, errs)
    requires ref in At(cs, id)
    ensures ref !in At(Cleaned(cs, clients, ws, run), id)
        <==> exists i :: 0 <= i < |clients| && Covers(clients[i], cs, run, id, ref) && ws(i).list(ref.gvr).None?
  {
    CleanupIsExact(cs, clients, ws, run, id, ref);
    forall i | 0 <= i < |clients| && Covers(clients[i], cs, run, id, ref) && ws(i).list(ref.gvr).None?
      ensures IsServed(cs, clients, ws, run, id, ref)
    {
      assert IsCleanupError(None, clients[i], ws(i), Cleaned(cs, clients[..i], ws, run), run);
      ListedIsServed(cs, clients, ws, run, i, id, ref);
    }
    if IsServed(cs, clients, ws, run, id, ref) {
      var i :| 0 <= i < |clients| && Covers(clients[i], cs, run, id, ref) && Serves(clients[i], ws(i), ref);
      assert ws(i).list(ref.gvr).None?;
    }
  }

  lemma ListedIsServed(cs: Clusters, clients: seq<Client>, ws: Weathers, run: string, i: nat, id: ClusterId, ref: Ref)
    requires i < |clients| && IsCleanupError(None, clients[i], ws(i), Cleaned(cs, clients[..i], ws, run), run)
    requires Covers(clients[i], cs, run, id, ref) && ws(i).list(ref.gvr).None?
    ensures IsServed(cs, clients, ws, run, id, ref)
  {
    var before := clients[..i];
    CleanupIsExact(cs, before, ws, run, id, ref);
    if ref in At(Cleaned(cs, before, ws, run), id) {
      NoErrorMeansDeleted(Cleaned(cs, before, ws, run), clients[i], ws(i), run, id, ref);
    } else {
      var j :| 0 <= j < |before| && Covers(before[j], cs, run, id, ref) && Serves(before[j], ws(j), ref);
      assert clients[j] == before[j];
    }
  }

  lemma NoErrorMeansDeleted(cs: Clusters, c: Client, w: Weather, run: string, id: ClusterId, ref: Ref)
    requires IsCleanupError(None, c, w, cs, run)
    requires Covers(c, cs, run, id, ref) && w.list(ref.gvr).None?
    ensures Serves(c, w, ref)
  {
    var refs: seq<Ref> :| IsListing(refs, ListedByRun(c, w, cs, run)) && IsFirst(None, Faults(refs, w));
    assert ref in ListedByRun(c, w, cs, run);
    var k :| 0 <= k < |refs| && refs[k] == ref;
    assert Faults(refs, w)[k].None?;
  }

  const POD_CHAOS := Gvr("chaos-mesh.org", "v1alpha1", "podchaos")
  const CALM := Weather(None, _ => None, _ => None)
  const MUTE := Weather(None, _ => Some("list"), _ => None)

  function Sample(run: string): Object {
    Object(map[RUN_ID := run, MANAGED_BY := CONTROLPLANE], Ours(run, ""))
  }

  lemma SampleLabels(run: string)
    ensures Matches(Sample(run), RUN_ID, run) && Matches(Sample(run), MANAGED_BY, CONTROLPLANE)
  {
    assert |RUN_ID| == 10 && |MANAGED_BY| == 14;
  }

  /** A cleanup can report success and leave chaos running: list errors are swallowed. */
  lemma NilErrorIsNotAllGone()
    returns (cs: Clusters, clients: seq<Client>, ws: Weathers, errs: seq<Option<Error>>, ref: Ref)
    ensures clients == [Local("l", "ns")] && AreCleanupErrors(errs, cs, clients, ws, "r") && IsFirst(None, errs)
    ensures Covers(clients[0], cs, "r", "l", ref) && ref in At(Cleaned(cs, clients, ws, "r"), "l")
  {
    ref := Ref(POD_CHAOS, "ns", "x");
    cs := map["l" := map[ref := Sample("r")]];
    clients, ws, errs := [Local("l", "ns")], _ => MUTE, [None];
    SampleLabels("r");
    assert ChaosGvrs()[1] == POD_CHAOS;
    assert ListedByRun(clients[0], MUTE, Cleaned(cs, clients[..0], ws, "r"), "r") == {};
    assert IsListing([], ListedByRun(clients[0], MUTE, Cleaned(cs, clients[..0], ws, "r"), "r"))
        && IsFirst(None, Faults([], MUTE));
    CleanupIsExact(cs, clients, ws, "r", "l", ref);
  }

  predicate Terminal(terminal: string -> bool, run: string) {
    run != "" && terminal(run)
  }

  /** Some client reports `ref` under the terminal run `run`, and a delete of it under that run succeeds. */
  ghost predicate IsReapedUnder(all: map<string, seq<Ref>>, terminal: string -> bool, del: Deletes, run: string,
                                ref: Ref) {
    run in all && terminal(run) && exists j :: 0 <= j < |all[run]| && all[run][j] == ref && del(run, j).None?
  }

  /** A tick changes the local cluster only. There it removes an object just when it is reported, from any cluster,
      under a terminal run and a delete for it succeeds. */
  lemma TickIsExact(cs: Clusters, local: ClusterId, clients: seq<Client>, ws: Weathers, all: map<string, seq<Ref>>,
                    terminal: string -> bool, del: Deletes, ref: Ref)
    requires IsManagedView(all, clients, ws, cs)
    ensures var end := Reap(cs, local, all, terminal, del);
      && (forall id :: id != local ==> At(end, id) == At(cs, id))
      && (ref in At(end, local) ==> ref in At(cs, local) && At(end, local)[ref] == At(cs, local)[ref])
      && (ref in At(cs, local) ==>
            (ref !in At(end, local) <==>
               exists i, run :: Reports(clients, ws, cs, run, ref, i) && IsReapedUnder(all, terminal, del, run, ref)))
  {
    var end := Reap(cs, local, all, terminal, del);
    if ref in At(cs, local) && ref !in At(end, local) {
      var run, j :|
        run in all && terminal(run) && 0 <= j < |all[run]| && del(run, j).None? && all[run][j] == ref;
      assert ref in all[run] && Reported(clients, ws, cs, run, ref);
      var i :| 0 <= i < |clients| && ref in ListedManaged(clients[i], ws(i), cs, run);
      assert Reports(clients, ws, cs, run, ref, i) && IsReapedUnder(all, terminal, del, run, ref);
    }
  }

  /** The `i`-th client reports `ref` as a managed object of `run`. */
  ghost predicate Reports(clients: seq<Client>, ws: Weathers, cs: Clusters, run: string, ref: Ref, i: int) {
    0 <= i < |clients| && ref in ListedManaged(clients[i], ws(i), cs, run)
  }

  /** The exact price of deleting in the local cluster what was listed in all of them: an object of a running run
      goes if and only if a client of another cluster reports a namesake under a terminal run and a delete under
      that run succeeds. */
  lemma RunningRunLosesIff(cs: Clusters, local: ClusterId, clients: seq<Client>, ws: Weathers,
                           all: map<string, seq<Ref>>,
                           terminal: string -> bool, del: Deletes, ref: Ref, run: string)
    requires IsManagedView(all, clients, ws, cs)
    requires ref in At(cs, local) && Matches(At(cs, local)[ref], RUN_ID, run) && !terminal(run)
    ensures ref !in At(Reap(cs, local, all, terminal, del), local)
        <==> exists i, done :: Reports(clients, ws, cs, done, ref, i) && ClusterOf(clients[i]) != Some(local)
                            && IsReapedUnder(all, terminal, del, done, ref)
  {
    TickIsExact(cs, local, clients, ws, all, terminal, del, ref);
    forall i, done | Reports(clients, ws, cs, done, ref, i) && terminal(done)
      ensures ClusterOf(clients[i]) != Some(local)
    {
      assert ClusterOf(clients[i]).Some? && Matches(At(cs, ClusterOf(clients[i]).value)[ref], RUN_ID, done);
    }
  }

  /** No call of the tick fails. */
  ghost predicate IsFlawless(clients: seq<Client>, ws: Weathers, all: map<string, seq<Ref>>, terminal: string -> bool,
                             del: Deletes) {
    && (forall i :: 0 <= i < |clients| ==> ws(i).dial.None?)
    && (forall i, gvr :: 0 <= i < |clients| ==> ws(i).list(gvr).None?)
    && (forall run, j :: run in all && terminal(run) && 0 <= j < |all[run]| ==> del(run, j).None?)
  }

  /** When no call fails, an object of a running run is safe if and only if no client of another cluster reports a
      namesake of it under a terminal run. */
  lemma RunningRunIsSafeIff(cs: Clusters, local: ClusterId, clients: seq<Client>, ws: Weathers,
                            all: map<string, seq<Ref>>,
                            terminal: string -> bool, del: Deletes, ref: Ref, run: string)
    requires IsManagedView(all, clients, ws, cs) && IsFlawless(clients, ws, all, terminal, del)
    requires ref in At(cs, local) && Matches(At(cs, local)[ref], RUN_ID, run) && !terminal(run)
    ensures ref in At(Reap(cs, local, all, terminal, del), local)
        <==> forall i, done :: Reports(clients, ws, cs, done, ref, i) && Terminal(terminal, done)
                            ==> ClusterOf(clients[i]) == Some(local)
  {
    RunningRunLosesIff(cs, local, clients, ws, all, terminal, del, ref, run);
    forall i, done | Reports(clients, ws, cs, done, ref, i) && Terminal(terminal, done)
      ensures IsReapedUnder(all, terminal, del, done, ref)
    {
      assert Reported(clients, ws, cs, done, ref);
      assert done in all && ref in all[done];
      var j :| 0 <= j < |all[done]| && all[done][j] == ref;
      assert del(done, j).None?;
    }
    forall i, done | Reports(clients, ws, cs, done, ref, i) && IsReapedUnder(all, terminal, del, done, ref)
      ensures Terminal(terminal, done)
    {
      assert ref in all[done];
    }
  }

  /** Some client of another cluster reports a namesake of `ref` under a run that `terminal` calls over. */
  ghost predicate HasTerminalNamesake(cs: Clusters, local: ClusterId, clients: seq<Client>, ws: Weathers,
                                      terminal: string -> bool, ref: Ref)
  {
    exists i, done :: Reports(clients, ws, cs, done, ref, i) && Terminal(terminal, done)
                   && ClusterOf(clients[i]) != Some(local)
  }

  /** With the checker in use and no failing call, an object reported in the local cluster goes if and only if the
      informer's cache does not know its run, or knows it as finished, or a terminal namesake is reported in another
      cluster. */
  lemma ReapedByCacheIff(cs: Clusters, local: ClusterId, clients: seq<Client>, ws: Weathers, all: map<string, seq<Ref>>,
                         cache: Argo.Cache, del: Deletes, ref: Ref, run: string, i: int)
    requires IsManagedView(all, clients, ws, cs) && IsFlawless(clients, ws, all, CheckerOf(cache), del)
    requires run != "" && Reports(clients, ws, cs, run, ref, i) && ClusterOf(clients[i]) == Some(local)
    ensures ref !in At(Reap(cs, local, all, CheckerOf(cache), del), local)
        <==> (run !in cache || IsOver(cache[run].phase) ||
              HasTerminalNamesake(cs, local, clients, ws, CheckerOf(cache), ref))
  {
    var terminal := CheckerOf(cache);
    if terminal(run) {
      assert Reported(clients, ws, cs, run, ref);
      assert run in all && ref in all[run];
      var j :| 0 <= j < |all[run]| && all[run][j] == ref;
      assert ref in Reaped(all, all.Keys, terminal, del);
    } else {
      RunningRunIsSafeIff(cs, local, clients, ws, all, terminal, del, ref, run);
    }
  }

  /** Argo's final phases. */
  predicate IsOver(phase: string) {
    phase in {"Succeeded", "Failed", "Error"}
  }

  /** A cache that is behind the API server may still show a run as unfinished, but not as finished too early. */
  predicate IsBehind(cache: Argo.Cache, server: Argo.Cache) {
    forall run :: run in cache && run in server && IsOver(cache[run].phase) ==> IsOver(server[run].phase)
  }

  /** Which unfinished runs lose local chaos to the checker in use: those the cache does not know, and those with a
      terminal namesake in another cluster. */
  lemma UnfinishedIsReapedIff(cs: Clusters, local: ClusterId, clients: seq<Client>, ws: Weathers,
                              all: map<string, seq<Ref>>,
                              cache: Argo.Cache, server: Argo.Cache, del: Deletes, ref: Ref, run: string, i: int)
    requires IsManagedView(all, clients, ws, cs) && IsFlawless(clients, ws, all, CheckerOf(cache), del)
    requires run != "" && Reports(clients, ws, cs, run, ref, i) && ClusterOf(clients[i]) == Some(local)
    requires IsBehind(cache, server) && run in server && !IsOver(server[run].phase)
    ensures ref !in At(Reap(cs, local, all, CheckerOf(cache), del), local)
        <==> (run !in cache || HasTerminalNamesake(cs, local, clients, ws, CheckerOf(cache), ref))
  {
    ReapedByCacheIff(cs, local, clients, ws, all, cache, del, ref, run, i);
  }

  /** A flawless tick reaps every terminal run it was shown if and only if no cluster but the local one held any of
      them. */
  lemma ReapsAllIffAllLocal(cs: Clusters, local: ClusterId, clients: seq<Client>, ws: Weathers,
                            all: map<string, seq<Ref>>,
                            terminal: string -> bool, del: Deletes)
    requires IsManagedView(all, clients, ws, cs) && IsFlawless(clients, ws, all, terminal, del)
    ensures ReapsAll(cs, local, clients, ws, all, terminal, del) <==> AllLocal(cs, local, clients, ws, terminal)
  {
    var end := Reap(cs, local, all, terminal, del);
    forall i, run, ref | Terminal(terminal, run) && Reports(clients, ws, cs, run, ref, i)
      ensures ref in At(end, ClusterOf(clients[i]).value) <==> ClusterOf(clients[i]) != Some(local)
    {
      assert Reported(clients, ws, cs, run, ref);
      assert run in all && ref in all[run];
      var j :| 0 <= j < |all[run]| && all[run][j] == ref;
      assert ref in Reaped(all, all.Keys, terminal, del);
    }
  }

  /** Every object reported under a terminal run is gone from the cluster it was reported in. */
  ghost predicate ReapsAll(cs: Clusters, local: ClusterId, clients: seq<Client>, ws: Weathers,
                           all: map<string, seq<Ref>>, terminal: string -> bool, del: Deletes)
  {
    forall i, run, ref | Terminal(terminal, run) && Reports(clients, ws, cs, run, ref, i) ::
      ref !in At(Reap(cs, local, all, terminal, del), ClusterOf(clients[i]).value)
  }

  ghost predicate AllLocal(cs: Clusters, local: ClusterId, clients: seq<Client>, ws: Weathers, terminal: string -> bool)
  {
    forall i, run, ref | Terminal(terminal, run) && Reports(clients, ws, cs, run, ref, i) ::
      ClusterOf(clients[i]) == Some(local)
  }

  /** The wrong victim: a finished run on a target makes the tick delete the running run's namesake and spare its
      own chaos. */
  lemma WrongVictim()
    returns (cs: Clusters, clients: seq<Client>, ws: Weathers, all: map<string, seq<Ref>>, terminal: string -> bool,
                               del: Deletes, ref: Ref)
    ensures IsManagedView(all, clients, ws, cs) && IsFlawless(clients, ws, all, terminal, del)
    ensures clients == [Local("l", "ns"), Remote(Some("t"), "ns", "target")]
    ensures ref in At(cs, "l") && Matches(At(cs, "l")[ref], RUN_ID, "live") && !terminal("live")
    ensures ref in ListedManaged(clients[1], ws(1), cs, "done") && terminal("done")
    ensures ref !in At(Reap(cs, "l", all, terminal, del), "l") && ref in At(Reap(cs, "l", all, terminal, del), "t")
  {
    ref := Ref(POD_CHAOS, "ns", "x");
    cs := map["l" := map[ref := Sample("live")], "t" := map[ref := Sample("done")]];
    clients, ws := [Local("l", "ns"), Remote(Some("t"), "ns", "target")], _ => CALM;
    all := map["live" := [ref], "done" := [ref]];
    terminal, del := run => run == "done", (_, _) => None;
    SampleLabels("live");
    SampleLabels("done");
    assert ChaosGvrs()[1] == POD_CHAOS;
    assert "l" != "t" by { assert "l"[0] != "t"[0]; }
    assert ListedManaged(clients[0], CALM, cs, "live") == {ref};
    assert ListedManaged(clients[1], CALM, cs, "done") == {ref};
    forall run, r ensures (run in all && r in all[run]) <==> (run != "" && Reported(clients, ws, cs, run, r)) {
      if run in all && r in all[run] {
        var i := if run == "live" then 0 else 1;
        assert r in ListedManaged(clients[i], ws(i), cs, run);
      }
    }
    assert all["done"][0] == ref && del("done", 0).None?;
    assert ref in Reaped(all, all.Keys, terminal, del);
  }
}
