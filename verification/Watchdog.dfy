/** The reaper of chaos left behind by finished runs. */
module Watchdog {
  import opened Wrappers
  import opened Kube
  import opened ChaosClient
  import opened Router
  import Argo
  import Queue

  /** The checker in use: a run is over when the informer's cache does not know it, or knows it as finished. */
  function CheckerOf(cache: Argo.Cache): string -> bool {
    run => run !in cache || Queue.IsTerminal(cache[run].phase)
  }

  /** What the environment answers to the delete of the n-th object listed under a run. */
  type Deletes = (string, nat) -> Option<Error>

  /** The objects a tick over `all` deletes under the runs in `runs`. */
  function Reaped(all: map<string, seq<Ref>>, runs: set<string>, terminal: string -> bool, del: Deletes): set<Ref> {
    set run, j | run in runs && run in all && terminal(run) && 0 <= j < |all[run]| && del(run, j).None? :: all[run][j]
  }

  function Reap(cs: Clusters, local: ClusterId, all: map<string, seq<Ref>>, terminal: string -> bool,
                del: Deletes): Clusters {
    Without(cs, local, Reaped(all, all.Keys, terminal, del))
  }

  function ReapedUnder(refs: seq<Ref>, run: string, del: Deletes): set<Ref> {
    set j | 0 <= j < |refs| && del(run, j).None? :: refs[j]
  }

  lemma ReapedStep(all: map<string, seq<Ref>>, runs: set<string>, run: string, terminal: string -> bool, del: Deletes)
    requires run in all && run !in runs
    ensures Reaped(all, runs + {run}, terminal, del)
         == Reaped(all, runs, terminal, del) + if terminal(run) then ReapedUnder(all[run], run, del) else {}
  {
    var more := Reaped(all, runs + {run}, terminal, del);
    forall ref | ref in Reaped(all, runs, terminal, del) ensures ref in more {
      var r, j :| r in runs && r in all && terminal(r) && 0 <= j < |all[r]| && del(r, j).None? && all[r][j] == ref;
      assert r in runs + {run};
    }
    if terminal(run) {
      forall ref | ref in ReapedUnder(all[run], run, del) ensures ref in more {
        var j :| 0 <= j < |all[run]| && del(run, j).None? && all[run][j] == ref;
        assert run in runs + {run};
      }
    }
  }

  class Watchdog {
    const chaos: Router

    constructor (chaos: Router)
      ensures this.chaos == chaos
    {
      this.chaos := chaos;
    }

    /** The view is taken over every cluster, the deletes all go to the local one. */
    method Tick(terminal: string -> bool, ws: Weathers, del: Deletes)
      returns (ghost clients: seq<Client>, ghost all: map<string, seq<Ref>>)
      modifies chaos.cloud
      ensures IsFanOut(clients, chaos.local, chaos.Loaded())
      ensures IsManagedView(all, clients, ws, old(chaos.cloud.clusters))
      ensures chaos.cloud.clusters == Reap(old(chaos.cloud.clusters), chaos.local.cluster, all, terminal, del)
    {
      ghost var gots;
      var view;
      view, clients, gots := chaos.ListManaged(ws);
      all := view;
      ReapAll(view, terminal, del);
    }

    method ReapAll(all: map<string, seq<Ref>>, terminal: string -> bool, del: Deletes)
      modifies chaos.cloud
      ensures chaos.cloud.clusters == Reap(old(chaos.cloud.clusters), chaos.local.cluster, all, terminal, del)
    {
      ghost var start, local := chaos.cloud.clusters, chaos.local.cluster;
      var left := all.Keys;
      ghost var done: set<string> := {};
      assert Reaped(all, {}, terminal, del) == {};
      WithoutNone(start, local);
      while left != {}
        invariant left !! done && left + done == all.Keys
        invariant chaos.cloud.clusters == Without(start, local, Reaped(all, done, terminal, del))
        decreases left
      {
        var run :| run in left;
        ReapedStep(all, done, run, terminal, del);
        if terminal(run) {
          ReapRun(run, all[run], del);
          WithoutTwice(start, local, Reaped(all, done, terminal, del), ReapedUnder(all[run], run, del));
        } else {
          assert Reaped(all, done, terminal, del) + {} == Reaped(all, done, terminal, del);
        }
        left, done := left - {run}, done + {run};
      }
      assert done == all.Keys;
    }

    method ReapRun(run: string, refs: seq<Ref>, del: Deletes)
      modifies chaos.cloud
      ensures chaos.cloud.clusters
          == Without(old(chaos.cloud.clusters), chaos.local.cluster, ReapedUnder(refs, run, del))
    {
      ghost var start, local := chaos.cloud.clusters, chaos.local.cluster;
      WithoutNone(start, local);
      assert ReapedUnder([], run, del) == {};
      for i := 0 to |refs|
        invariant chaos.cloud.clusters == Without(start, local, ReapedUnder(refs[..i], run, del))
      {
        var err := chaos.Delete(refs[i], del(run, i));
        ghost var gone := ReapedUnder(refs[..i], run, del);
        assert ReapedUnder(refs[..i + 1], run, del) == gone + (if err.None? then {refs[i]} else {});
        WithoutTwice(start, local, gone, if err.None? then {refs[i]} else {});
      }
      assert refs[..|refs|] == refs;
    }
  }
}
