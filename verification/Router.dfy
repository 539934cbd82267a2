/** The router: one call goes to the client of a target, or fans out over every client. */
module Router {
  import opened Wrappers
  import opened Kube
  import opened ChaosClient
  import opened Targets

  /** The environment's answers to the i-th client of a fan-out. */
  type Weathers = nat -> Weather

  function RemoteOf(t: LoadedTarget): Client {
    Remote(t.rest, t.target.ns, t.target.id)
  }

  /** The clients of the targets `ids` whose kubeconfig is known. */
  function Remotes(ids: seq<string>, loaded: map<string, LoadedTarget>): seq<Client>
    requires forall i :: 0 <= i < |ids| ==> ids[i] in loaded
  {
    if ids == [] then []
    else
      var t := loaded[ids[|ids| - 1]];
      Remotes(ids[..|ids| - 1], loaded) + if t.rest.Some? then [RemoteOf(t)] else []
  }

  /** Local first, then the reachable targets in the order of some walk over the registry. */
  ghost predicate IsFanOut(clients: seq<Client>, local: Client, loaded: Option<map<string, LoadedTarget>>) {
    match loaded
    case None => clients == [local]
    case Some(m) => exists ids: seq<string> :: IsListing(ids, m.Keys) && clients == [local] + Remotes(ids, m)
  }

  lemma {:induction false} RemotesMember(ids: seq<string>, loaded: map<string, LoadedTarget>, c: Client)
    requires forall i :: 0 <= i < |ids| ==> ids[i] in loaded
    ensures c in Remotes(ids, loaded) <==> exists id :: id in ids && loaded[id].rest.Some? && c == RemoteOf(loaded[id])
  {
    if ids != [] {
      var last := ids[|ids| - 1];
      RemotesMember(ids[..|ids| - 1], loaded, c);
      assert ids == ids[..|ids| - 1] + [last];
    }
  }

  /** `c` works in the cluster and the namespace of the target and labels with its id. */
  predicate LeadsTo(t: LoadedTarget, c: Client) {
    c.Remote? && c.rest == t.rest && c.ns == t.target.ns && c.targetId == t.target.id
  }

  predicate IsReachable(loaded: map<string, LoadedTarget>, id: string) {
    id in loaded && loaded[id].rest.Some?
  }

  /** Who takes part in a fan-out, whatever the order of the walk. */
  lemma FanOutMember(clients: seq<Client>, local: Client, loaded: Option<map<string, LoadedTarget>>, c: Client)
    requires IsFanOut(clients, local, loaded)
    ensures |clients| > 0 && clients[0] == local
    ensures c in clients
        <==> (c == local ||
              (loaded.Some? && exists id :: IsReachable(loaded.value, id) && LeadsTo(loaded.value[id], c)))
  {
    if loaded.Some? {
      var ids: seq<string> :| IsListing(ids, loaded.value.Keys) && clients == [local] + Remotes(ids, loaded.value);
      RemotesMember(ids, loaded.value, c);
    }
  }

  /** What the cleanup of `run` removes from cluster `id`: all that some client both listed and could delete. */
  function Doomed(cs: Clusters, clients: seq<Client>, ws: Weathers, run: string, id: ClusterId): set<Ref> {
    set ref | ref in At(cs, id) && exists i :: 0 <= i < |clients| && Takes(cs, clients[i], ws(i), run, id, ref)
  }

  predicate Takes(cs: Clusters, c: Client, w: Weather, run: string, id: ClusterId, ref: Ref) {
    ClusterOf(c) == Some(id) && ref in ListedByRun(c, w, cs, run) && w.del(ref).None?
  }

  function Cleaned(cs: Clusters, clients: seq<Client>, ws: Weathers, run: string): Clusters {
    map id | id in cs :: cs[id] - Doomed(cs, clients, ws, run, id)
  }

  lemma DoomedSnoc(cs: Clusters, clients: seq<Client>, c: Client, ws: Weathers, run: string, id: ClusterId, ref: Ref)
    requires ref in At(cs, id)
    ensures ref in Doomed(cs, clients + [c], ws, run, id)
        <==> ref in Doomed(cs, clients, ws, run, id) || Takes(cs, c, ws(|clients|), run, id, ref)
  {
    var more := clients + [c];
    assert more[|clients|] == c;
    assert forall i :: 0 <= i < |clients| ==> more[i] == clients[i];
  }

  lemma CleanedStepAt(cs: Clusters, clients: seq<Client>, c: Client, ws: Weathers, run: string, id: ClusterId)
    requires id in cs
    ensures var mid := Cleaned(cs, clients, ws, run);
      CleanedBy(mid, c, ws(|clients|), run).Keys == cs.Keys
      && CleanedBy(mid, c, ws(|clients|), run)[id] == cs[id] - Doomed(cs, clients + [c], ws, run, id)
  {
    var w, mid := ws(|clients|), Cleaned(cs, clients, ws, run);
    var end := CleanedBy(mid, c, w, run);
    forall ref | ref in cs[id]
      ensures ref in end[id] <==> ref !in Doomed(cs, clients + [c], ws, run, id)
    {
      DoomedSnoc(cs, clients, c, ws, run, id, ref);
      assert ref in mid[id] ==> (Takes(mid, c, w, run, id, ref) <==> Takes(cs, c, w, run, id, ref));
    }
  }

  /** Client by client equals all at once, even when clients share a cluster. */
  lemma CleanedStep(cs: Clusters, clients: seq<Client>, c: Client, ws: Weathers, run: string)
    ensures CleanedBy(Cleaned(cs, clients, ws, run), c, ws(|clients|), run) == Cleaned(cs, clients + [c], ws, run)
  {
    var end := CleanedBy(Cleaned(cs, clients, ws, run), c, ws(|clients|), run);
    assert end.Keys == cs.Keys;
    forall id | id in cs ensures end[id] == cs[id] - Doomed(cs, clients + [c], ws, run, id) {
      CleanedStepAt(cs, clients, c, ws, run, id);
    }
  }

  /** The errors the clients of a cleanup return, each seeing what the clients before it left. */
  ghost predicate AreCleanupErrors(errs: seq<Option<Error>>, cs: Clusters, clients: seq<Client>, ws: Weathers,
                                   run: string) {
    && |errs| == |clients|
    && forall i :: 0 <= i < |clients| ==>
      IsCleanupError(errs[i], clients[i], ws(i), Cleaned(cs, clients[..i], ws, run), run)
  }

  lemma ErrorsStep(errs: seq<Option<Error>>, e: Option<Error>, cs: Clusters, clients: seq<Client>, c: Client,
                   ws: Weathers, run: string)
    requires AreCleanupErrors(errs, cs, clients, ws, run)
    requires IsCleanupError(e, c, ws(|clients|), Cleaned(cs, clients, ws, run), run)
    ensures AreCleanupErrors(errs + [e], cs, clients + [c], ws, run)
  {
    var more := clients + [c];
    forall i | 0 <= i < |more|
      ensures IsCleanupError((errs + [e])[i], more[i], ws(i), Cleaned(cs, more[..i], ws, run), run)
    {
      assert more[..i] == clients[..i];
    }
  }

  /** One client's answers glued together in client order. */
  function Merged(gots: seq<map<string, seq<Ref>>>, run: string): seq<Ref> {
    if gots == [] then []
    else
      var last := gots[|gots| - 1];
      Merged(gots[..|gots| - 1], run) + if run in last then last[run] else []
  }

  ghost predicate AreMerged(out: map<string, seq<Ref>>, gots: seq<map<string, seq<Ref>>>) {
    forall run :: (if run in out then out[run] else []) == Merged(gots, run)
  }

  function Flat(parts: seq<seq<Ref>>): seq<Ref> {
    if parts == [] then [] else Flat(parts[..|parts| - 1]) + parts[|parts| - 1]
  }

  ghost predicate AreListings(parts: seq<seq<Ref>>, clients: seq<Client>, ws: Weathers, cs: Clusters, run: string) {
    && |parts| == |clients|
    && forall i :: 0 <= i < |clients| ==> IsListing(parts[i], ListedByRun(clients[i], ws(i), cs, run))
  }

  ghost predicate AreGroupings(gots: seq<map<string, seq<Ref>>>, clients: seq<Client>, ws: Weathers, cs: Clusters) {
    && |gots| == |clients|
    && forall i :: 0 <= i < |clients| ==> IsGrouping(gots[i], clients[i], ws(i), cs)
  }

  /** Some client reports `ref` as a managed object of `run`. */
  ghost predicate Reported(clients: seq<Client>, ws: Weathers, cs: Clusters, run: string, ref: Ref) {
    exists i :: 0 <= i < |clients| && ref in ListedManaged(clients[i], ws(i), cs, run)
  }

  /** `all` holds, under each non-empty run id, exactly what some client reports. */
  ghost predicate IsManagedView(all: map<string, seq<Ref>>, clients: seq<Client>, ws: Weathers, cs: Clusters) {
    forall run, ref :: (run in all && ref in all[run]) <==> (run != "" && Reported(clients, ws, cs, run, ref))
  }

  lemma {:induction false} FlatMember(parts: seq<seq<Ref>>, ref: Ref)
    ensures ref in Flat(parts) <==> exists i :: 0 <= i < |parts| && ref in parts[i]
  {
    if parts != [] {
      FlatMember(parts[..|parts| - 1], ref);
      assert forall i :: 0 <= i < |parts| - 1 ==> parts[..|parts| - 1][i] == parts[i];
    }
  }

  /** The router's list of a run holds exactly what some client reports. */
  lemma FlatIsListed(parts: seq<seq<Ref>>, clients: seq<Client>, ws: Weathers, cs: Clusters, run: string, ref: Ref)
    requires AreListings(parts, clients, ws, cs, run)
    ensures ref in Flat(parts) <==> exists i :: 0 <= i < |clients| && ref in ListedByRun(clients[i], ws(i), cs, run)
  {
    FlatMember(parts, ref);
    forall i | 0 <= i < |clients| ensures ref in parts[i] <==> ref in ListedByRun(clients[i], ws(i), cs, run) {
      assert IsListing(parts[i], ListedByRun(clients[i], ws(i), cs, run));
    }
  }

  lemma {:induction false} MergedMember(gots: seq<map<string, seq<Ref>>>, run: string, ref: Ref)
    ensures ref in Merged(gots, run) <==> exists i :: 0 <= i < |gots| && run in gots[i] && ref in gots[i][run]
  {
    if gots != [] {
      MergedMember(gots[..|gots| - 1], run, ref);
      assert forall i :: 0 <= i < |gots| - 1 ==> gots[..|gots| - 1][i] == gots[i];
    }
  }

  lemma MergedStep(out: map<string, seq<Ref>>, gots: seq<map<string, seq<Ref>>>, got: map<string, seq<Ref>>,
                   r: map<string, seq<Ref>>)
    requires AreMerged(out, gots)
    requires r.Keys == out.Keys + got.Keys
    requires forall k :: k in r ==> r[k] == (if k in out then out[k] else []) + (if k in got then got[k] else [])
    ensures AreMerged(r, gots + [got])
  {
    forall run ensures (if run in r then r[run] else []) == Merged(gots + [got], run) {
      assert (gots + [got])[..|gots|] == gots;
      assert (if run in out then out[run] else []) == Merged(gots, run);
    }
  }

  lemma GroupingsStep(gots: seq<map<string, seq<Ref>>>, got: map<string, seq<Ref>>, clients: seq<Client>, c: Client,
                      ws: Weathers, cs: Clusters)
    requires AreGroupings(gots, clients, ws, cs) && IsGrouping(got, c, ws(|clients|), cs)
    ensures AreGroupings(gots + [got], clients + [c], ws, cs)
  {
    forall i | 0 <= i < |clients + [c]| ensures IsGrouping((gots + [got])[i], (clients + [c])[i], ws(i), cs) {
    }
  }

  lemma MergedIsView(all: map<string, seq<Ref>>, gots: seq<map<string, seq<Ref>>>, clients: seq<Client>, ws: Weathers,
                     cs: Clusters)
    requires AreGroupings(gots, clients, ws, cs)
    requires AreMerged(all, gots)
    ensures IsManagedView(all, clients, ws, cs)
  {
    forall run, ref
      ensures (run in all && ref in all[run]) <==> (run != "" && Reported(clients, ws, cs, run, ref))
    {
      MergedMember(gots, run, ref);
      assert (run in all && ref in all[run]) <==> ref in Merged(gots, run) by {
        assert (if run in all then all[run] else []) == Merged(gots, run);
      }
      forall i | 0 <= i < |clients|
        ensures (run in gots[i] && ref in gots[i][run])
            <==> (run != "" && ref in ListedManaged(clients[i], ws(i), cs, run))
      {
        assert IsGrouping(gots[i], clients[i], ws(i), cs);
      }
    }
  }

  /** The client a target id leads to: none for an unknown target. */
  function PickOf(local: Client, loaded: Option<map<string, LoadedTarget>>, targetId: string): Option<Client> {
    if targetId == "" then Some(local)
    else if loaded.Some? && targetId in loaded.value then Some(RemoteOf(loaded.value[targetId]))
    else None
  }

  function NewRef(c: Client, res: Resource, answer: Result<string, Error>): Ref
    requires GvrFromApiVersion(res.apiVersion, res.kind).Some? && answer.Success?
  {
    Ref(GvrFromApiVersion(res.apiVersion, res.kind).value, c.ns, answer.value)
  }

  /** A create succeeds for a managed kind, on a known and reachable target, under a free name. */
  predicate IsCreatable(cs: Clusters, local: Client, loaded: Option<map<string, LoadedTarget>>, targetId: string,
                        res: Resource, dial: Option<Error>, answer: Result<string, Error>) {
    && PickOf(local, loaded, targetId).Some?
    && GvrFromApiVersion(res.apiVersion, res.kind).Some?
    && var c := PickOf(local, loaded, targetId).value;
    && DialError(c, dial).None?
    && answer.Success?
    && NewRef(c, res, answer) !in At(cs, ClusterOf(c).value)
  }

  function Created(cs: Clusters, local: Client, loaded: Option<map<string, LoadedTarget>>, run: string,
                   targetId: string,
                   res: Resource, dial: Option<Error>, answer: Result<string, Error>): Clusters {
    if IsCreatable(cs, local, loaded, targetId, res, dial, answer) then
      var c := PickOf(local, loaded, targetId).value;
      With(cs, ClusterOf(c).value, NewRef(c, res, answer), StampedBy(c, run, res))
    else cs
  }

  predicate IsDeletable(local: Client, loaded: Option<map<string, LoadedTarget>>, targetId: string, ref: Ref,
                        w: Weather) {
    var c := PickOf(local, loaded, targetId);
    c.Some? && DialError(c.value, w.dial).None? && w.del(ref).None?
  }

  function Deleted(cs: Clusters, local: Client, loaded: Option<map<string, LoadedTarget>>, targetId: string, ref: Ref,
                   w: Weather): Clusters {
    if IsDeletable(local, loaded, targetId, ref, w)
    then Without(cs, ClusterOf(PickOf(local, loaded, targetId).value).value, {ref})
    else cs
  }

  class Router {
    const cloud: Cloud
    const local: LocalClient
    const registry: Registry?

    constructor (cloud: Cloud, cluster: ClusterId, ns: string, registry: Registry?)
      ensures this.cloud == cloud && this.local == Local(cluster, ns) && this.registry == registry
    {
      this.cloud, this.local, this.registry := cloud, Local(cluster, ns), registry;
    }

    function Loaded(): Option<map<string, LoadedTarget>>
      reads registry
    {
      if registry == null then None else Some(registry.loaded)
    }

    method Pick(targetId: string) returns (c: Result<Client, Error>)
      ensures if c.Success? then PickOf(local, Loaded(), targetId) == Some(c.value)
              else PickOf(local, Loaded(), targetId) == None
      ensures targetId == "" ==> c == Success(local)
      ensures targetId != "" && registry != null && targetId in registry.loaded ==>
                c.Success? && LeadsTo(registry.loaded[targetId], c.value)
      ensures targetId != "" && (registry == null || targetId !in registry.loaded) ==> c.Failure?
    {
      if targetId == "" {
        return Success(local);
      }
      if registry == null {
        return Failure("router: no registry for target");
      }
      var t := registry.Get(targetId);
      if t.None? {
        return Failure("router: unknown target");
      }
      return Success(RemoteOf(t.value));
    }

    method AllClients() returns (clients: seq<Client>)
      ensures IsFanOut(clients, local, Loaded())
    {
      clients := [local];
      if registry == null {
        return;
      }
      var targets;
      ghost var ids;
      targets, ids := registry.List();
      for i := 0 to |targets|
        invariant clients == [local] + Remotes(ids[..i], registry.loaded)
      {
        assert ids[..i + 1][..i] == ids[..i];
        if targets[i].rest.Some? {
          clients := clients + [RemoteOf(targets[i])];
        }
      }
      assert ids[..|targets|] == ids;
    }

    method CreateForTarget(run: string, targetId: string, res: Resource, dial: Option<Error>,
                           answer: Result<string, Error>)
      returns (r: Result<Ref, Error>)
      modifies cloud
      ensures r.Success? <==> IsCreatable(old(cloud.clusters), local, Loaded(), targetId, res, dial, answer)
      ensures cloud.clusters == Created(old(cloud.clusters), local, Loaded(), run, targetId, res, dial, answer)
      ensures r.Success? ==>
        && IsFiledUnder(res.apiVersion, res.kind, r.value.gvr)
        && r.value.ns == PickOf(local, Loaded(), targetId).value.ns && Success(r.value.name) == answer
        && r.value in At(cloud.clusters, ClusterOf(PickOf(local, Loaded(), targetId).value).value)
    {
      var c := Pick(targetId);
      if c.Failure? {
        return Failure(c.error);
      }
      r := CreateWith(cloud, c.value, run, res, dial, answer);
    }

    method DeleteForTarget(targetId: string, ref: Ref, w: Weather) returns (err: Option<Error>)
      modifies cloud
      ensures err.None? <==> IsDeletable(local, Loaded(), targetId, ref, w)
      ensures cloud.clusters == Deleted(old(cloud.clusters), local, Loaded(), targetId, ref, w)
    {
      var c := Pick(targetId);
      if c.Failure? {
        return Some(c.error);
      }
      err := DeleteWith(cloud, c.value, ref, w);
    }

    /** The client-interface delete: it knows no target and goes to the local cluster. */
    method Delete(ref: Ref, fault: Option<Error>) returns (err: Option<Error>)
      modifies cloud
      ensures err == fault
      ensures cloud.clusters == Without(old(cloud.clusters), local.cluster, if fault.None? then {ref} else {})
    {
      err := DeleteWith(cloud, local, ref, Weather(None, _ => None, _ => fault));
      WithoutNone(old(cloud.clusters), local.cluster);
    }

    /** No failing client stops the walk; the first failure is the one reported. */
    method DeleteByRun(run: string, ws: Weathers)
      returns (err: Option<Error>, ghost clients: seq<Client>, ghost errs: seq<Option<Error>>)
      modifies cloud
      ensures IsFanOut(clients, local, Loaded())
      ensures cloud.clusters == Cleaned(old(cloud.clusters), clients, ws, run)
      ensures AreCleanupErrors(errs, old(cloud.clusters), clients, ws, run)
      ensures IsFirst(err, errs)
    {
      var all := AllClients();
      ghost var start := cloud.clusters;
      clients, errs, err := all, [], None;
      CleanedNone(start, ws, run);
      for i := 0 to |all|
        invariant cloud.clusters == Cleaned(start, all[..i], ws, run)
        invariant AreCleanupErrors(errs, start, all[..i], ws, run)
        invariant IsFirst(err, errs)
      {
        var e := CleanNext(cloud, start, all[..i], all[i], i, errs, ws, run);
        assert all[..i + 1] == all[..i] + [all[i]];
        FirstStep(err, errs, e);
        errs := errs + [e];
        if e.Some? && err.None? {
          err := e;
        }
      }
      assert all[..|all|] == all;
    }

    method ListByRun(run: string, ws: Weathers)
      returns (out: seq<Ref>, ghost clients: seq<Client>, ghost parts: seq<seq<Ref>>)
      ensures IsFanOut(clients, local, Loaded())
      ensures AreListings(parts, clients, ws, cloud.clusters, run)
      ensures out == Flat(parts)
    {
      var all := AllClients();
      clients, parts, out := all, [], [];
      for i := 0 to |all|
        invariant AreListings(parts, all[..i], ws, cloud.clusters, run)
        invariant out == Flat(parts)
      {
        out, parts := ListNext(cloud, out, parts, all[..i], all[i], i, run, ws);
        assert all[..i + 1] == all[..i] + [all[i]];
      }
      assert all[..|all|] == all;
    }

    method ListManaged(ws: Weathers)
      returns (out: map<string, seq<Ref>>, ghost clients: seq<Client>, ghost gots: seq<map<string, seq<Ref>>>)
      ensures IsFanOut(clients, local, Loaded())
      ensures AreGroupings(gots, clients, ws, cloud.clusters)
      ensures AreMerged(out, gots)
      ensures IsManagedView(out, clients, ws, cloud.clusters)
    {
      var all := AllClients();
      clients, gots, out := all, [], map[];
      for i := 0 to |all|
        invariant AreGroupings(gots, all[..i], ws, cloud.clusters)
        invariant AreMerged(out, gots)
      {
        out, gots := MergeNext(cloud, out, gots, all[..i], all[i], i, ws);
        assert all[..i + 1] == all[..i] + [all[i]];
      }
      assert all[..|all|] == all;
      MergedIsView(out, gots, all, ws, cloud.clusters);
    }
  }

  /** The cleanup of the next client, after the clients `before` have had their turn. */
  method CleanNext(cloud: Cloud, ghost start: Clusters, ghost before: seq<Client>, c: Client, i: nat,
                   ghost errs: seq<Option<Error>>,
                   ws: Weathers, run: string) returns (e: Option<Error>)
    requires i == |before| && cloud.clusters == Cleaned(start, before, ws, run)
    requires AreCleanupErrors(errs, start, before, ws, run)
    modifies cloud
    ensures cloud.clusters == Cleaned(start, before + [c], ws, run)
    ensures AreCleanupErrors(errs + [e], start, before + [c], ws, run)
  {
    e := ChaosClient.DeleteByRun(cloud, c, run, ws(i));
    CleanedStep(start, before, c, ws, run);
    ErrorsStep(errs, e, start, before, c, ws, run);
  }

  /** A client that fails is skipped. */
  method ListingOf(cloud: Cloud, c: Client, run: string, w: Weather) returns (refs: seq<Ref>)
    ensures IsListing(refs, ListedByRun(c, w, cloud.clusters, run))
  {
    var r := ChaosClient.ListByRun(cloud, c, run, w);
    refs := if r.Success? then r.value else [];
  }

  method GroupingOf(cloud: Cloud, c: Client, w: Weather) returns (got: map<string, seq<Ref>>)
    ensures IsGrouping(got, c, w, cloud.clusters)
  {
    var r := ChaosClient.ListManaged(cloud, c, w);
    got := if r.Success? then r.value else map[];
  }

  /** The listing of the next client, after those of the clients `before`. */
  method ListNext(cloud: Cloud, out: seq<Ref>, ghost parts: seq<seq<Ref>>, ghost before: seq<Client>, c: Client, i: nat,
                  run: string, ws: Weathers)
    returns (r: seq<Ref>, ghost more: seq<seq<Ref>>)
    requires i == |before| && AreListings(parts, before, ws, cloud.clusters, run) && out == Flat(parts)
    ensures AreListings(more, before + [c], ws, cloud.clusters, run) && r == Flat(more)
  {
    var part := ListingOf(cloud, c, run, ws(i));
    more := parts + [part];
    assert more[..|parts|] == parts;
    r := out + part;
  }

  /** The grouping of the next client, after those of the clients `before`. */
  method MergeNext(cloud: Cloud, out: map<string, seq<Ref>>, ghost gots: seq<map<string, seq<Ref>>>,
                   ghost before: seq<Client>, c: Client, i: nat, ws: Weathers)
    returns (r: map<string, seq<Ref>>, ghost more: seq<map<string, seq<Ref>>>)
    requires i == |before| && AreGroupings(gots, before, ws, cloud.clusters) && AreMerged(out, gots)
    ensures AreGroupings(more, before + [c], ws, cloud.clusters) && AreMerged(r, more)
  {
    var got := GroupingOf(cloud, c, ws(i));
    r := MergeInto(out, got);
    MergedStep(out, gots, got, r);
    GroupingsStep(gots, got, before, c, ws, cloud.clusters);
    more := gots + [got];
  }

  lemma CleanedNone(cs: Clusters, ws: Weathers, run: string)
    ensures Cleaned(cs, [], ws, run) == cs
  {
    forall id | id in cs ensures cs[id] - Doomed(cs, [], ws, run, id) == cs[id] {
    }
  }

  /** Appends the lists of `got` to those of `out`, in the arbitrary order of a map walk. */
  method MergeInto(out: map<string, seq<Ref>>, got: map<string, seq<Ref>>) returns (r: map<string, seq<Ref>>)
    ensures r.Keys == out.Keys + got.Keys
    ensures forall k :: k in r ==> r[k] == (if k in out then out[k] else []) + (if k in got then got[k] else [])
  {
    r := out;
    var left := got.Keys;
    while left != {}
      invariant left <= got.Keys
      invariant r.Keys == out.Keys + (got.Keys - left)
      invariant forall k :: k in r ==>
        r[k] == (if k in out then out[k] else []) + (if k in got && k !in left then got[k] else [])
      decreases left
    {
      var k :| k in left;
      r := r[k := (if k in r then r[k] else []) + got[k]];
      left := left - {k};
    }
  }
}
