/** The chaos clients of one cluster: the local one and the one behind a target's kubeconfig. */
module ChaosClient {
  import opened Wrappers
  import opened Kube

  const RUN_ID := "dlh.run-id"
  const MANAGED_BY := "dlh.managed-by"
  const TARGET := "dlh.target"
  const CONTROLPLANE := "controlplane"

  /** The two implementations of the client interface; `rest` names the cluster a kubeconfig leads to. */
  datatype Client =
    | Local(cluster: ClusterId, ns: string)
    | Remote(rest: Option<ClusterId>, ns: string, targetId: string)

  type LocalClient = c: Client | c.Local? witness Local("", "")

  /** A chaos resource as submitted; its name is chosen by the server from the opaque metadata. */
  datatype Resource = Resource(apiVersion: string, kind: string, labels: Option<map<string, string>>)

  /** What the environment answers during one client operation: None means the call succeeds. */
  datatype Weather = Weather(dial: Option<Error>, list: Gvr -> Option<Error>, del: Ref -> Option<Error>)

  function ChaosGvrs(): (r: seq<Gvr>)
    ensures forall i, j :: 0 <= i < j < |r| ==> r[i] != r[j]
  {
    var g, v := "chaos-mesh.org", "v1alpha1";
    var r := [Gvr(g, v, "schedules"), Gvr(g, v, "podchaos"), Gvr(g, v, "networkchaos")];
    assert |r[0].resource| == 9 && |r[1].resource| == 8 && |r[2].resource| == 12;
    r
  }

  /** Lower-casing as far as it can give an ASCII letter: two characters beyond ASCII do, the Kelvin sign and the
      dotted capital I. */
  function LowerChar(c: char): char {
    if 'A' <= c <= 'Z' then (c as int + 32) as char
    else if c == '\U{212A}' then 'k'
    else if c == '\U{130}' then 'i'
    else c
  }

  function Lower(s: string): string {
    seq(|s|, i requires 0 <= i < |s| => LowerChar(s[i]))
  }

  function FindGvr(gvrs: seq<Gvr>, apiVersion: string, resource: string): (r: Option<Gvr>)
    ensures r.Some? ==>
        r.value in gvrs && apiVersion == r.value.group + "/" + r.value.version && r.value.resource == resource
    ensures r.None? ==> forall g :: g in gvrs && apiVersion == g.group + "/" + g.version ==> g.resource != resource
  {
    if gvrs == [] then None
    else if apiVersion == gvrs[0].group + "/" + gvrs[0].version && gvrs[0].resource == resource then Some(gvrs[0])
    else FindGvr(gvrs[1..], apiVersion, resource)
  }

  /** None for a kind the control plane does not manage. */
  function GvrFromApiVersion(apiVersion: string, kind: string): Option<Gvr> {
    var resource := if Lower(kind) == "schedule" then "schedules" else Lower(kind);
    FindGvr(ChaosGvrs(), apiVersion, resource)
  }

  /** `kind` is the lower-case `word` with any of its letters in capitals. The Kelvin sign and the dotted capital I
      count as capitals of k and i. */
  predicate Spells(kind: string, word: string) {
    |kind| == |word| && forall i :: 0 <= i < |word| ==> IsEitherCase(kind[i], word[i])
  }

  predicate IsEitherCase(c: char, letter: char) {
    || c == letter || c as int == letter as int - 32
    || (letter == 'k' && c == '\U{212A}') || (letter == 'i' && c == '\U{130}')
  }

  lemma LowerSpells(kind: string, word: string)
    requires forall i :: 0 <= i < |word| ==> 'a' <= word[i] <= 'z'
    ensures Lower(kind) == word <==> Spells(kind, word)
  {
    if Spells(kind, word) {
      assert forall i :: 0 <= i < |word| ==> LowerChar(kind[i]) == word[i];
    }
    if Lower(kind) == word {
      forall i | 0 <= i < |word| ensures IsEitherCase(kind[i], word[i]) {
        assert Lower(kind)[i] == LowerChar(kind[i]);
      }
    }
  }

  /** The resource under which a kind is filed; anything else is refused. */
  ghost predicate IsFiledUnder(apiVersion: string, kind: string, gvr: Gvr) {
    && apiVersion == "chaos-mesh.org/v1alpha1" && gvr.group == "chaos-mesh.org" && gvr.version == "v1alpha1"
    && ((gvr.resource == "schedules" && (Spells(kind, "schedule") || Spells(kind, "schedules"))) ||
        (gvr.resource == "podchaos" && Spells(kind, "podchaos")) ||
        (gvr.resource == "networkchaos" && Spells(kind, "networkchaos")))
  }

  /** The kinds that can be created, in any capitals, and what becomes of each. */
  lemma ManagedKinds(apiVersion: string, kind: string, gvr: Gvr)
    ensures GvrFromApiVersion(apiVersion, kind) == Some(gvr) <==> IsFiledUnder(apiVersion, kind, gvr)
  {
    var gs := ChaosGvrs();
    LowerSpells(kind, "schedule");
    LowerSpells(kind, "schedules");
    LowerSpells(kind, "podchaos");
    LowerSpells(kind, "networkchaos");
    assert |"schedule"| == 8 && |"schedules"| == 9 && |"podchaos"| == 8 && |"networkchaos"| == 12;
    assert "schedule"[0] != "podchaos"[0];
    assert gs[0] in gs && gs[1] in gs && gs[2] in gs;
    forall g | g in gs ensures g.group + "/" + g.version == "chaos-mesh.org/v1alpha1" {
    }
    var found := GvrFromApiVersion(apiVersion, kind);
    if IsFiledUnder(apiVersion, kind, gvr) {
      assert gvr in gs;
      assert found.Some?;
    }
  }

  function ClusterOf(c: Client): Option<ClusterId> {
    if c.Local? then Some(c.cluster) else c.rest
  }

  /** Why a client cannot reach its cluster at all; a local client always can. */
  function DialError(c: Client, dial: Option<Error>): (err: Option<Error>)
    ensures err.None? <==> c.Local? || (c.rest.Some? && dial.None?)
    ensures c.Remote? && c.rest.Some? ==> err == dial
  {
    if c.Local? then None
    else if c.rest.None? then Some("remote chaos client: no kubeconfig")
    else dial
  }

  /** The objects a label query of client `c` over the kinds `gvrs` reports: kinds whose list fails are skipped. */
  function Listed(gvrs: seq<Gvr>, c: Client, w: Weather, cs: Clusters, key: string, value: string): set<Ref> {
    if DialError(c, w.dial).Some? then {}
    else
      var objs := At(cs, ClusterOf(c).value);
      set ref | ref in objs && ref.ns == c.ns && ref.gvr in gvrs
                && w.list(ref.gvr).None? && Matches(objs[ref], key, value)
  }

  function ListedByRun(c: Client, w: Weather, cs: Clusters, run: string): set<Ref> {
    Listed(ChaosGvrs(), c, w, cs, RUN_ID, run)
  }

  function Bearing(refs: set<Ref>, objs: Objects, run: string): set<Ref> {
    set ref | ref in refs && ref in objs && Matches(objs[ref], RUN_ID, run)
  }

  /** The managed objects of run `run` that client `c` reports. */
  function ListedManaged(c: Client, w: Weather, cs: Clusters, run: string): set<Ref> {
    if DialError(c, w.dial).Some? then {}
    else Bearing(Listed(ChaosGvrs(), c, w, cs, MANAGED_BY, CONTROLPLANE), At(cs, ClusterOf(c).value), run)
  }

  /** `out` sorts `refs` by their run id; objects without one are left out. */
  ghost predicate Groups(out: map<string, seq<Ref>>, refs: set<Ref>, objs: Objects) {
    && (forall run :: run in out ==> run != "" && out[run] != [] && IsListing(out[run], Bearing(refs, objs, run)))
    && (forall run :: run != "" && run !in out ==> Bearing(refs, objs, run) == {})
  }

  /** What `ListManaged` of client `c` may return; a client that cannot dial groups nothing. */
  ghost predicate IsGrouping(out: map<string, seq<Ref>>, c: Client, w: Weather, cs: Clusters) {
    && (forall run :: run in out ==> run != "" && out[run] != [] && IsListing(out[run], ListedManaged(c, w, cs, run)))
    && (forall run :: run != "" && run !in out ==> ListedManaged(c, w, cs, run) == {})
  }

  /** The labels a client sets itself. */
  predicate Owns(c: Client, key: string) {
    key == "dlh.run-id" || key == "dlh.managed-by" || (c.Remote? && key == "dlh.target")
  }

  /** The labels a client puts on what it creates: its own win over those in the body. */
  function Stamp(c: Client, run: string, body: Option<map<string, string>>): (labels: map<string, string>)
    ensures "dlh.run-id" in labels && labels["dlh.run-id"] == run
    ensures "dlh.managed-by" in labels && labels["dlh.managed-by"] == "controlplane"
    ensures c.Remote? ==> "dlh.target" in labels && labels["dlh.target"] == c.targetId
    ensures forall k :: !Owns(c, k) ==>
      (k in labels <==> body.Some? && k in body.value) && (k in labels ==> labels[k] == body.value[k])
  {
    var given := if body.Some? then body.value else map[];
    assert |RUN_ID| == 10 && |MANAGED_BY| == 14;
    assert RUN_ID[4] != TARGET[4] && MANAGED_BY[4] != TARGET[4];
    var own := given[RUN_ID := run][MANAGED_BY := CONTROLPLANE];
    if c.Remote? then own[TARGET := c.targetId] else own
  }

  function StampedBy(c: Client, run: string, res: Resource): Object {
    Object(Stamp(c, run, res.labels), Ours(run, if c.Local? then "" else c.targetId))
  }

  /** The clusters after client `c` deleted what it listed for `run`. */
  function CleanedBy(cs: Clusters, c: Client, w: Weather, run: string): Clusters {
    if DialError(c, w.dial).Some? then cs
    else Without(cs, ClusterOf(c).value, set ref | ref in ListedByRun(c, w, cs, run) && w.del(ref).None?)
  }

  /** The error `DeleteByRun` of client `c` returns: the first failed delete in listing order. */
  ghost predicate IsCleanupError(err: Option<Error>, c: Client, w: Weather, cs: Clusters, run: string) {
    if DialError(c, w.dial).Some? then err == DialError(c, w.dial)
    else exists refs: seq<Ref> :: IsListing(refs, ListedByRun(c, w, cs, run)) && IsFirst(err, Faults(refs, w))
  }

  function Faults(refs: seq<Ref>, w: Weather): seq<Option<Error>> {
    seq(|refs|, i requires 0 <= i < |refs| => w.del(refs[i]))
  }

  lemma ListingAppend<T>(xs: seq<T>, a: set<T>, ys: seq<T>, b: set<T>)
    requires IsListing(xs, a) && IsListing(ys, b) && a !! b
    ensures IsListing(xs + ys, a + b)
  {
    forall i, j | 0 <= i < j < |xs + ys| ensures (xs + ys)[i] != (xs + ys)[j] {
      if i < |xs| <= j {
        assert xs[i] in a && ys[j - |xs|] in b;
      }
    }
  }

  method CreateWith(cloud: Cloud, c: Client, run: string, res: Resource, dial: Option<Error>,
                    answer: Result<string, Error>)
    returns (r: Result<Ref, Error>)
    modifies cloud
    ensures r.Failure? ==> cloud.clusters == old(cloud.clusters)
    ensures r.Success? <==>
      && GvrFromApiVersion(res.apiVersion, res.kind).Some?
      && DialError(c, dial).None?
      && answer.Success?
      && Ref(GvrFromApiVersion(res.apiVersion, res.kind).value, c.ns, answer.value)
         !in At(old(cloud.clusters), ClusterOf(c).value)
    ensures r.Success? ==>
      && r.value == Ref(GvrFromApiVersion(res.apiVersion, res.kind).value, c.ns, answer.value)
      && IsFiledUnder(res.apiVersion, res.kind, r.value.gvr)
      && cloud.clusters == With(old(cloud.clusters), ClusterOf(c).value, r.value, StampedBy(c, run, res))
  {
    var gvr := GvrFromApiVersion(res.apiVersion, res.kind);
    if gvr.None? {
      return Failure("unsupported chaos kind");
    }
    ManagedKinds(res.apiVersion, res.kind, gvr.value);
    var dialed := DialError(c, dial);
    if dialed.Some? {
      return Failure(dialed.value);
    }
    if answer.Failure? {
      return Failure(answer.error);
    }
    var ref := Ref(gvr.value, c.ns, answer.value);
    var err := cloud.Create(ClusterOf(c).value, ref, StampedBy(c, run, res));
    if err.Some? {
      return Failure(err.value);
    }
    return Success(ref);
  }

  method DeleteWith(cloud: Cloud, c: Client, ref: Ref, w: Weather) returns (err: Option<Error>)
    modifies cloud
    ensures err == if DialError(c, w.dial).Some? then DialError(c, w.dial) else w.del(ref)
    ensures cloud.clusters
         == if err.Some? then old(cloud.clusters) else Without(old(cloud.clusters), ClusterOf(c).value, {ref})
  {
    err := DialError(c, w.dial);
    if err.None? {
      err := cloud.Delete(ClusterOf(c).value, ref, w.del(ref));
      WithoutNone(old(cloud.clusters), ClusterOf(c).value);
    }
  }

  lemma WithoutNone(cs: Clusters, id: ClusterId)
    ensures Without(cs, id, {}) == cs
  {
    if id in cs {
      assert cs[id] - {} == cs[id];
    }
  }

  lemma WithoutTwice(cs: Clusters, id: ClusterId, a: set<Ref>, b: set<Ref>)
    ensures Without(Without(cs, id, a), id, b) == Without(cs, id, a + b)
  {
    if id in cs {
      assert cs[id] - a - b == cs[id] - (a + b);
    }
  }

  method ListWith(cloud: Cloud, c: Client, w: Weather, key: string, value: string) returns (r: Result<seq<Ref>, Error>)
    ensures DialError(c, w.dial).Some? ==> r == Failure(DialError(c, w.dial).value)
    ensures DialError(c, w.dial).None? ==>
        r.Success? && IsListing(r.value, Listed(ChaosGvrs(), c, w, cloud.clusters, key, value))
  {
    if DialError(c, w.dial).Some? {
      return Failure(DialError(c, w.dial).value);
    }
    var gvrs := ChaosGvrs();
    var out: seq<Ref> := [];
    for i := 0 to |gvrs|
      invariant IsListing(out, Listed(gvrs[..i], c, w, cloud.clusters, key, value))
    {
      var got := cloud.List(ClusterOf(c).value, gvrs[i], c.ns, key, value, w.list(gvrs[i]));
      ghost var before := Listed(gvrs[..i], c, w, cloud.clusters, key, value);
      ghost var more := Selected(At(cloud.clusters, ClusterOf(c).value), gvrs[i], c.ns, key, value);
      assert gvrs[..i + 1] == gvrs[..i] + [gvrs[i]];
      assert Listed(gvrs[..i + 1], c, w, cloud.clusters, key, value) == before + (if got.Success? then more else {});
      if got.Success? {
        ListingAppend(out, before, got.value, more);
        out := out + got.value;
      }
    }
    assert gvrs[..|gvrs|] == gvrs;
    return Success(out);
  }

  method ListByRun(cloud: Cloud, c: Client, run: string, w: Weather) returns (r: Result<seq<Ref>, Error>)
    ensures DialError(c, w.dial).Some? ==> r == Failure(DialError(c, w.dial).value)
    ensures DialError(c, w.dial).None? ==> r.Success? && IsListing(r.value, ListedByRun(c, w, cloud.clusters, run))
  {
    r := ListWith(cloud, c, w, RUN_ID, run);
  }

  function Gone(refs: seq<Ref>, w: Weather): set<Ref> {
    set ref | ref in refs && w.del(ref).None?
  }

  lemma GoneStep(refs: seq<Ref>, ref: Ref, w: Weather)
    ensures Gone(refs + [ref], w) == Gone(refs, w) + if w.del(ref).None? then {ref} else {}
    ensures Faults(refs + [ref], w) == Faults(refs, w) + [w.del(ref)]
  {
  }

  /** Every delete is tried, whatever became of the ones before it. */
  method DeleteAll(cloud: Cloud, c: Client, refs: seq<Ref>, w: Weather) returns (err: Option<Error>)
    requires DialError(c, w.dial).None?
    modifies cloud
    ensures cloud.clusters == Without(old(cloud.clusters), ClusterOf(c).value, Gone(refs, w))
    ensures IsFirst(err, Faults(refs, w))
  {
    ghost var id := ClusterOf(c).value;
    ghost var start := cloud.clusters;
    err := None;
    assert Gone([], w) == {};
    WithoutNone(start, id);
    for i := 0 to |refs|
      invariant IsFirst(err, Faults(refs[..i], w))
      invariant cloud.clusters == Without(start, id, Gone(refs[..i], w))
    {
      var e := DeleteWith(cloud, c, refs[i], w);
      assert refs[..i + 1] == refs[..i] + [refs[i]];
      GoneStep(refs[..i], refs[i], w);
      FirstStep(err, Faults(refs[..i], w), e);
      WithoutTwice(start, id, Gone(refs[..i], w), {refs[i]});
      assert Gone(refs[..i], w) + {} == Gone(refs[..i], w);
      if e.Some? && err.None? {
        err := e;
      }
    }
    assert refs[..|refs|] == refs;
  }

  method DeleteByRun(cloud: Cloud, c: Client, run: string, w: Weather) returns (err: Option<Error>)
    modifies cloud
    ensures cloud.clusters == CleanedBy(old(cloud.clusters), c, w, run)
    ensures IsCleanupError(err, c, w, old(cloud.clusters), run)
  {
    var got := ListByRun(cloud, c, run, w);
    if got.Failure? {
      return Some(got.error);
    }
    err := DeleteAll(cloud, c, got.value, w);
    assert Gone(got.value, w) == set ref | ref in ListedByRun(c, w, old(cloud.clusters), run) && w.del(ref).None?;
  }

  /** One more item goes under its run id. */
  lemma GroupsStep(out: map<string, seq<Ref>>, refs: set<Ref>, objs: Objects, ref: Ref)
    requires Groups(out, refs, objs) && ref in objs && ref !in refs
    ensures var run := if RUN_ID in objs[ref].labels then objs[ref].labels[RUN_ID] else "";
            var grown := out[run := (if run in out then out[run] else []) + [ref]];
            Groups(if run == "" then out else grown, refs + {ref}, objs)
  {
    var run := if RUN_ID in objs[ref].labels then objs[ref].labels[RUN_ID] else "";
    forall r | r != "" && r != run ensures Bearing(refs + {ref}, objs, r) == Bearing(refs, objs, r) {
    }
    assert run != "" ==> Bearing(refs + {ref}, objs, run) == Bearing(refs, objs, run) + {ref};
  }

  method AddToGroup(out: map<string, seq<Ref>>, ghost refs: set<Ref>, objs: Objects, ref: Ref)
    returns (r: map<string, seq<Ref>>)
    requires Groups(out, refs, objs) && ref in objs && ref !in refs
    ensures Groups(r, refs + {ref}, objs)
  {
    GroupsStep(out, refs, objs, ref);
    var run := if RUN_ID in objs[ref].labels then objs[ref].labels[RUN_ID] else "";
    if run == "" {
      return out;
    }
    return out[run := (if run in out then out[run] else []) + [ref]];
  }

  method ListManaged(cloud: Cloud, c: Client, w: Weather) returns (r: Result<map<string, seq<Ref>>, Error>)
    ensures DialError(c, w.dial).Some? ==> r == Failure(DialError(c, w.dial).value)
    ensures DialError(c, w.dial).None? ==> r.Success? && IsGrouping(r.value, c, w, cloud.clusters)
  {
    var got := ListWith(cloud, c, w, MANAGED_BY, CONTROLPLANE);
    if got.Failure? {
      return Failure(got.error);
    }
    var refs := got.value;
    var objs := At(cloud.clusters, ClusterOf(c).value);
    var out: map<string, seq<Ref>> := map[];
    ghost var seen: set<Ref> := {};
    for i := 0 to |refs|
      invariant seen == set ref | ref in refs[..i]
      invariant Groups(out, seen, objs)
    {
      out := AddToGroup(out, seen, objs, refs[i]);
      seen := seen + {refs[i]};
    }
    assert seen == Listed(ChaosGvrs(), c, w, cloud.clusters, MANAGED_BY, CONTROLPLANE);
    return Success(out);
  }
}
