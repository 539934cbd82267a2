/** The registry of remote target clusters and the loader that refills it. */
module Targets {
  import opened Wrappers
  import opened Kube

  const DEFAULT_NAMESPACE := "dlh-test-fw"

  datatype Target = Target(id: string, displayName: string, kubeconfigSecret: string, ns: string)

  /** `rest` is None when the kubeconfig of the target could not be read. */
  datatype LoadedTarget = LoadedTarget(target: Target, rest: Option<ClusterId>)

  predicate WellFormed(t: Target) {
    t.id != "" && t.kubeconfigSecret != ""
  }

  function Defaulted(t: Target): Target {
    t.(ns := if t.ns == "" then DEFAULT_NAMESPACE else t.ns,
       displayName := if t.displayName == "" then t.id else t.displayName)
  }

  /** Entry `i` has this id and a kubeconfig secret, and no later entry with a secret has the id. */
  predicate IsLastNaming(entries: seq<Target>, i: int, id: string) {
    && 0 <= i < |entries| && entries[i].id == id != "" && entries[i].kubeconfigSecret != ""
    && forall j :: i < j < |entries| ==> entries[j].id != id || entries[j].kubeconfigSecret == ""
  }

  /** The last well-formed entry that names `id`. */
  function LastFor(entries: seq<Target>, id: string): (r: Option<Target>)
    ensures r.Some? ==> exists i :: IsLastNaming(entries, i, id) && r.value == entries[i]
    ensures r.None? ==> forall i :: 0 <= i < |entries| && WellFormed(entries[i]) ==> entries[i].id != id
  {
    if entries == [] then None
    else
      var last := entries[|entries| - 1];
      NamingInFront(entries, id);
      if WellFormed(last) && last.id == id then Some(last) else LastFor(entries[..|entries| - 1], id)
  }

  lemma NamingInFront(entries: seq<Target>, id: string)
    requires entries != []
    ensures var n := |entries| - 1;
      if WellFormed(entries[n]) && entries[n].id == id then IsLastNaming(entries, n, id)
      else forall i :: IsLastNaming(entries[..n], i, id) ==> IsLastNaming(entries, i, id)
  {
  }

  ghost predicate IsLoadOf(loaded: map<string, LoadedTarget>, entries: seq<Target>,
                           kubeconfig: string -> Option<ClusterId>) {
    forall id :: (if id in loaded then Some(loaded[id]) else None) ==
      match LastFor(entries, id)
      case None => None
      case Some(t) => Some(LoadedTarget(Defaulted(t), kubeconfig(t.kubeconfigSecret)))
  }

  /** Targets are filed under their own non-empty id and always have a namespace. */
  predicate IsRegister(loaded: map<string, LoadedTarget>) {
    forall id :: id in loaded ==> id != "" && loaded[id].target.id == id && loaded[id].target.ns != ""
  }

  /** What is registered: just the ids that some entry with a secret names, each with the fields of the last such
      entry and the defaults where that entry has none. */
  lemma LoadIsExact(loaded: map<string, LoadedTarget>, entries: seq<Target>, kubeconfig: string -> Option<ClusterId>,
                    id: string)
    requires IsLoadOf(loaded, entries, kubeconfig)
    ensures id in loaded <==> exists i :: IsLastNaming(entries, i, id)
    ensures forall i :: IsLastNaming(entries, i, id) ==>
      var t, e := loaded[id].target, entries[i];
      && t.id == id && t.kubeconfigSecret == e.kubeconfigSecret && loaded[id].rest == kubeconfig(e.kubeconfigSecret)
      && (if e.ns != "" then t.ns == e.ns else t.ns == "dlh-test-fw")
      && (if e.displayName != "" then t.displayName == e.displayName else t.displayName == id)
  {
    var last := LastFor(entries, id);
    assert (if id in loaded then Some(loaded[id]) else None) ==
      match last
      case None => None
      case Some(t) => Some(LoadedTarget(Defaulted(t), kubeconfig(t.kubeconfigSecret)));
    forall i, j | IsLastNaming(entries, i, id) && IsLastNaming(entries, j, id) ensures i == j {
      assert !(i < j) && !(j < i);
    }
  }

  /** Malformed entries are skipped, a later entry replaces an earlier one of the same id, a bad kubeconfig costs
      only itself. */
  method LoadEntries(entries: seq<Target>, kubeconfig: string -> Option<ClusterId>)
    returns (out: map<string, LoadedTarget>)
    ensures IsLoadOf(out, entries, kubeconfig)
    ensures IsRegister(out)
  {
    out := map[];
    for i := 0 to |entries|
      invariant IsLoadOf(out, entries[..i], kubeconfig)
      invariant IsRegister(out)
    {
      var t := entries[i];
      assert entries[..i + 1][..i] == entries[..i];
      if WellFormed(t) {
        out := out[t.id := LoadedTarget(Defaulted(t), kubeconfig(t.kubeconfigSecret))];
      }
    }
    assert entries[..|entries|] == entries;
  }

  class Registry {
    var loaded: map<string, LoadedTarget>

    constructor ()
      ensures loaded == map[]
    {
      loaded := map[];
    }

    method Get(id: string) returns (t: Option<LoadedTarget>)
      ensures t == if id in loaded then Some(loaded[id]) else None
    {
      t := if id in loaded then Some(loaded[id]) else None;
    }

    /** One entry per registered id, in the arbitrary order of a map walk. */
    method List() returns (out: seq<LoadedTarget>, ghost ids: seq<string>)
      ensures IsListing(ids, loaded.Keys)
      ensures out == Entries(ids, loaded)
    {
      out, ids := [], [];
      var left := loaded.Keys;
      while left != {}
        invariant left <= loaded.Keys
        invariant IsListing(ids, loaded.Keys - left)
        invariant out == Entries(ids, loaded)
        decreases left
      {
        var id :| id in left;
        out, ids := out + [loaded[id]], ids + [id];
        left := left - {id};
      }
      assert loaded.Keys - left == loaded.Keys;
    }

    method Replace(targets: map<string, LoadedTarget>)
      modifies this
      ensures loaded == targets
    {
      loaded := targets;
    }

    /** One refresh: a failed load keeps the targets known before. */
    method Refresh(source: Result<seq<Target>, Error>, kubeconfig: string -> Option<ClusterId>)
      modifies this
      ensures source.Failure? ==> loaded == old(loaded)
      ensures source.Success? ==> IsLoadOf(loaded, source.value, kubeconfig)
      ensures old(IsRegister(loaded)) ==> IsRegister(loaded)
    {
      if source.Success? {
        var targets := LoadEntries(source.value, kubeconfig);
        Replace(targets);
      }
    }
  }

  function Entries(ids: seq<string>, loaded: map<string, LoadedTarget>): seq<LoadedTarget>
    requires forall i :: 0 <= i < |ids| ==> ids[i] in loaded
  {
    seq(|ids|, i requires 0 <= i < |ids| => loaded[ids[i]])
  }
}
