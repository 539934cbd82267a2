/** The Kubernetes API servers as the chaos clients see them. */
module Kube {
  import opened Wrappers

  type ClusterId = string
  type Error = string

  datatype Gvr = Gvr(group: string, version: string, resource: string)

  datatype Ref = Ref(gvr: Gvr, ns: string, name: string)

  /** Who made an object. Bookkeeping of the model: no operation reads it. */
  datatype Origin = Foreign | Ours(runId: string, targetId: string)

  datatype Object = Object(labels: map<string, string>, origin: Origin)

  type Objects = map<Ref, Object>
  type Clusters = map<ClusterId, Objects>

  function At(cs: Clusters, id: ClusterId): Objects {
    if id in cs then cs[id] else map[]
  }

  /** `cs` after the objects in `doomed` have left cluster `id`. */
  function Without(cs: Clusters, id: ClusterId, doomed: set<Ref>): Clusters {
    if id in cs then cs[id := cs[id] - doomed] else cs
  }

  function With(cs: Clusters, id: ClusterId, ref: Ref, o: Object): Clusters {
    cs[id := At(cs, id)[ref := o]]
  }

  /** A label selector of the form key=value. */
  predicate Matches(o: Object, key: string, value: string) {
    key in o.labels && o.labels[key] == value
  }

  function Selected(objs: Objects, gvr: Gvr, ns: string, key: string, value: string): set<Ref> {
    set ref | ref in objs && ref.gvr == gvr && ref.ns == ns && Matches(objs[ref], key, value)
  }

  /** All clusters together. A fault passed to a call is the error the environment makes it return. */
  class Cloud {
    var clusters: Clusters

    constructor (initial: Clusters)
      ensures clusters == initial
    {
      clusters := initial;
    }

    /** Items come back in an order the server chooses. */
    method List(id: ClusterId, gvr: Gvr, ns: string, key: string, value: string, fault: Option<Error>)
      returns (r: Result<seq<Ref>, Error>)
      ensures fault.Some? ==> r == Failure(fault.value)
      ensures fault.None? ==> r.Success? && IsListing(r.value, Selected(At(clusters, id), gvr, ns, key, value))
    {
      if fault.Some? {
        return Failure(fault.value);
      }
      var all := Selected(At(clusters, id), gvr, ns, key, value);
      var left := all;
      var out := [];
      while left != {}
        invariant left <= all
        invariant IsListing(out, all - left)
        decreases left
      {
        var ref :| ref in left;
        out := out + [ref];
        left := left - {ref};
      }
      assert all - left == all;
      return Success(out);
    }

    /** Deleting an absent object is a NotFound, which callers treat as success. */
    method Delete(id: ClusterId, ref: Ref, fault: Option<Error>) returns (err: Option<Error>)
      modifies this
      ensures err == fault
      ensures clusters == Without(old(clusters), id, if fault.None? then {ref} else {})
    {
      if fault.None? && id in clusters {
        clusters := clusters[id := clusters[id] - {ref}];
      } else if id in clusters {
        assert clusters[id] - {} == clusters[id];
        assert clusters[id := clusters[id]] == clusters;
      }
      err := fault;
    }

    method Create(id: ClusterId, ref: Ref, o: Object) returns (err: Option<Error>)
      modifies this
      ensures err.None? <==> ref !in At(old(clusters), id)
      ensures clusters == if err.None? then With(old(clusters), id, ref, o) else old(clusters)
    {
      if ref in At(clusters, id) {
        return Some("AlreadyExists");
      }
      clusters := With(clusters, id, ref, o);
      err := None;
    }
  }
}
