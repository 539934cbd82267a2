/** Workflow objects as the control plane reads them, and the events the informer makes of them. */
module Argo {
  import opened Wrappers

  type Int32 = n: int | -0x8000_0000 <= n < 0x8000_0000

  /** Go's conversion to int32: the low 32 bits. */
  function Wrap32(n: int): (r: Int32)
    ensures r == n <==> -0x8000_0000 <= n < 0x8000_0000
    ensures (r - n) % 0x1_0000_0000 == 0
  {
    (n + 0x8000_0000) % 0x1_0000_0000 - 0x8000_0000
  }

  /** The lock names a workflow's status says it holds and waits for. */
  datatype Semaphore = Semaphore(holding: seq<string>, waiting: seq<string>)

  datatype Parameter = Parameter(name: string, value: string)

  /** Times are instants on an unbounded integer clock; `finished` is None for the zero time. */
  datatype Workflow = Workflow(
    name: string, labels: map<string, string>, annotations: map<string, string>,
    created: int, arguments: seq<Parameter>,
    template: Option<string>, priority: Option<Int32>, shutdown: Option<string>,
    phase: string, finished: Option<int>, semaphore: Option<Semaphore>)

  datatype Kind = ADDED | MODIFIED | DELETED

  datatype Event = Event(kind: Kind, workflow: Option<Workflow>)

  type Cache = map<string, Workflow>

  /** What the informer learns: a new or changed workflow, a deletion it watched, a deletion it only finds out about
      when it lists anew, or the turn of a cached workflow in a resync round. */
  datatype Change = Update(workflow: Workflow) | Remove(name: string) | Vanish(name: string) | Resync(name: string)

  /** The cache after a change. */
  function Cached(cache: Cache, ch: Change): Cache {
    match ch
    case Update(w) => cache[w.name := w]
    case Remove(name) => cache - {name}
    case Vanish(name) => cache - {name}
    case Resync(_) => cache
  }

  /** The event a change is announced with, after the cache has taken it over. A deletion found by a new list comes
      as a marker that is no workflow object; the handler drops it, so it is not announced at all. */
  function NewsOf(cache: Cache, ch: Change): seq<Event> {
    match ch
    case Update(w) => [Event(if w.name in cache then MODIFIED else ADDED, Some(w))]
    case Remove(name) => if name in cache then [Event(DELETED, Some(cache[name]))] else []
    case Vanish(_) => []
    case Resync(name) => if name in cache then [Event(MODIFIED, Some(cache[name]))] else []
  }

  /** What an announcement tells: DELETED when the workflow has left the cache, with its last state; ADDED when it
      is new there and MODIFIED when it was there before, with its present state. */
  lemma NewsTells(cache: Cache, ch: Change, ev: Event)
    requires IsKeyed(cache) && ev in NewsOf(cache, ch)
    ensures ev.workflow.Some?
    ensures var w, now := ev.workflow.value, Cached(cache, ch);
      match ev.kind
      case ADDED => w.name !in cache && w.name in now && now[w.name] == w
      case MODIFIED => w.name in cache && w.name in now && now[w.name] == w
      case DELETED => w.name in cache && w.name !in now && cache[w.name] == w
  {
  }

  predicate IsKeyed(cache: Cache) {
    forall name :: name in cache ==> cache[name].name == name
  }

  function LabelOr(labels: map<string, string>, key: string, default: string): string {
    if key in labels then labels[key] else default
  }
}
