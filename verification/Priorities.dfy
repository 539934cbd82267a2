/** Default priorities per scenario, from the settings page to the queue. */
module Priorities {
  import opened Wrappers
  import opened Argo
  import opened Strings
  import opened Queue
  import opened Sorting

  type Error = string

  /** What a config map says: values that are not integers are skipped. */
  function Overrides(data: map<string, string>): map<string, int> {
    map k | k in data && Atoi(data[k]).Some? :: Atoi(data[k]).value
  }

  function OverridesOf(data: Option<map<string, string>>): map<string, int> {
    if data.None? then map[] else Overrides(data.value)
  }

  function Put(data: Option<map<string, string>>, scenario: string, priority: int): Option<map<string, string>> {
    Some((if data.None? then map[] else data.value)[scenario := Itoa(priority)])
  }

  /** The override of a scenario, when there is one. */
  function DefaultOf(data: Option<map<string, string>>, scenario: string): Result<Option<int>, Error> {
    Success(if scenario in OverridesOf(data) then Some(OverridesOf(data)[scenario]) else None)
  }

  /** The store over one config map; `data` is None while the map does not exist. */
  class Store {
    var data: Option<map<string, string>>

    constructor (data: Option<map<string, string>>)
      ensures this.data == data
    {
      this.data := data;
    }

    method All(fault: Option<Error>) returns (r: Result<map<string, int>, Error>)
      ensures r == if fault.Some? then Failure(fault.value) else Success(OverridesOf(data))
      ensures r.Success? ==> forall k ::
        if data.Some? && k in data.value && Atoi(data.value[k]).Some?
        then k in r.value && Some(r.value[k]) == Atoi(data.value[k])
        else k !in r.value
    {
      if fault.Some? {
        return Failure(fault.value);
      }
      if data.None? {
        return Success(map[]);
      }
      var out: map<string, int> := map[];
      var left := data.value.Keys;
      while left != {}
        invariant left <= data.value.Keys
        invariant out == map k | k in data.value && k !in left && Atoi(data.value[k]).Some? :: Atoi(data.value[k]).value
        decreases left
      {
        var k :| k in left;
        var n := Atoi(data.value[k]);
        if n.Some? {
          out := out[k := n.value];
        }
        left := left - {k};
      }
      assert out == Overrides(data.value);
      return Success(out);
    }

    method Get(scenario: string, fault: Option<Error>) returns (r: Result<Option<int>, Error>)
      ensures r == if fault.Some? then Failure(fault.value) else DefaultOf(data, scenario)
    {
      var all := All(fault);
      if all.Failure? {
        return Failure(all.error);
      }
      return Success(if scenario in all.value then Some(all.value[scenario]) else None);
    }

    method Set(scenario: string, priority: int, readFault: Option<Error>, writeFault: Option<Error>)
      returns (err: Option<Error>)
      modifies this
      ensures err == if readFault.Some? then readFault else writeFault
      ensures data == if err.Some? then old(data) else Put(old(data), scenario, priority)
    {
      if readFault.Some? {
        return readFault;
      }
      if writeFault.Some? {
        return writeFault;
      }
      var now := if data.None? then map[] else data.value;
      data := Some(now[scenario := Itoa(priority)]);
      return None;
    }
  }

  datatype Template = Template(name: string, labels: map<string, string>, priority: Option<Int32>)

  predicate IsScenario(t: Template) {
    LabelOr(t.labels, "dlh.category", "") == "scenario"
  }

  /** Request first, then the default of the scenario, then what the template has baked in. */
  function ResolvePriority(requested: Option<int>, default: Result<Option<int>, Error>,
                           baked: Option<Int32>): Option<Int32> {
    if requested.Some? then Some(Wrap32(requested.value))
    else if default.Success? && default.value.Some? then Some(Wrap32(default.value.value))
    else baked
  }

  datatype Shown = Shown(scenario: string, baked: int, override: Option<int>, effective: int)

  function ShownFor(t: Template, overrides: map<string, int>): Shown {
    var baked := if t.priority.Some? then t.priority.value else 0;
    if t.name in overrides then Shown(t.name, baked, Some(overrides[t.name]), overrides[t.name])
    else Shown(t.name, baked, None, baked)
  }

  function ShownAll(ts: seq<Template>, overrides: map<string, int>): seq<Shown> {
    if ts == [] then []
    else
      var t := ts[|ts| - 1];
      ShownAll(ts[..|ts| - 1], overrides) + if IsScenario(t) then [ShownFor(t, overrides)] else []
  }

  /** A line of the settings page: what the template has baked in, none counting as zero, the override if there is
      one, and the override as the effective value, else the baked one. */
  predicate IsLineFor(item: Shown, t: Template, overrides: map<string, int>) {
    && item.scenario == t.name
    && (if t.priority.Some? then item.baked == t.priority.value else item.baked == 0)
    && (if t.name in overrides then item.override == Some(item.effective) && item.effective == overrides[t.name]
        else item.override == None && item.effective == item.baked)
  }

  /** The page has one line for each template of the scenario category, in their order, and no other. */
  lemma {:induction false} PageIsExact(ts: seq<Template>, overrides: map<string, int>)
    ensures var runnable := Filter(
                ts, (t: Template) => "dlh.category" in t.labels && t.labels["dlh.category"] == "scenario");
      && |ShownAll(ts, overrides)| == |runnable|
      && forall i :: 0 <= i < |runnable| ==> IsLineFor(ShownAll(ts, overrides)[i], runnable[i], overrides)
  {
    if ts != [] {
      PageIsExact(ts[..|ts| - 1], overrides);
    }
  }

  /** The settings page: every runnable scenario with its baked, overridden and effective priority. */
  method GetScenarioPriorities(store: Store, listed: Result<seq<Template>, Error>, fault: Option<Error>)
    returns (r: Result<seq<Shown>, Error>)
    ensures r == if listed.Failure? then Failure(listed.error)
                 else if fault.Some? then Failure(fault.value)
                 else Success(ShownAll(listed.value, OverridesOf(store.data)))
  {
    if listed.Failure? {
      return Failure(listed.error);
    }
    var ts := listed.value;
    var overrides := store.All(fault);
    if overrides.Failure? {
      return Failure(overrides.error);
    }
    var items: seq<Shown> := [];
    for i := 0 to |ts|
      invariant items == ShownAll(ts[..i], overrides.value)
    {
      assert ts[..i + 1][..i] == ts[..i];
      if IsScenario(ts[i]) {
        var baked := 0;
        if ts[i].priority.Some? {
          baked := ts[i].priority.value;
        }
        var sp := Shown(ts[i].name, baked, None, baked);
        if ts[i].name in overrides.value {
          sp := sp.(override := Some(overrides.value[ts[i].name]), effective := overrides.value[ts[i].name]);
        }
        items := items + [sp];
      }
    }
    assert ts[..|ts|] == ts;
    return Success(items);
  }

  datatype PutResponse = BadRequest | NotFound | Fault(error: Error) | Done(shown: Shown)

  /** A changed default: the answer is what the settings page shows from then on. */
  method PutScenarioPriority(store: Store, id: string, body: Option<int>, lookup: Result<Option<Template>, Error>,
                             readFault: Option<Error>, writeFault: Option<Error>) returns (r: PutResponse)
    requires lookup.Success? && lookup.value.Some? ==> lookup.value.value.name == id
    requires body.Some? ==> INT64_MIN <= body.value <= INT64_MAX
    modifies store
    ensures r.Done? <==> body.Some? && lookup.Success? && lookup.value.Some? && readFault.None? && writeFault.None?
    ensures !r.Done? ==> store.data == old(store.data)
    ensures r.BadRequest? <==> body.None?
    ensures r.NotFound? <==> body.Some? && lookup.Success? && lookup.value.None?
    ensures r.Done? ==>
      && OverridesOf(store.data) == OverridesOf(old(store.data))[id := body.value]
      && r.shown == ShownFor(lookup.value.value, OverridesOf(store.data))
      && IsLineFor(r.shown, lookup.value.value, OverridesOf(store.data)) && r.shown.effective == body.value
  {
    if body.None? {
      return BadRequest;
    }
    if lookup.Failure? {
      return Fault(lookup.error);
    }
    if lookup.value.None? {
      return NotFound;
    }
    var err := store.Set(id, body.value, readFault, writeFault);
    if err.Some? {
      return Fault(err.value);
    }
    PutReadsBack(old(store.data), id, body.value);
    var baked := 0;
    if lookup.value.value.priority.Some? {
      baked := lookup.value.value.priority.value;
    }
    return Done(Shown(id, baked, body, body.value));
  }

  predicate IsInt32(n: int) {
    -0x8000_0000 <= n < 0x8000_0000
  }

  /** What a submit brings or draws besides the scenario and the priority. */
  datatype Details = Details(runId: string, target: string, createdBy: string, arguments: seq<Parameter>, created: int)

  /** The workflow a submit creates. */
  function Submitted(scenario: string, d: Details, priority: Option<Int32>): Workflow {
    var labels := map["dlh.scenario" := scenario, "dlh.run-id" := d.runId];
    Workflow(d.runId, if d.target != "" then labels["dlh.target" := d.target] else labels,
             map["dlh.created-by" := d.createdBy], d.created, d.arguments,
             Some(scenario), priority, None, "", None, None)
  }

  /** A run of `t` submitted without a priority of its own while the config map is readable. */
  function SubmittedFor(t: Template, data: Option<map<string, string>>, d: Details): Workflow {
    Submitted(t.name, d, ResolvePriority(None, DefaultOf(data, t.name), t.priority))
  }

  /** The priority shown for a scenario is the one its next run queues with, exactly when its override, if it has
      one, fits the 32 bits of a workflow's priority. */
  lemma ShownIsQueuedIff(t: Template, data: Option<map<string, string>>, d: Details)
    ensures ShownFor(t, OverridesOf(data)).effective == PrioVal(EntryOf(SubmittedFor(t, data, d)))
        <==> (t.name in OverridesOf(data) ==> IsInt32(OverridesOf(data)[t.name]))
  {
  }

  datatype Setting = Setting(scenario: string, priority: int)

  function AfterSets(data: Option<map<string, string>>, sets: seq<Setting>): Option<map<string, string>> {
    if sets == [] then data
    else Put(AfterSets(data, sets[..|sets| - 1]), sets[|sets| - 1].scenario, sets[|sets| - 1].priority)
  }

  /** The value of the last setting for a scenario. */
  function LastSet(sets: seq<Setting>, scenario: string): Option<int> {
    if sets == [] then None
    else if sets[|sets| - 1].scenario == scenario then Some(sets[|sets| - 1].priority)
    else LastSet(sets[..|sets| - 1], scenario)
  }

  lemma PutReadsBack(data: Option<map<string, string>>, scenario: string, priority: int)
    requires INT64_MIN <= priority <= INT64_MAX
    ensures OverridesOf(Put(data, scenario, priority)) == OverridesOf(data)[scenario := priority]
  {
    AtoiItoa(priority);
  }

  /** Settings are read back as they were made, and leave the other scenarios alone. */
  lemma {:induction false} SetsReadBack(data: Option<map<string, string>>, sets: seq<Setting>, scenario: string)
    requires forall i :: 0 <= i < |sets| ==> INT64_MIN <= sets[i].priority <= INT64_MAX
    ensures var now, before := OverridesOf(AfterSets(data, sets)), OverridesOf(data);
      match LastSet(sets, scenario)
      case Some(p) => scenario in now && now[scenario] == p
      case None => (scenario in now <==> scenario in before) && (scenario in now ==> now[scenario] == before[scenario])
  {
    if sets != [] {
      var n := |sets| - 1;
      SetsReadBack(data, sets[..n], scenario);
      PutReadsBack(AfterSets(data, sets[..n]), sets[n].scenario, sets[n].priority);
    }
  }

  /** Shown is queued: starting from a config map whose overrides fit, after any settings that fit, every scenario's
      shown priority is the one its next run is listed with. */
  lemma ShownIsQueued(data: Option<map<string, string>>, sets: seq<Setting>, t: Template, d: Details)
    requires forall k :: k in OverridesOf(data) ==> IsInt32(OverridesOf(data)[k])
    requires forall i :: 0 <= i < |sets| ==> IsInt32(sets[i].priority)
    ensures var now := AfterSets(data, sets);
      ShownFor(t, OverridesOf(now)).effective == PrioVal(EntryOf(SubmittedFor(t, now, d)))
  {
    SetsReadBack(data, sets, t.name);
    LastSetIsSet(sets, t.name);
    ShownIsQueuedIff(t, AfterSets(data, sets), d);
  }

  lemma {:induction false} LastSetIsSet(sets: seq<Setting>, scenario: string)
    ensures LastSet(sets, scenario).Some? ==>
        exists i :: 0 <= i < |sets| && sets[i].priority == LastSet(sets, scenario).value
  {
    if sets != [] {
      LastSetIsSet(sets[..|sets| - 1], scenario);
      if sets[|sets| - 1].scenario != scenario && LastSet(sets, scenario).Some? {
        var i :| 0 <= i < |sets[..|sets| - 1]| && sets[..|sets| - 1][i].priority == LastSet(sets, scenario).value;
        assert sets[i].priority == LastSet(sets, scenario).value;
      }
    }
  }

  /** What the next run queues with. */
  lemma QueuedPriority(t: Template, data: Option<map<string, string>>, d: Details)
    ensures PrioVal(EntryOf(SubmittedFor(t, data, d)))
         == if t.name in OverridesOf(data) then Wrap32(OverridesOf(data)[t.name])
            else if t.priority.Some? then t.priority.value
            else 0
  {
  }

  lemma OverflowingOverride(t: Template, data: Option<map<string, string>>, d: Details)
    requires t.name in OverridesOf(data) && OverridesOf(data)[t.name] == 0x8000_0000
    ensures ShownFor(t, OverridesOf(data)).effective == 0x8000_0000
    ensures PrioVal(EntryOf(SubmittedFor(t, data, d))) == -0x8000_0000
  {
    QueuedPriority(t, data, d);
    assert Wrap32(0x8000_0000) == -0x8000_0000;
  }

  /** The mismatch a caller can bring about: a default of 2^31 is shown as such, but its runs queue at -2^31. */
  lemma OverflowingDefault(t: Template, d: Details)
    ensures var data := Put(None, t.name, 0x8000_0000);
      && ShownFor(t, OverridesOf(data)).effective == 0x8000_0000
      && PrioVal(EntryOf(SubmittedFor(t, data, d))) == -0x8000_0000
  {
    PutReadsBack(None, t.name, 0x8000_0000);
    OverflowingOverride(t, Put(None, t.name, 0x8000_0000), d);
  }
}
