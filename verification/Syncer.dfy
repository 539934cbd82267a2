/** The writer that turns workflow events into run manifests. */
module Syncer {
  import opened Wrappers
  import opened Argo
  import Fanout
  import opened Reports

  const RUN_ID := "dlh.run-id"

  datatype Manifest = Manifest(
    runId: string, scenario: string, target: string, workflowName: string, parameters: map<string, string>,
    createdBy: string, status: string, started: int, finished: Option<int>, score: Option<real>)

  function RunIdOf(w: Workflow): string {
    LabelOr(w.labels, RUN_ID, w.name)
  }

  /** A phase as a manifest shows it. */
  predicate IsShownAs(phase: string, status: string) {
    status == phase != "" || (phase == "" && status == "Pending")
  }

  function StatusOf(w: Workflow): (status: string)
    ensures IsShownAs(w.phase, status)
  {
    if w.phase == "" then "Pending" else w.phase
  }

  function ManifestOf(w: Workflow, a: Answer): Manifest {
    Manifest(
      RunIdOf(w), LabelOr(w.labels, "dlh.scenario", ""), LabelOr(w.labels, "dlh.target", ""), w.name, map[], "",
      StatusOf(w), w.created, w.finished, if w.finished.Some? then ReadScore(a) else None)
  }

  /** What reaches the manifests: an event with what the environment answers while the syncer handles it, namely the
      report read and whether the write is accepted; or a manifest that someone else stores, as the handler that
      submits a run does. */
  datatype Input = Input(ev: Event, a: Answer, accepted: bool) | Foreign(manifest: Manifest)

  /** `log` lists the manifests that the syncer stored, in order. */
  datatype Sync = Sync(last: map<string, string>, stored: map<string, Manifest>, log: seq<Manifest>)

  function Handled(s: Sync, x: Input): Sync {
    if x.Foreign? then s.(stored := s.stored[x.manifest.runId := x.manifest])
    else if x.ev.workflow.None? then s
    else
      var w := x.ev.workflow.value;
      var run, status := RunIdOf(w), StatusOf(w);
      var s1 := s.(last := s.last[run := status]);
      if run in s.last && s.last[run] == status && x.ev.kind != DELETED then s1
      else if !x.accepted then s1
      else s1.(stored := s.stored[run := ManifestOf(w, x.a)], log := s.log + [ManifestOf(w, x.a)])
  }

  /** The store of manifests; a write may be refused. */
  class Sink {
    var stored: map<string, Manifest>
    ghost var log: seq<Manifest>

    constructor (initial: map<string, Manifest>)
      ensures stored == initial && log == []
    {
      stored, log := initial, [];
    }

    method Write(m: Manifest, accepted: bool) returns (ok: bool)
      modifies this
      ensures ok == accepted
      ensures stored == if ok then old(stored)[m.runId := m] else old(stored)
      ensures log == if ok then old(log) + [m] else old(log)
    {
      if accepted {
        stored, log := stored[m.runId := m], log + [m];
      }
      ok := accepted;
    }
  }

  class Syncer {
    const sink: Sink
    var last: map<string, string>

    ghost function State(): Sync
      reads this, sink
    {
      Sync(last, sink.stored, sink.log)
    }

    constructor (sink: Sink)
      ensures this.sink == sink && last == map[]
    {
      this.sink, last := sink, map[];
    }

    /** The status is remembered before the write, and a refused write is not repeated. */
    method Handle(x: Input)
      requires x.Input?
      modifies this, sink
      ensures State() == Handled(old(State()), x)
    {
      if x.ev.workflow.None? {
        return;
      }
      var w := x.ev.workflow.value;
      var run := LabelOr(w.labels, RUN_ID, w.name);
      var status := w.phase;
      if status == "" {
        status := "Pending";
      }
      var prev := if run in last then last[run] else "";
      last := last[run := status];
      if prev == status && x.ev.kind != DELETED {
        return;
      }
      var scenario, target := LabelOr(w.labels, "dlh.scenario", ""), LabelOr(w.labels, "dlh.target", "");
      var m := Manifest(run, scenario, target, w.name, map[], "", status, w.created, None, None);
      if w.finished.Some? {
        m := m.(finished := w.finished);
        var score := ReadScore(x.a);
        if score.Some? {
          m := m.(score := score);
        }
      }
      var ok := sink.Write(m, x.accepted);
    }
  }

  /** What one event does: the status shown for its phase is remembered for its run, and if that is news, or the run
      is deleted, a manifest that records the workflow is stored, unless the write is refused. */
  lemma HandledIsExact(s: Sync, x: Input, run: string)
    requires x.Input? && IsOf(x.ev, run)
    ensures var s', w := Handled(s, x), x.ev.workflow.value;
      && run in s'.last && IsShownAs(w.phase, s'.last[run]) && s'.last == s.last[run := s'.last[run]]
      && (if x.accepted && (x.ev.kind == DELETED || run !in s.last || !IsShownAs(w.phase, s.last[run]))
          then run in s'.stored && Records(s'.stored[run], w, x.a) && s'.stored == s.stored[run := s'.stored[run]]
            && s'.log == s.log + [s'.stored[run]]
          else s'.stored == s.stored && s'.log == s.log)
  {
  }

  /** Two events of one run with different phases are both on record once their writes are accepted: the later one
      changes the status even if other runs' events come between. */
  lemma PhaseChangeIsWritten(s: Sync, xs: seq<Input>, i: nat, run: string)
    requires i < |xs| - 1 && xs[i].Input? && IsOf(xs[i].ev, run)
    requires var x := xs[|xs| - 1]; x.Input? && IsOf(x.ev, run) && x.accepted
    requires forall j :: i < j < |xs| - 1 ==> !(xs[j].Input? && IsOf(xs[j].ev, run))
    requires xs[i].ev.workflow.value.phase != xs[|xs| - 1].ev.workflow.value.phase
    requires xs[i].ev.workflow.value.phase != "" && xs[|xs| - 1].ev.workflow.value.phase != ""
    ensures var x, s' := xs[|xs| - 1], HandledAll(s, xs);
      && run in s'.stored && Records(s'.stored[run], x.ev.workflow.value, x.a)
      && s'.stored[run].status == x.ev.workflow.value.phase
      && s'.log == HandledAll(s, xs[..|xs| - 1]).log + [s'.stored[run]]
  {
    var n := |xs| - 1;
    RemembersUntil(s, xs[..n], i, run);
    HandledIsExact(HandledAll(s, xs[..n]), xs[n], run);
  }

  lemma {:induction false} RemembersUntil(s: Sync, xs: seq<Input>, i: nat, run: string)
    requires i < |xs| && xs[i].Input? && IsOf(xs[i].ev, run)
    requires forall j :: i < j < |xs| ==> !(xs[j].Input? && IsOf(xs[j].ev, run))
    ensures var last := HandledAll(s, xs).last;
      run in last && IsShownAs(xs[i].ev.workflow.value.phase, last[run])
  {
    var n := |xs| - 1;
    InputIsRemembered(HandledAll(s, xs[..n]), xs[n], run);
    if i < n {
      RemembersUntil(s, xs[..n], i, run);
    }
  }

  function HandledAll(s: Sync, xs: seq<Input>): Sync {
    if xs == [] then s else Handled(HandledAll(s, xs[..|xs| - 1]), xs[|xs| - 1])
  }

  /** The events the syncer handled. */
  function EventsOf(xs: seq<Input>): seq<Event> {
    if xs == [] then []
    else if xs[|xs| - 1].Input? then EventsOf(xs[..|xs| - 1]) + [xs[|xs| - 1].ev]
    else EventsOf(xs[..|xs| - 1])
  }

  /** The event is about a workflow of this run: its run-id label says so, or without that label its name does. */
  predicate IsOf(ev: Event, run: string) {
    && ev.workflow.Some?
    && var w := ev.workflow.value;
       if "dlh.run-id" in w.labels then w.labels["dlh.run-id"] == run else w.name == run
  }

  /** The manifest tells all there is to tell about the workflow, with the score of the report once it has finished. */
  ghost predicate Records(m: Manifest, w: Workflow, a: Answer) {
    && IsOf(Event(ADDED, Some(w)), m.runId) && IsShownAs(w.phase, m.status)
    && m.workflowName == w.name && m.started == w.created && m.finished == w.finished
    && (if "dlh.scenario" in w.labels then m.scenario == w.labels["dlh.scenario"] else m.scenario == "")
    && (if "dlh.target" in w.labels then m.target == w.labels["dlh.target"] else m.target == "")
    && m.parameters == map[] && m.createdBy == ""
    && (w.finished.Some? && a == Found(Report(Some(true))) ==> m.score == Some(1.0))
    && (w.finished.Some? && a == Found(Report(Some(false))) ==> m.score == Some(0.0))
    && (w.finished.None? || !a.Found? || a.report.overall.None? ==> m.score.None?)
  }

  /** The status at the last event of `run`, read off the events, or off what is remembered from before them. */
  function LastStatus(last: map<string, string>, evs: seq<Event>, run: string): Option<string> {
    if evs == [] then (if run in last then Some(last[run]) else None)
    else if IsOf(evs[|evs| - 1], run) then
      Some(StatusOf(evs[|evs| - 1].workflow.value))
    else LastStatus(last, evs[..|evs| - 1], run)
  }

  /** An input is due for a write: the first event of its run, a change of status, or a deletion. */
  predicate IsDueAfter(last: map<string, string>, before: seq<Event>, x: Input, run: string) {
    && x.Input? && IsOf(x.ev, run)
    && (x.ev.kind == DELETED || LastStatus(last, before, run).None? ||
        !IsShownAs(x.ev.workflow.value.phase, LastStatus(last, before, run).value))
  }

  predicate IsDue(last: map<string, string>, xs: seq<Input>, i: int, run: string) {
    0 <= i < |xs| && IsDueAfter(last, EventsOf(xs[..i]), xs[i], run)
  }

  function Due(last: map<string, string>, xs: seq<Input>, run: string): seq<Manifest> {
    if xs == [] then []
    else
      var before, x := xs[..|xs| - 1], xs[|xs| - 1];
      if IsDueAfter(last, EventsOf(before), x, run) then Due(last, before, run) + [ManifestOf(x.ev.workflow.value, x.a)]
      else Due(last, before, run)
  }

  function LogOf(log: seq<Manifest>, run: string): seq<Manifest> {
    if log == [] then []
    else if log[|log| - 1].runId == run then LogOf(log[..|log| - 1], run) + [log[|log| - 1]]
    else LogOf(log[..|log| - 1], run)
  }

  predicate AllAccepted(xs: seq<Input>) {
    forall i :: 0 <= i < |xs| && xs[i].Input? ==> xs[i].accepted
  }

  lemma EventsSnoc(xs: seq<Input>, x: Input)
    ensures EventsOf(xs + [x]) == if x.Input? then EventsOf(xs) + [x.ev] else EventsOf(xs)
  {
    assert (xs + [x])[..|xs|] == xs;
  }

  lemma LastStatusSnoc(last: map<string, string>, evs: seq<Event>, ev: Event, run: string)
    ensures LastStatus(last, evs + [ev], run)
         == if IsOf(ev, run) then Some(StatusOf(ev.workflow.value)) else LastStatus(last, evs, run)
  {
    assert (evs + [ev])[..|evs|] == evs;
  }

  /** Whatever writes fail and whoever else writes, the syncer remembers the status of each run's last event. */
  lemma {:induction false} RemembersLast(s: Sync, xs: seq<Input>, run: string)
    ensures LastStatus(s.last, EventsOf(xs), run)
         == if run in HandledAll(s, xs).last then Some(HandledAll(s, xs).last[run]) else None
  {
    if xs != [] {
      var before, x := xs[..|xs| - 1], xs[|xs| - 1];
      RemembersLast(s, before, run);
      InputIsRemembered(HandledAll(s, before), x, run);
      if x.Input? {
        LastStatusSnoc(s.last, EventsOf(before), x.ev, run);
      }
    }
  }

  lemma InputIsRemembered(s: Sync, x: Input, run: string)
    ensures var last := Handled(s, x).last;
      if x.Input? && IsOf(x.ev, run) then run in last && IsShownAs(x.ev.workflow.value.phase, last[run])
      else (run in last <==> run in s.last) && (run in last ==> last[run] == s.last[run])
  {
  }

  /** What one input does to the manifest of a run. */
  lemma InputWrites(s: Sync, before: seq<Event>, last: map<string, string>, x: Input, run: string)
    requires LastStatus(last, before, run) == if run in s.last then Some(s.last[run]) else None
    ensures StoredAt(Handled(s, x).stored, run) ==
      if IsDueAfter(last, before, x, run) && x.accepted then Some(ManifestOf(x.ev.workflow.value, x.a))
      else if IsForeign(x, run) then Some(x.manifest)
      else StoredAt(s.stored, run)
  {
  }

  function StoredAt(stored: map<string, Manifest>, run: string): Option<Manifest> {
    if run in stored then Some(stored[run]) else None
  }

  predicate IsForeign(x: Input, run: string) {
    x.Foreign? && x.manifest.runId == run
  }

  lemma LogSnoc(log: seq<Manifest>, m: Manifest, run: string)
    ensures LogOf(log + [m], run) == if m.runId == run then LogOf(log, run) + [m] else LogOf(log, run)
  {
    assert (log + [m])[..|log|] == log;
  }

  lemma InputLogs(s: Sync, before: seq<Event>, last: map<string, string>, x: Input, run: string)
    requires LastStatus(last, before, run) == if run in s.last then Some(s.last[run]) else None
    requires x.Input? ==> x.accepted
    ensures LogOf(Handled(s, x).log, run)
         == if IsDueAfter(last, before, x, run) then LogOf(s.log, run) + [ManifestOf(x.ev.workflow.value, x.a)]
            else LogOf(s.log, run)
  {
    if x.Input? && x.ev.workflow.Some? {
      LogSnoc(s.log, ManifestOf(x.ev.workflow.value, x.a), run);
    }
  }

  lemma {:induction false} LogIsDue(s: Sync, xs: seq<Input>, run: string)
    requires AllAccepted(xs)
    ensures LogOf(HandledAll(s, xs).log, run) == LogOf(s.log, run) + Due(s.last, xs, run)
  {
    if xs != [] {
      var before, x := xs[..|xs| - 1], xs[|xs| - 1];
      LogIsDue(s, before, run);
      RemembersLast(s, before, run);
      InputLogs(HandledAll(s, before), EventsOf(before), s.last, x, run);
    }
  }

  /** Input `i` writes the manifest of `run`, or tries to: it is due, or another writer's. */
  predicate IsTouch(last: map<string, string>, xs: seq<Input>, i: int, run: string) {
    0 <= i < |xs| && (IsDue(last, xs, i, run) || IsForeign(xs[i], run))
  }

  ghost predicate IsLastTouch(last: map<string, string>, xs: seq<Input>, k: int, run: string) {
    IsTouch(last, xs, k, run) && forall i :: k < i < |xs| ==> !IsTouch(last, xs, i, run)
  }

  ghost predicate IsUntouched(last: map<string, string>, xs: seq<Input>, run: string) {
    forall i :: 0 <= i < |xs| ==> !IsTouch(last, xs, i, run)
  }

  lemma TouchInFront(last: map<string, string>, xs: seq<Input>, n: nat, i: int, run: string)
    requires i < n <= |xs|
    ensures IsTouch(last, xs[..n], i, run) <==> IsTouch(last, xs, i, run)
  {
    if 0 <= i {
      assert xs[..n][..i] == xs[..i];
    }
  }

  lemma UntouchedStep(s: Sync, xs: seq<Input>, run: string)
    requires xs != [] && !IsTouch(s.last, xs, |xs| - 1, run)
    ensures var before := xs[..|xs| - 1];
      && StoredAt(HandledAll(s, xs).stored, run) == StoredAt(HandledAll(s, before).stored, run)
      && LastStatus(s.last, EventsOf(xs), run) == LastStatus(s.last, EventsOf(before), run)
  {
    var before, x := xs[..|xs| - 1], xs[|xs| - 1];
    RemembersLast(s, before, run);
    InputWrites(HandledAll(s, before), EventsOf(before), s.last, x, run);
    if x.Input? {
      LastStatusSnoc(s.last, EventsOf(before), x.ev, run);
    }
  }

  /** Without a touch since input `k`, neither the stored manifest nor the remembered status of the run changes. */
  lemma {:induction false} UntouchedStays(s: Sync, xs: seq<Input>, k: nat, run: string)
    requires k <= |xs| && forall i :: k <= i < |xs| ==> !IsTouch(s.last, xs, i, run)
    ensures StoredAt(HandledAll(s, xs).stored, run) == StoredAt(HandledAll(s, xs[..k]).stored, run)
    ensures LastStatus(s.last, EventsOf(xs), run) == LastStatus(s.last, EventsOf(xs[..k]), run)
  {
    var n := |xs| - 1;
    if k <= n {
      UntouchedStep(s, xs, run);
      forall i | k <= i < n ensures !IsTouch(s.last, xs[..n], i, run) {
        TouchInFront(s.last, xs, n, i, run);
      }
      UntouchedStays(s, xs[..n], k, run);
      assert xs[..n][..k] == xs[..k];
    } else {
      assert xs[..k] == xs;
    }
  }

  /** What a touch leaves behind. */
  lemma TouchWrites(s: Sync, before: seq<Input>, x: Input, run: string)
    requires IsDueAfter(s.last, EventsOf(before), x, run) || IsForeign(x, run)
    ensures StoredAt(HandledAll(s, before + [x]).stored, run) ==
      if x.Foreign? then Some(x.manifest)
      else if x.accepted then Some(ManifestOf(x.ev.workflow.value, x.a))
      else StoredAt(HandledAll(s, before).stored, run)
  {
    assert (before + [x])[..|before|] == before;
    RemembersLast(s, before, run);
    InputWrites(HandledAll(s, before), EventsOf(before), s.last, x, run);
  }

  lemma TouchTells(last: map<string, string>, before: seq<Input>, x: Input, run: string)
    requires IsDueAfter(last, EventsOf(before), x, run) || IsForeign(x, run)
    ensures LastStatus(last, EventsOf(before + [x]), run) ==
      if x.Foreign? then LastStatus(last, EventsOf(before), run) else Some(StatusOf(x.ev.workflow.value))
  {
    EventsSnoc(before, x);
    if x.Input? {
      LastStatusSnoc(last, EventsOf(before), x.ev, run);
    }
  }

  lemma OneMore(xs: seq<Input>, k: nat)
    requires k < |xs|
    ensures xs[..k + 1] == xs[..k] + [xs[k]]
  {
  }

  /** After the last touch the stored manifest stands: the due one if it was accepted, the other writer's, or, after a
      refused write, the one from before. */
  lemma StuckAfterLastTouch(s: Sync, xs: seq<Input>, k: nat, run: string)
    requires IsLastTouch(s.last, xs, k, run)
    ensures StoredAt(HandledAll(s, xs).stored, run) ==
      if xs[k].Foreign? then Some(xs[k].manifest)
      else if xs[k].accepted then Some(ManifestOf(xs[k].ev.workflow.value, xs[k].a))
      else StoredAt(HandledAll(s, xs[..k]).stored, run)
  {
    OneMore(xs, k);
    UntouchedStays(s, xs, k + 1, run);
    TouchWrites(s, xs[..k], xs[k], run);
  }

  /** And the remembered status is that of the due event, or what it was before the other writer came. */
  lemma StatusAfterLastTouch(s: Sync, xs: seq<Input>, k: nat, run: string)
    requires IsLastTouch(s.last, xs, k, run)
    ensures LastStatus(s.last, EventsOf(xs), run) ==
      if xs[k].Foreign? then LastStatus(s.last, EventsOf(xs[..k]), run) else Some(StatusOf(xs[k].ev.workflow.value))
  {
    OneMore(xs, k);
    UntouchedStays(s, xs, k + 1, run);
    TouchTells(s.last, xs[..k], xs[k], run);
  }

  /** The manifest of the run is there and has this status. */
  predicate Shows(stored: map<string, Manifest>, run: string, status: Option<string>) {
    run in stored && Some(stored[run].status) == status
  }

  /** What the syncer remembers of the run is what is stored. */
  predicate AgreesAt(s: Sync, run: string) {
    run in s.last && Shows(s.stored, run, Some(s.last[run]))
  }

  /** With writes that may be refused and other writers, the stored status is current exactly when the last touch
      was an accepted write, another writer's manifest of that very status, or a refused write over a manifest that
      happened to have it. A refused write is never made up for, and a foreign one not before the next event that is
      due. */
  lemma CurrentIffLastTouchFits(s: Sync, xs: seq<Input>, k: nat, run: string)
    requires IsLastTouch(s.last, xs, k, run)
    ensures Shows(HandledAll(s, xs).stored, run, LastStatus(s.last, EventsOf(xs), run)) <==>
      if xs[k].Foreign? then LastStatus(s.last, EventsOf(xs[..k]), run) == Some(xs[k].manifest.status)
      else xs[k].accepted || Shows(HandledAll(s, xs[..k]).stored, run, Some(StatusOf(xs[k].ev.workflow.value)))
  {
    StuckAfterLastTouch(s, xs, k, run);
    StatusAfterLastTouch(s, xs, k, run);
  }

  /** The last word on the manifest of the run is wrong: another writer wrote a different status after all that was
      due, or nothing was due and it was wrong before. */
  ghost predicate IsStale(s: Sync, xs: seq<Input>, run: string) {
    || (IsUntouched(s.last, xs, run) && !AgreesAt(s, run))
    || exists k :: IsLastTouch(s.last, xs, k, run) && xs[k].Foreign?
                && LastStatus(s.last, EventsOf(xs[..k]), run) != Some(xs[k].manifest.status)
  }

  lemma {:induction false} SomeLastTouch(last: map<string, string>, xs: seq<Input>, run: string, n: nat)
    returns (k: int)
    requires n <= |xs| && forall i :: n <= i < |xs| ==> !IsTouch(last, xs, i, run)
    ensures if k == -1 then IsUntouched(last, xs, run) else IsLastTouch(last, xs, k, run)
  {
    if n == 0 {
      k := -1;
    } else if IsTouch(last, xs, n - 1, run) {
      k := n - 1;
    } else {
      k := SomeLastTouch(last, xs, run, n - 1);
    }
  }

  lemma LastTouchIsUnique(last: map<string, string>, xs: seq<Input>, run: string, k: int, m: int)
    requires IsLastTouch(last, xs, k, run)
    ensures !IsUntouched(last, xs, run) && (IsLastTouch(last, xs, m, run) ==> m == k)
  {
  }

  /** With every write of the syncer accepted, the stored status of a run it has seen is current if and only if the
      last word on it was not wrong. */
  lemma CurrentIffNotStale(s: Sync, xs: seq<Input>, run: string)
    requires AllAccepted(xs) && LastStatus(s.last, EventsOf(xs), run).Some?
    ensures Shows(HandledAll(s, xs).stored, run, LastStatus(s.last, EventsOf(xs), run)) <==> !IsStale(s, xs, run)
  {
    var k := SomeLastTouch(s.last, xs, run, |xs|);
    if k == -1 {
      UntouchedStays(s, xs, 0, run);
    } else {
      CurrentIffLastTouchFits(s, xs, k, run);
      LastTouchIsUnique(s.last, xs, run, k, k);
      forall m | IsLastTouch(s.last, xs, m, run) ensures m == k {
        LastTouchIsUnique(s.last, xs, run, k, m);
      }
    }
  }

  /** As the only writer, a syncer whose manifests agreed before is never stale. */
  lemma AloneIsNeverStale(s: Sync, xs: seq<Input>, run: string)
    requires forall i :: 0 <= i < |xs| ==> xs[i].Input?
    requires run in s.last ==> AgreesAt(s, run)
    requires LastStatus(s.last, EventsOf(xs), run).Some?
    ensures !IsStale(s, xs, run)
  {
    if IsUntouched(s.last, xs, run) {
      UntouchedStays(s, xs, 0, run);
    }
  }

  /** Coalescing is exact: with every write accepted, the manifests the syncer writes for a run are those due, in
      order; and when nobody else writes, the stored status is that of the run's last event. */
  lemma CoalescingIsExact(s: Sync, xs: seq<Input>, run: string)
    requires AllAccepted(xs)
    ensures LogOf(HandledAll(s, xs).log, run) == LogOf(s.log, run) + Due(s.last, xs, run)
    ensures (forall i :: 0 <= i < |xs| ==> xs[i].Input?) && (run in s.last ==> AgreesAt(s, run)) ==>
      LastStatus(s.last, EventsOf(xs), run).Some? ==>
      Shows(HandledAll(s, xs).stored, run, LastStatus(s.last, EventsOf(xs), run))
  {
    LogIsDue(s, xs, run);
    if (forall i :: 0 <= i < |xs| ==> xs[i].Input?) && (run in s.last ==> AgreesAt(s, run))
      && LastStatus(s.last, EventsOf(xs), run).Some?
    {
      AloneIsNeverStale(s, xs, run);
      CurrentIffNotStale(s, xs, run);
    }
  }

  /** A submit handler that writes after the syncer's first write: the manifest says Submitted while the run goes
      on, until its next change of status. */
  lemma LateSubmitStays(w: Workflow, more: seq<Input>, m: Manifest)
    requires IsOf(Event(ADDED, Some(w)), m.runId) && m.status == "Submitted" && w.phase != "Submitted"
    requires forall i :: 0 <= i < |more| ==> more[i].Input? && more[i].ev == Event(MODIFIED, Some(w))
    ensures var xs := [Input(Event(ADDED, Some(w)), ReadFailed, true), Foreign(m)] + more;
      && LastStatus(map[], EventsOf(xs), m.runId) == Some(if w.phase == "" then "Pending" else w.phase)
      && StoredAt(HandledAll(Sync(map[], map[], []), xs).stored, m.runId) == Some(m)
    decreases |more|
  {
    var s, first := Sync(map[], map[], []), Input(Event(ADDED, Some(w)), ReadFailed, true);
    var xs := [first, Foreign(m)] + more;
    if more == [] {
      assert xs[..1] == [first] && xs[..1][..0] == [];
      assert xs[..|xs| - 1] == [first];
    } else {
      LateSubmitStays(w, more[..|more| - 1], m);
      assert xs[..|xs| - 1] == [first, Foreign(m)] + more[..|more| - 1];
      UntouchedStep(s, xs, m.runId);
    }
  }

  /** The cache after all changes, and the events they are announced with. */
  function Informed(cache: Cache, chs: seq<Change>): Cache {
    if chs == [] then cache else Cached(Informed(cache, chs[..|chs| - 1]), chs[|chs| - 1])
  }

  function Announced(cache: Cache, chs: seq<Change>): seq<Event> {
    if chs == [] then []
    else
      var before := chs[..|chs| - 1];
      Announced(cache, before) + NewsOf(Informed(cache, before), chs[|chs| - 1])
  }

  /** Among the changes is a resync round over `cache`; others may come before, between and after. */
  predicate HasRound(cache: Cache, chs: seq<Change>) {
    forall name :: name in cache ==> Resync(name) in chs
  }

  predicate IsAbout(ev: Event, name: string) {
    ev.workflow.Some? && ev.workflow.value.name == name
  }

  /** Event `i` is the last one about the workflow `name` and tells its state `w`. */
  ghost predicate IsLatest(evs: seq<Event>, i: int, name: string, w: Workflow) {
    && 0 <= i < |evs| && IsAbout(evs[i], name) && evs[i].workflow.value == w
    && forall j :: i < j < |evs| ==> !IsAbout(evs[j], name)
  }

  lemma LatestSnoc(evs: seq<Event>, more: seq<Event>, i: int, name: string, w: Workflow)
    requires IsLatest(evs, i, name, w) && !AnyAbout(more, name)
    ensures IsLatest(evs + more, i, name, w)
  {
  }

  lemma LatestIsNew(evs: seq<Event>, more: seq<Event>, name: string, w: Workflow)
    requires |more| == 1 && IsAbout(more[0], name) && more[0].workflow.value == w
    ensures IsLatest(evs + more, |evs|, name, w)
  {
    assert (evs + more)[|evs|] == more[0];
  }

  lemma {:induction false} InformedIsKeyed(cache: Cache, chs: seq<Change>)
    requires IsKeyed(cache)
    ensures IsKeyed(Informed(cache, chs))
  {
    if chs != [] {
      InformedIsKeyed(cache, chs[..|chs| - 1]);
    }
  }

  /** A change of a workflow that stays cached is announced with its new state. */
  lemma ChangeIsAnnounced(c: Cache, ch: Change, name: string)
    requires IsKeyed(c) && name in Cached(c, ch)
    ensures var news := NewsOf(c, ch);
      if |news| == 1 && IsAbout(news[0], name) then news[0].workflow.value == Cached(c, ch)[name]
      else ch != Resync(name) && name in c && c[name] == Cached(c, ch)[name] && !AnyAbout(news, name)
  {
  }

  predicate AnyAbout(evs: seq<Event>, name: string) {
    exists j :: 0 <= j < |evs| && IsAbout(evs[j], name)
  }

  /** The newest event about a cached workflow tells its cached state; without one, the workflow is as it was and had no
      turn. */
  lemma {:induction false} CachedIsAnnounced(cache: Cache, chs: seq<Change>, name: string) returns (i: int)
    requires IsKeyed(cache) && name in Informed(cache, chs)
    ensures IsLatest(Announced(cache, chs), i, name, Informed(cache, chs)[name])
         || (i == -1 && name in cache && Resync(name) !in chs)
  {
    if chs == [] {
      i := -1;
    } else {
      var before, ch := chs[..|chs| - 1], chs[|chs| - 1];
      var c, evs, news := Informed(cache, before), Announced(cache, before), NewsOf(Informed(cache, before), ch);
      InformedIsKeyed(cache, before);
      ChangeIsAnnounced(c, ch, name);
      if |news| == 1 && IsAbout(news[0], name) {
        LatestIsNew(evs, news, name, Informed(cache, chs)[name]);
        i := |evs|;
      } else {
        i := CachedIsAnnounced(cache, before, name);
        if i == -1 {
          assert chs == before + [ch];
        } else {
          LatestSnoc(evs, news, i, name, c[name]);
        }
      }
    }
  }

  /** Events of one run are about one workflow. */
  ghost predicate HaveDistinctRuns(evs: seq<Event>) {
    forall i, j | 0 <= i < |evs| && 0 <= j < |evs| && evs[i].workflow.Some? && evs[j].workflow.Some? ::
      RunIdOf(evs[i].workflow.value) == RunIdOf(evs[j].workflow.value)
      ==> evs[i].workflow.value.name == evs[j].workflow.value.name
  }

  lemma {:induction false} LastStatusIsIts(last: map<string, string>, evs: seq<Event>, i: nat, run: string)
    requires i < |evs| && IsOf(evs[i], run)
    requires forall j :: i < j < |evs| ==> !IsOf(evs[j], run)
    ensures LastStatus(last, evs, run) == Some(StatusOf(evs[i].workflow.value))
  {
    var n := |evs| - 1;
    if i < n {
      LastStatusIsIts(last, evs[..n], i, run);
    }
  }

  /** The events a drained subscription handed out since its buffer was last empty. */
  lemma DrainedIsBroadcast<Id>(h: Fanout.Hub<Id>, ops: seq<Fanout.Op<Id>>, id: Id, events: seq<Event>)
    requires id in h && h[id].open && h[id].buf == [] && Fanout.Cancel(id) !in ops
    requires |Fanout.Broadcasts(ops)| <= 16
    requires id in Fanout.After(h, ops) && Fanout.After(h, ops)[id].buf == []
    requires Fanout.After(h, ops)[id].received == h[id].received + events
    ensures events == Fanout.Broadcasts(ops)
  {
    Fanout.NothingLostWithRoom(h, ops, id);
    var past := h[id].received;
    assert Fanout.Through(h[id]) == past;
    assert Fanout.Through(Fanout.After(h, ops)[id]) == past + events;
    assert past + events == past + Fanout.Broadcasts(ops);
    assert events == (past + events)[|past|..];
  }

  /** Handling all that was announced leaves each cached workflow's status as the last one seen for its run. */
  lemma RoundStatus(last: map<string, string>, cache: Cache, chs: seq<Change>, name: string)
    requires IsKeyed(cache) && HasRound(cache, chs) && HaveDistinctRuns(Announced(cache, chs))
        && name in Informed(cache, chs)
    ensures var w := Informed(cache, chs)[name];
      forall run :: IsOf(Event(MODIFIED, Some(w)), run) ==>
        LastStatus(last, Announced(cache, chs), run) == Some(StatusOf(w))
  {
    var evs, w := Announced(cache, chs), Informed(cache, chs)[name];
    var i := CachedIsAnnounced(cache, chs, name);
    forall run | IsOf(Event(MODIFIED, Some(w)), run)
      ensures LastStatus(last, evs, run) == Some(StatusOf(evs[i].workflow.value))
    {
      forall j | i < j < |evs| ensures !IsOf(evs[j], run) {
        assert !IsAbout(evs[j], name);
      }
      LastStatusIsIts(last, evs, i, run);
    }
  }

  /** Self-healing: whatever was dropped before, let a resync round over the cache be broadcast, mixed in any way
      with updates and deletions, sixteen events at most, and read to the end in any interleaving with the other
      subscribers and other writers. Then the stored status of a run is its phase in the final cache, if and only if
      the last word on its manifest was not wrong: nobody else wrote another status after all that was due, and if
      nothing was due it was right before. */
  lemma ResyncHeals<Id>(h: Fanout.Hub<Id>, ops: seq<Fanout.Op<Id>>, id: Id, cache: Cache, chs: seq<Change>, s: Sync,
                        xs: seq<Input>)
    requires id in h && h[id].open && h[id].buf == [] && Fanout.Cancel(id) !in ops
    requires IsKeyed(cache) && HasRound(cache, chs) && HaveDistinctRuns(Announced(cache, chs))
    requires Fanout.Broadcasts(ops) == Announced(cache, chs) && |Announced(cache, chs)| <= 16
    requires id in Fanout.After(h, ops) && Fanout.After(h, ops)[id].buf == []
    requires Fanout.After(h, ops)[id].received == h[id].received + EventsOf(xs)
    requires AllAccepted(xs)
    ensures forall name, run
      | name in Informed(cache, chs) && IsOf(Event(MODIFIED, Some(Informed(cache, chs)[name])), run) ::
      var phase, stored := Informed(cache, chs)[name].phase, HandledAll(s, xs).stored;
      !IsStale(s, xs, run) <==>
        run in stored && stored[run].status == if phase == "" then "Pending" else phase
  {
    DrainedIsBroadcast(h, ops, id, EventsOf(xs));
    forall name, run | name in Informed(cache, chs) && IsOf(Event(MODIFIED, Some(Informed(cache, chs)[name])), run)
      ensures var phase, stored := Informed(cache, chs)[name].phase, HandledAll(s, xs).stored;
        !IsStale(s, xs, run) <==>
          run in stored && stored[run].status == if phase == "" then "Pending" else phase
    {
      RoundStatus(s.last, cache, chs, name);
      CurrentIffNotStale(s, xs, run);
    }
  }
}
