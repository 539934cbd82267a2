/** What dropped events and silent removals cost the event stream of a run, and how the stream heals. */
module StreamLoss {
  import opened Wrappers
  import opened Argo
  import Fanout
  import opened Sse

  /** The phase an event about the run shows. */
  function PhaseOf(ev: Event): Option<string>
    requires ev.workflow.Some?
  {
    if ev.kind == DELETED then None else Some(ev.workflow.value.phase)
  }

  /** A move that broadcasts nothing about the run adds nothing to what is shown after the snapshot. */
  lemma QuietMoveShowsNothing(c: Conn, m: Move, run: string)
    requires IsSane(c) && c.snapped && !BringsNews(c, m, run)
    ensures Next(c, m, run).snapped && Shown(Next(c, m, run), run) == Shown(c, run)
  {
    if m.Drain? {
      DrainShowsNothing(c, run);
    } else if m.Deliver? && c.pending != [] {
      DeliverShown(c, run);
      assert Shown(c, run) + [] == Shown(c, run);
    }
  }

  /** It takes no news about the run from the queue of broadcasts either. */
  lemma QuietInformKeepsNews(c: Conn, ch: Change, told: Option<string>, run: string)
    requires IsKeyed(c.cache) && FramesOf(Next(c, Inform(ch), run).pending, run) == []
    ensures FramesOf(c.pending, run) == [] && ToldBy(c.cache, Inform(ch), told, run) == told
  {
    var news := NewsOf(c.cache, ch);
    NewsIsTrue(c.cache, ch, run);
    FramesOfConcat(c.pending, news, run);
    assert |FramesOf(c.pending, run) + FramesOf(news, run)| == 0;
  }

  lemma QuietDeliverKeepsNews(c: Conn, run: string)
    requires !BringsNews(c, Deliver, run) && FramesOf(Next(c, Deliver, run).pending, run) == []
    ensures FramesOf(c.pending, run) == []
  {
    if c.pending != [] {
      FramesOfHead(c.pending, run);
    }
  }

  lemma QuietMoveKeepsNews(c: Conn, m: Move, told: Option<string>, run: string)
    requires IsKeyed(c.cache) && !BringsNews(c, m, run) && FramesOf(Next(c, m, run).pending, run) == []
    ensures FramesOf(c.pending, run) == [] && ToldBy(c.cache, m, told, run) == told
  {
    match m {
      case Inform(ch) => QuietInformKeepsNews(c, ch, told, run);
      case Deliver => QuietDeliverKeepsNews(c, run);
      case Subscribe =>
      case TakeSnapshot =>
      case Drain =>
    }
  }

  lemma QuietStepKeepsNews(cache: Cache, ms: seq<Move>, run: string)
    requires IsKeyed(cache) && ms != [] && !BringsNews(After(Start(cache), ms[..|ms| - 1], run), ms[|ms| - 1], run)
    requires FramesOf(After(Start(cache), ms, run).pending, run) == []
    ensures FramesOf(After(Start(cache), ms[..|ms| - 1], run).pending, run) == []
    ensures Told(cache, ms, run) == Told(cache, ms[..|ms| - 1], run)
  {
    var before := ms[..|ms| - 1];
    AfterKeepsInv(cache, before, run);
    QuietMoveKeepsNews(After(Start(cache), before, run), ms[|ms| - 1], Told(cache, before, run), run);
  }

  lemma QuietStepShowsNothing(cache: Cache, ms: seq<Move>, run: string)
    requires IsKeyed(cache) && ms != [] && !BringsNews(After(Start(cache), ms[..|ms| - 1], run), ms[|ms| - 1], run)
    requires After(Start(cache), ms[..|ms| - 1], run).snapped
    ensures After(Start(cache), ms, run).snapped
    ensures Shown(After(Start(cache), ms, run), run) == Shown(After(Start(cache), ms[..|ms| - 1], run), run)
  {
    AfterKeepsInv(cache, ms[..|ms| - 1], run);
    QuietMoveShowsNothing(After(Start(cache), ms[..|ms| - 1], run), ms[|ms| - 1], run);
  }

  /** From move `k` on nothing about the run is broadcast. */
  ghost predicate IsQuietFrom(cache: Cache, ms: seq<Move>, run: string, k: nat) {
    forall j :: k <= j < |ms| ==> !BringsNews(After(Start(cache), ms[..j], run), ms[j], run)
  }

  lemma QuietFront(cache: Cache, ms: seq<Move>, run: string, k: nat)
    requires k < |ms| && IsQuietFrom(cache, ms, run, k)
    ensures IsQuietFrom(cache, ms[..|ms| - 1], run, k)
    ensures ms[..|ms| - 1][..k] == ms[..k]
    ensures !BringsNews(After(Start(cache), ms[..|ms| - 1], run), ms[|ms| - 1], run)
  {
    var n := |ms| - 1;
    forall j | k <= j < n ensures !BringsNews(After(Start(cache), ms[..n][..j], run), ms[..n][j], run) {
      assert ms[..n][..j] == ms[..j];
    }
  }

  /** While nothing about the run is broadcast and nothing waits to be, what is told stays. */
  lemma {:induction false} QuietRunTellsNothing(cache: Cache, ms: seq<Move>, run: string, k: nat)
    requires IsKeyed(cache) && k <= |ms| && IsQuietFrom(cache, ms, run, k)
    requires FramesOf(After(Start(cache), ms, run).pending, run) == []
    ensures FramesOf(After(Start(cache), ms[..k], run).pending, run) == []
    ensures Told(cache, ms, run) == Told(cache, ms[..k], run)
  {
    if k < |ms| {
      QuietFront(cache, ms, run, k);
      QuietStepKeepsNews(cache, ms, run);
      QuietRunTellsNothing(cache, ms[..|ms| - 1], run, k);
    } else {
      assert ms[..k] == ms;
    }
  }

  /** From a snapshot on, while nothing about the run is broadcast, what is shown stays. */
  lemma {:induction false} QuietRunShowsNothing(cache: Cache, ms: seq<Move>, run: string, k: nat)
    requires IsKeyed(cache) && k <= |ms| && IsQuietFrom(cache, ms, run, k)
    requires After(Start(cache), ms[..k], run).snapped
    ensures After(Start(cache), ms, run).snapped
    ensures Shown(After(Start(cache), ms, run), run) == Shown(After(Start(cache), ms[..k], run), run)
  {
    if k < |ms| {
      QuietFront(cache, ms, run, k);
      QuietRunShowsNothing(cache, ms[..|ms| - 1], run, k);
      QuietStepShowsNothing(cache, ms, run);
    } else {
      assert ms[..k] == ms;
    }
  }

  /** The newest event tells what was told last. */
  lemma NewestIsTold(c: Conn, told: Option<string>, run: string)
    requires Inv(c, told, run) && BringsNews(c, Deliver, run) && FramesOf(c.pending[1..], run) == []
    ensures told == PhaseOf(c.pending[0])
  {
    FramesOfHead(c.pending, run);
    assert FramesFor(c.pending[0], run) + [] == FramesFor(c.pending[0], run);
    assert EndsIn(FramesFor(c.pending[0], run), told);
  }

  /** What the newest event leaves on the stream, compared with any phase. */
  lemma ShownAfterNewest(c: Conn, run: string, phase: Option<string>)
    requires IsSane(c) && c.snapped && BringsNews(c, Deliver, run)
    ensures EndsIn(Shown(Next(c, Deliver, run), run), phase)
        <==> if |c.sub.value.buf| < Fanout.CAPACITY then phase == PhaseOf(c.pending[0])
             else EndsIn(Shown(c, run), phase)
  {
    DeliverShown(c, run);
    if |c.sub.value.buf| < Fanout.CAPACITY {
      LastDecides(Shown(c, run), FramesFor(c.pending[0], run), phase);
    } else {
      assert Shown(c, run) + [] == Shown(c, run);
    }
  }

  /** Move `k` is the last broadcast about the run; it comes after the snapshot, and nothing about the run is in flight
      at the end. */
  ghost predicate IsLastNews(cache: Cache, ms: seq<Move>, run: string, k: nat) {
    && k < |ms|
    && After(Start(cache), ms[..k], run).snapped && BringsNews(After(Start(cache), ms[..k], run), ms[k], run)
    && IsQuietFrom(cache, ms, run, k + 1)
    && FramesOf(After(Start(cache), ms, run).pending, run) == []
  }

  lemma AfterOne(c: Conn, ms: seq<Move>, k: nat, run: string)
    requires k < |ms|
    ensures After(c, ms[..k + 1], run) == Next(After(c, ms[..k], run), ms[k], run)
  {
    assert ms[..k + 1][..k] == ms[..k];
  }

  lemma ToldStays(cache: Cache, ms: seq<Move>, k: nat, run: string)
    requires k < |ms| && ms[k].Deliver?
    ensures Told(cache, ms[..k + 1], run) == Told(cache, ms[..k], run)
  {
    assert ms[..k + 1][..k] == ms[..k];
  }

  /** Since the last broadcast about the run, what it told and what it left on the stream stand. */
  lemma SinceNewest(cache: Cache, ms: seq<Move>, run: string, k: nat)
    requires IsKeyed(cache) && IsLastNews(cache, ms, run, k)
    ensures var c := After(Start(cache), ms[..k], run);
      && IsSane(c) && c.sub.Some?
      && Told(cache, ms, run) == PhaseOf(c.pending[0])
      && Shown(After(Start(cache), ms, run), run) == Shown(Next(c, Deliver, run), run)
  {
    var c := After(Start(cache), ms[..k], run);
    AfterKeepsInv(cache, ms[..k], run);
    AfterOne(Start(cache), ms, k, run);
    ToldStays(cache, ms, k, run);
    QuietRunTellsNothing(cache, ms, run, k + 1);
    QuietRunShowsNothing(cache, ms, run, k + 1);
    NewestIsTold(c, Told(cache, ms[..k], run), run);
  }

  /** The exact cost of a dropped event and of a silent removal, over every run: let move `k` be the last broadcast
      about the run, after the snapshot, with nothing about it in flight at the end. If the run is not silently
      gone, the stream agrees with the cache if and only if the buffer had room for that event or the stream already
      ended in the phase it tells. If it is, the stream agrees only when the event was dropped and the run was not
      on the stream before it. */
  lemma StreamAgreesIff(cache: Cache, ms: seq<Move>, run: string, k: nat)
    requires IsKeyed(cache) && IsLastNews(cache, ms, run, k)
    ensures var c, c' := After(Start(cache), ms[..k], run), After(Start(cache), ms, run);
      && c.sub.Some?
      && var room := |c.sub.value.buf| < 16;
         EndsIn(Shown(c', run), PhaseIn(c'.cache, run)) <==>
           if IsSilentlyGone(cache, ms, run) then !room && EndsIn(Shown(c, run), None)
           else room || EndsIn(Shown(c, run), PhaseOf(c.pending[0]))
  {
    var c, c' := After(Start(cache), ms[..k], run), After(Start(cache), ms, run);
    SinceNewest(cache, ms, run, k);
    GoneIffNotTold(cache, ms, run);
    AfterKeepsInv(cache, ms, run);
    ShownAfterNewest(c, run, PhaseIn(c'.cache, run));
  }

  /** A stream that opens on a run it does not know, then `n` broadcasts of `w` that nobody reads. */
  function Burst(w: Workflow, n: nat): seq<Move> {
    if n == 0 then [Subscribe, TakeSnapshot] else Burst(w, n - 1) + [Inform(Update(w)), Deliver]
  }

  lemma AfterTwo(c: Conn, ms: seq<Move>, x: Move, y: Move, run: string)
    ensures After(c, ms + [x, y], run) == Next(Next(After(c, ms, run), x, run), y, run)
  {
    assert (ms + [x, y])[..|ms| + 1] == ms + [x];
    assert (ms + [x])[..|ms|] == ms;
  }

  lemma {:induction false} AfterBurst(w: Workflow, n: nat)
    requires n <= Fanout.CAPACITY
    ensures var c := After(Start(map[]), Burst(w, n), w.name);
      && c.snapped && c.pending == [] && c.out == [] && c.sub.Some? && |c.sub.value.buf| == n
      && (n > 0 ==> c.sub.value.buf[n - 1].kind != DELETED && c.sub.value.buf[n - 1].workflow == Some(w))
  {
    if n == 0 {
      AfterTwo(Start(map[]), [], Subscribe, TakeSnapshot, w.name);
      assert Burst(w, 0) == [] + [Subscribe, TakeSnapshot];
    } else {
      AfterBurst(w, n - 1);
      AfterTwo(Start(map[]), Burst(w, n - 1), Inform(Update(w)), Deliver, w.name);
    }
  }

  /** A run whose newest update is dropped: the stream stays in the old phase until a later broadcast about it finds
      room. */
  lemma DroppedUpdateIsMissed(w: Workflow, phase: string) returns (ms: seq<Move>, k: nat)
    requires w.phase != phase
    ensures IsLastNews(map[], ms, w.name, k)
    ensures var c := After(Start(map[]), ms, w.name);
      && PhaseIn(c.cache, w.name) == Some(phase) && EndsIn(Shown(c, w.name), Some(w.phase))
      && !EndsIn(Shown(c, w.name), Some(phase))
  {
    var run, burst, w' := w.name, Burst(w, Fanout.CAPACITY), w.(phase := phase);
    ms, k := burst + [Inform(Update(w')), Deliver], |burst| + 1;
    AfterBurst(w, Fanout.CAPACITY);
    AfterTwo(Start(map[]), burst, Inform(Update(w')), Deliver, run);
    assert ms[..k] == burst + [Inform(Update(w'))];
    assert ms[..k][..|burst|] == burst;
    var c0 := After(Start(map[]), burst, run);
    var c1 := After(Start(map[]), ms[..k], run);
    assert c1 == Next(c0, Inform(Update(w')), run);
    assert [] + NewsOf(c0.cache, Update(w')) == NewsOf(c0.cache, Update(w'));
    ShownAfterBurst(c0.sub.value.buf, w);
  }

  lemma ShownAfterBurst(buf: seq<Event>, w: Workflow)
    requires buf != []
    requires buf[|buf| - 1].kind != DELETED && buf[|buf| - 1].workflow == Some(w)
    ensures var frames := [] + FramesOf(buf, w.name);
      frames != [] && frames[|frames| - 1] == Change(buf[|buf| - 1].kind, w.phase, w.name)
  {
    FramesOfOne(buf[|buf| - 1], w.name);
  }

  lemma AfterThree(c: Conn, ms: seq<Move>, x: Move, y: Move, z: Move, run: string)
    ensures After(c, ms + [x, y, z], run) == Next(Next(Next(After(c, ms, run), x, run), y, run), z, run)
  {
    AfterTwo(c, ms, x, y, run);
    assert (ms + [x, y, z])[..|ms| + 2] == ms + [x, y];
  }

  /** Healing: whatever was dropped, one more read and the turn of the run in a resync bring the stream up to date. */
  lemma ResyncShows(cache: Cache, ms: seq<Move>, run: string)
    requires IsKeyed(cache)
    requires var c := After(Start(cache), ms, run); c.snapped && c.pending == [] && run in c.cache
    ensures var c' := After(Start(cache), ms + [Drain, Inform(Resync(run)), Deliver], run);
      c'.pending == [] && EndsIn(Shown(c', run), PhaseIn(c'.cache, run))
  {
    var c := After(Start(cache), ms, run);
    AfterKeepsInv(cache, ms, run);
    AfterRoom(cache, ms, run);
    AfterThree(Start(cache), ms, Drain, Inform(Resync(run)), Deliver, run);
    ReadMakesRoom(c, run);
    AnnouncedWithRoom(Next(c, Drain, run), run);
  }

  lemma ReadMakesRoom(c: Conn, run: string)
    requires IsSane(c) && c.snapped && |Buffered(c)| <= Fanout.CAPACITY
    ensures var c' := Next(c, Drain, run);
      && IsSane(c') && c'.snapped && c'.cache == c.cache && c'.pending == c.pending
      && |Buffered(c')| < Fanout.CAPACITY
  {
  }

  lemma AnnouncedWithRoom(c: Conn, run: string)
    requires IsSane(c) && IsKeyed(c.cache) && c.snapped && c.pending == [] && run in c.cache
    requires |Buffered(c)| < Fanout.CAPACITY
    ensures var c' := Next(Next(c, Inform(Resync(run)), run), Deliver, run);
      c'.pending == [] && EndsIn(Shown(c', run), PhaseIn(c'.cache, run))
  {
    var c1 := Next(c, Inform(Resync(run)), run);
    assert c1.pending == NewsOf(c.cache, Resync(run));
    ShownAfterNewest(c1, run, PhaseIn(c.cache, run));
  }

  lemma {:induction false} AfterRoom(cache: Cache, ms: seq<Move>, run: string)
    ensures var c := After(Start(cache), ms, run); |Buffered(c)| <= Fanout.CAPACITY
  {
    if ms != [] {
      AfterRoom(cache, ms[..|ms| - 1], run);
    }
  }

  /** A run that is silently gone: nothing was dropped and nothing is in flight, yet the stream goes on showing it. */
  lemma VanishedIsMissed(w: Workflow) returns (ms: seq<Move>)
    ensures var c := After(Start(map[w.name := w]), ms, w.name);
      && c.snapped && c.pending == [] && !c.lost && c.sub.Some? && c.sub.value.sent == []
      && w.name !in c.cache && Shown(c, w.name) == [Snapshot(w.phase, w.name)]
      && !EndsIn(Shown(c, w.name), PhaseIn(c.cache, w.name))
  {
    ms := [] + [Subscribe, TakeSnapshot, Inform(Vanish(w.name))];
    AfterThree(Start(map[w.name := w]), [], Subscribe, TakeSnapshot, Inform(Vanish(w.name)), w.name);
  }

  predicate TakesSnapshot(c: Conn, m: Move) {
    m.TakeSnapshot? && c.sub.Some? && !c.snapped
  }

  /** What the cache said when the snapshot was taken. */
  function FoundBy(cache: Cache, ms: seq<Move>, run: string): Option<Workflow> {
    if ms == [] then None
    else
      var before, m := ms[..|ms| - 1], ms[|ms| - 1];
      var c := After(Start(cache), before, run);
      if TakesSnapshot(c, m) then (if run in c.cache then Some(c.cache[run]) else None)
      else FoundBy(cache, before, run)
  }

  /** The wakeups for events that were read. */
  function Messages(evs: seq<Event>): seq<Wakeup> {
    seq(|evs|, i requires 0 <= i < |evs| => Message(evs[i]))
  }

  lemma {:induction false} StreamedSnoc(ws: seq<Wakeup>, w: Wakeup, run: string)
    requires !IsLast(w) && forall i :: 0 <= i < |ws| ==> !IsLast(ws[i])
    ensures Streamed(ws + [w], run) == Streamed(ws, run) + FramesAt(w, run)
  {
    if ws == [] {
      assert (ws + [w])[1..] == [];
    } else {
      assert (ws + [w])[1..] == ws[1..] + [w];
      StreamedSnoc(ws[1..], w, run);
    }
  }

  lemma ReadStep(sub: Fanout.Sub, found: Option<Workflow>, out: seq<Frame>, run: string)
    requires sub.buf != [] && out == Opening(found) + Streamed(Messages(sub.received), run)
    ensures out + FramesFor(sub.buf[0], run) == Opening(found) + Streamed(Messages(Fanout.Take(sub).received), run)
  {
    var evs, ev := sub.received, sub.buf[0];
    assert Messages(evs + [ev]) == Messages(evs) + [Message(ev)];
    StreamedSnoc(Messages(evs), Message(ev), run);
  }

  /** What was sent is what the handler sends for the snapshot `found` and the events read so far. */
  predicate IsHandled(c: Conn, found: Option<Workflow>, run: string) {
    c.sub.Some? ==>
      if c.snapped then c.out == Opening(found) + Streamed(Messages(c.sub.value.received), run)
      else c.sub.value.received == []
  }

  lemma HandledStep(c: Conn, m: Move, found: Option<Workflow>, run: string)
    requires IsSane(c) && IsHandled(c, found, run) && !TakesSnapshot(c, m)
    ensures IsHandled(Next(c, m, run), found, run)
  {
    if m.Drain? && c.snapped && c.sub.value.buf != [] {
      ReadStep(c.sub.value, found, c.out, run);
    }
  }

  lemma SnapshotStep(c: Conn, found: Option<Workflow>, run: string)
    requires IsSane(c) && IsHandled(c, found, run) && TakesSnapshot(c, TakeSnapshot)
    ensures IsHandled(Next(c, TakeSnapshot, run), if run in c.cache then Some(c.cache[run]) else None, run)
  {
    assert Messages([]) == [];
  }

  /** The frames of the state machine are those the handler sends for the events it has read, over every run. */
  lemma {:induction false} OutIsHandled(cache: Cache, ms: seq<Move>, run: string)
    requires IsKeyed(cache)
    ensures IsHandled(After(Start(cache), ms, run), FoundBy(cache, ms, run), run)
  {
    if ms != [] {
      var before, m := ms[..|ms| - 1], ms[|ms| - 1];
      var c := After(Start(cache), before, run);
      OutIsHandled(cache, before, run);
      AfterKeepsInv(cache, before, run);
      if TakesSnapshot(c, m) {
        SnapshotStep(c, FoundBy(cache, before, run), run);
      } else {
        HandledStep(c, m, FoundBy(cache, before, run), run);
      }
    }
  }
}
