/** The event stream of one run: subscribe, then snapshot, then follow the subscription. */
module Sse {
  import opened Wrappers
  import opened Argo
  import Fanout

  datatype Frame = Snapshot(phase: string, name: string) | Change(kind: Kind, phase: string, name: string) | Keepalive

  function FramesFor(ev: Event, run: string): seq<Frame> {
    if ev.workflow.None? || ev.workflow.value.name != run then []
    else [Change(ev.kind, ev.workflow.value.phase, ev.workflow.value.name)]
  }

  function Opening(found: Option<Workflow>): seq<Frame> {
    if found.Some? then [Snapshot(found.value.phase, found.value.name)] else []
  }

  /** What the select of the stream loop wakes up for. */
  datatype Wakeup = Done | Timer | Message(ev: Event) | Hangup

  predicate IsLast(w: Wakeup) {
    w.Done? || w.Hangup?
  }

  function FramesAt(w: Wakeup, run: string): seq<Frame>
    requires !IsLast(w)
  {
    if w.Timer? then [Keepalive] else FramesFor(w.ev, run)
  }

  function Streamed(ws: seq<Wakeup>, run: string): seq<Frame> {
    if ws == [] || IsLast(ws[0]) then [] else FramesAt(ws[0], run) + Streamed(ws[1..], run)
  }

  /** What each wakeup adds: a timer a keepalive, an event about the run its frame, any other event nothing; the end
      of the subscription or of the request ends the stream, whatever would come after. */
  lemma {:induction false} EachWakeup(ws: seq<Wakeup>, w: Wakeup, more: seq<Wakeup>, run: string)
    requires forall i :: 0 <= i < |ws| ==> ws[i].Timer? || ws[i].Message?
    ensures Streamed(ws + ([w] + more), run) == Streamed(ws, run) +
      match w
      case Timer => [Keepalive] + Streamed(more, run)
      case Message(ev) =>
        if ev.workflow.Some? && ev.workflow.value.name == run
        then [Change(ev.kind, ev.workflow.value.phase, run)] + Streamed(more, run)
        else Streamed(more, run)
      case Done => []
      case Hangup => []
  {
    if ws == [] {
      assert ws + ([w] + more) == [w] + more;
      assert ([w] + more)[1..] == more;
    } else {
      assert (ws + ([w] + more))[1..] == ws[1..] + ([w] + more);
      EachWakeup(ws[1..], w, more, run);
    }
  }

  lemma StreamedStep(out: seq<Frame>, ws: seq<Wakeup>, i: nat, run: string)
    requires i < |ws|
    ensures IsLast(ws[i]) ==> out + Streamed(ws[i..], run) == out
    ensures !IsLast(ws[i]) ==> out + Streamed(ws[i..], run) == (out + FramesAt(ws[i], run)) + Streamed(ws[i + 1..], run)
  {
    assert ws[i..][1..] == ws[i + 1..];
  }

  /** The body of the loop for one wakeup that does not end it. */
  method Emit(out: seq<Frame>, w: Wakeup, run: string) returns (r: seq<Frame>)
    requires !IsLast(w)
    ensures r == out + FramesAt(w, run)
  {
    if w.Timer? {
      return out + [Keepalive];
    }
    if w.ev.workflow.None? || w.ev.workflow.value.name != run {
      return out;
    }
    return out + [Change(w.ev.kind, w.ev.workflow.value.phase, w.ev.workflow.value.name)];
  }

  /** The handler: `found` is what the cache gives for the run after the subscription was made. */
  method Handle(run: string, canFlush: bool, found: Option<Workflow>, ws: seq<Wakeup>)
    returns (r: Result<seq<Frame>, nat>)
    ensures r == if run == "" then Failure(400)
                 else if !canFlush then Failure(500)
                 else Success(Opening(found) + Streamed(ws, run))
  {
    if run == "" {
      return Failure(400);
    }
    if !canFlush {
      return Failure(500);
    }
    var out := Opening(found);
    var i := 0;
    while i < |ws|
      invariant 0 <= i <= |ws|
      invariant out + Streamed(ws[i..], run) == Opening(found) + Streamed(ws, run)
    {
      StreamedStep(out, ws, i, run);
      if IsLast(ws[i]) {
        return Success(out);
      }
      out := Emit(out, ws[i], run);
      i := i + 1;
    }
    assert out + [] == out;
    return Success(out);
  }

  /** The informer beside one stream. `pending` are updates already in the cache but not yet broadcast; `lost` tells
      that the newest broadcast about the run was dropped and nothing since has made up for it. */
  datatype Conn = Conn(
    cache: Cache, pending: seq<Event>, sub: Option<Fanout.Sub>, snapped: bool, out: seq<Frame>, lost: bool)

  datatype Move =
    | Inform(change: Change)
    | Deliver
    | Subscribe
    | TakeSnapshot
    | Drain

  function FramesOf(evs: seq<Event>, run: string): seq<Frame> {
    if evs == [] then [] else FramesOf(evs[..|evs| - 1], run) + FramesFor(evs[|evs| - 1], run)
  }

  function Next(c: Conn, m: Move, run: string): Conn {
    match m
    case Inform(ch) =>
      c.(cache := Cached(c.cache, ch), pending := c.pending + NewsOf(c.cache, ch))
    case Deliver =>
      if c.pending == [] then c
      else
        var ev, rest := c.pending[0], c.pending[1..];
        if c.sub.None? then c.(pending := rest)
        else
          var full := |c.sub.value.buf| >= Fanout.CAPACITY;
          c.(pending := rest, sub := Some(Fanout.Offer(c.sub.value, ev)),
            lost := if FramesFor(ev, run) == [] then c.lost else full)
    case Subscribe =>
      if c.sub.Some? then c else c.(sub := Some(Fanout.NEW_SUB))
    case TakeSnapshot =>
      if c.sub.None? || c.snapped then c
      else
        var found := if run in c.cache then Some(c.cache[run]) else None;
        c.(snapped := true, out := c.out + Opening(found), lost := c.lost && FramesOf(c.sub.value.buf, run) != [])
    case Drain =>
      if !c.snapped || c.sub.None? || c.sub.value.buf == [] then c
      else c.(sub := Some(Fanout.Take(c.sub.value)), out := c.out + FramesFor(c.sub.value.buf[0], run))
  }

  function After(c: Conn, ms: seq<Move>, run: string): Conn {
    if ms == [] then c else Next(After(c, ms[..|ms| - 1], run), ms[|ms| - 1], run)
  }

  function Start(cache: Cache): Conn {
    Conn(cache, [], None, false, [], false)
  }

  /** The phase the cache knows for the run. */
  function PhaseIn(cache: Cache, run: string): Option<string> {
    if run in cache then Some(cache[run].phase) else None
  }

  /** The frames end in `phase`; None stands for a run that is gone, shown by its deletion or by nothing at all. */
  predicate EndsIn(frames: seq<Frame>, phase: Option<string>) {
    match phase
    case Some(p) =>
      && frames != []
      && var last := frames[|frames| - 1];
      && (last.Snapshot? || (last.Change? && last.kind != DELETED))
      && last.phase == p
    case None =>
      frames == [] || (frames[|frames| - 1].Change? && frames[|frames| - 1].kind == DELETED)
  }

  function Buffered(c: Conn): seq<Event> {
    if c.sub.Some? then c.sub.value.buf else []
  }

  /** Whichever stage the news about the run has reached, the newest of it shows the phase told last: `p` is still to be
      broadcast, `b` waits in the buffer, `out` was sent. Of a run that is silently gone a stream may know nothing. */
  predicate IsCurrent(p: seq<Frame>, b: seq<Frame>, out: seq<Frame>, lost: bool, snapped: bool, told: Option<string>,
                      gone: bool)
  {
    && (p != [] ==> EndsIn(p, told))
    && (p == [] && b != [] && !lost ==> EndsIn(b, told))
    && (p == [] && b == [] && !lost && snapped ==> EndsIn(out, told) || (gone && out == []))
  }

  predicate IsSane(c: Conn) {
    && (c.snapped ==> c.sub.Some?)
    && (!c.snapped ==> c.out == [])
    && (c.sub.None? ==> !c.lost)
    && (c.sub.Some? ==> |c.sub.value.kept| <= |c.sub.value.sent|)
    && (c.lost ==> |c.sub.value.kept| < |c.sub.value.sent|)
  }

  /** The phase the run was last announced with, or had at the start. */
  function Told(cache: Cache, ms: seq<Move>, run: string): Option<string> {
    if ms == [] then PhaseIn(cache, run)
    else
      var before, m := ms[..|ms| - 1], ms[|ms| - 1];
      ToldBy(After(Start(cache), before, run).cache, m, Told(cache, before, run), run)
  }

  function ToldBy(cache: Cache, m: Move, told: Option<string>, run: string): Option<string> {
    if m.Inform? && FramesOf(NewsOf(cache, m.change), run) != [] then PhaseIn(Cached(cache, m.change), run) else told
  }

  /** What was told is what the cache says, unless the cache has lost the run without a word. */
  predicate IsTold(cache: Cache, told: Option<string>, run: string) {
    told == PhaseIn(cache, run) || (told.Some? && run !in cache)
  }

  predicate Inv(c: Conn, told: Option<string>, run: string) {
    && IsSane(c) && IsKeyed(c.cache) && IsTold(c.cache, told, run)
    && IsCurrent(FramesOf(c.pending, run), FramesOf(Buffered(c), run), c.out, c.lost, c.snapped, told,
                 told != PhaseIn(c.cache, run))
  }

  lemma {:induction false} FramesOfHead(evs: seq<Event>, run: string)
    requires evs != []
    ensures FramesOf(evs, run) == FramesFor(evs[0], run) + FramesOf(evs[1..], run)
  {
    var n := |evs| - 1;
    if n > 0 {
      FramesOfHead(evs[..n], run);
      assert evs[..n][1..] == evs[1..][..n - 1];
    }
  }

  lemma FramesOfSnoc(evs: seq<Event>, ev: Event, run: string)
    ensures FramesOf(evs + [ev], run) == FramesOf(evs, run) + FramesFor(ev, run)
  {
    assert (evs + [ev])[..|evs|] == evs;
  }

  lemma FramesOfConcat(evs: seq<Event>, more: seq<Event>, run: string)
    requires |more| <= 1
    ensures FramesOf(evs + more, run) == FramesOf(evs, run) + FramesOf(more, run)
  {
    if more == [] {
      assert evs + more == evs;
    } else {
      FramesOfSnoc(evs, more[0], run);
      FramesOfSnoc([], more[0], run);
    }
  }

  lemma LastDecides(xs: seq<Frame>, ys: seq<Frame>, phase: Option<string>)
    requires ys != []
    ensures EndsIn(xs + ys, phase) <==> EndsIn(ys, phase)
  {
    assert (xs + ys)[|xs + ys| - 1] == ys[|ys| - 1];
  }

  /** A change together with the news `f` of it; without news the run stays as it was or is silently gone from now
      on. */
  lemma NewsArrives(p: seq<Frame>, f: seq<Frame>, b: seq<Frame>, out: seq<Frame>, lost: bool, snapped: bool,
                    told: Option<string>, gone: bool, told': Option<string>, gone': bool)
    requires IsCurrent(p, b, out, lost, snapped, told, gone)
    requires if f != [] then EndsIn(f, told') else told == told' && (gone ==> gone')
    ensures IsCurrent(p + f, b, out, lost, snapped, told', gone')
  {
    if f != [] {
      LastDecides(p, f, told');
    } else {
      assert p + f == p;
    }
  }

  /** A broadcast into a buffer: the news moves one stage on, or is dropped when the buffer is full. */
  lemma NewsMoves(f: seq<Frame>, p: seq<Frame>, b: seq<Frame>, out: seq<Frame>, lost: bool, full: bool, snapped: bool,
                  told: Option<string>, gone: bool)
    requires IsCurrent(f + p, b, out, lost, snapped, told, gone)
    ensures IsCurrent(p, if full then b else b + f, out, if f == [] then lost else full, snapped, told, gone)
  {
    if f == [] {
      assert f + p == p && b + f == b;
    } else {
      LastDecides(b, f, told);
      if p == [] {
        assert f + p == f;
      } else {
        LastDecides(f, p, told);
      }
    }
  }

  lemma NewsIsSent(f: seq<Frame>, p: seq<Frame>, b: seq<Frame>, out: seq<Frame>, lost: bool, told: Option<string>,
                   gone: bool)
    requires IsCurrent(p, f + b, out, lost, true, told, gone)
    ensures IsCurrent(p, b, out + f, lost, true, told, gone)
  {
    if f == [] {
      assert f + b == b && out + f == out;
    } else {
      LastDecides(out, f, told);
      if b == [] {
        assert f + b == f;
      } else {
        LastDecides(f, b, told);
      }
    }
  }

  lemma FramesOfOne(ev: Event, run: string)
    ensures FramesOf([ev], run) == FramesFor(ev, run)
  {
    FramesOfSnoc([], ev, run);
    assert [] + [ev] == [ev];
  }

  lemma StaysKeyed(cache: Cache, ch: Change)
    requires IsKeyed(cache)
    ensures IsKeyed(Cached(cache, ch))
  {
  }

  /** The news of a change shows what the cache says then; a change without news leaves the run's phase alone, or
      takes the run away silently. */
  lemma NewsIsTrue(cache: Cache, ch: Change, run: string)
    requires IsKeyed(cache)
    ensures |NewsOf(cache, ch)| <= 1
    ensures var f := FramesOf(NewsOf(cache, ch), run);
      if f != [] then EndsIn(f, PhaseIn(Cached(cache, ch), run))
      else if ch == Vanish(run) then PhaseIn(Cached(cache, ch), run) == None
      else PhaseIn(cache, run) == PhaseIn(Cached(cache, ch), run)
  {
    match ch {
      case Update(w) => FramesOfOne(NewsOf(cache, ch)[0], run);
      case Remove(name) =>
        if name in cache {
          FramesOfOne(NewsOf(cache, ch)[0], run);
        }
      case Vanish(_) =>
      case Resync(name) =>
        if name in cache {
          FramesOfOne(NewsOf(cache, ch)[0], run);
        }
    }
  }

  lemma QueuedNewsKeepsInv(c: Conn, told: Option<string>, cache: Cache, news: seq<Event>, told': Option<string>,
                           run: string)
    requires Inv(c, told, run) && IsKeyed(cache) && IsTold(cache, told', run) && |news| <= 1
    requires if FramesOf(news, run) != [] then EndsIn(FramesOf(news, run), told')
             else told == told' && (told != PhaseIn(c.cache, run) ==> told' != PhaseIn(cache, run))
    ensures Inv(c.(cache := cache, pending := c.pending + news), told', run)
  {
    FramesOfConcat(c.pending, news, run);
    NewsArrives(FramesOf(c.pending, run), FramesOf(news, run), FramesOf(Buffered(c), run), c.out, c.lost, c.snapped,
                told, told != PhaseIn(c.cache, run), told', told' != PhaseIn(cache, run));
  }

  lemma InformKeepsInv(c: Conn, told: Option<string>, ch: Change, run: string)
    requires Inv(c, told, run)
    ensures Inv(Next(c, Inform(ch), run), ToldBy(c.cache, Inform(ch), told, run), run)
  {
    StaysKeyed(c.cache, ch);
    NewsIsTrue(c.cache, ch, run);
    QueuedNewsKeepsInv(c, told, Cached(c.cache, ch), NewsOf(c.cache, ch), ToldBy(c.cache, Inform(ch), told, run), run);
  }

  lemma DeliverKeepsInv(c: Conn, told: Option<string>, run: string)
    requires Inv(c, told, run)
    ensures Inv(Next(c, Deliver, run), told, run)
  {
    if c.pending != [] {
      var ev, gone := c.pending[0], told != PhaseIn(c.cache, run);
      var f, p, b := FramesFor(ev, run), FramesOf(c.pending[1..], run), FramesOf(Buffered(c), run);
      FramesOfHead(c.pending, run);
      if c.sub.Some? {
        FramesOfSnoc(Buffered(c), ev, run);
        NewsMoves(f, p, b, c.out, c.lost, |c.sub.value.buf| >= Fanout.CAPACITY, c.snapped, told, gone);
      } else {
        NewsMoves(f, p, b, c.out, c.lost, true, c.snapped, told, gone);
      }
    }
  }

  lemma TakeSnapshotKeepsInv(c: Conn, told: Option<string>, run: string)
    requires Inv(c, told, run)
    ensures Inv(Next(c, TakeSnapshot, run), told, run)
  {
  }

  lemma DrainKeepsInv(c: Conn, told: Option<string>, run: string)
    requires Inv(c, told, run)
    ensures Inv(Next(c, Drain, run), told, run)
  {
    if c.snapped && c.sub.value.buf != [] {
      var buf := c.sub.value.buf;
      FramesOfHead(buf, run);
      NewsIsSent(FramesFor(buf[0], run), FramesOf(c.pending, run), FramesOf(buf[1..], run), c.out, c.lost, told,
                 told != PhaseIn(c.cache, run));
    }
  }

  lemma NextKeepsInv(c: Conn, told: Option<string>, m: Move, run: string)
    requires Inv(c, told, run)
    ensures Inv(Next(c, m, run), ToldBy(c.cache, m, told, run), run)
  {
    match m {
      case Inform(ch) => InformKeepsInv(c, told, ch, run);
      case Deliver => DeliverKeepsInv(c, told, run);
      case Subscribe =>
      case TakeSnapshot => TakeSnapshotKeepsInv(c, told, run);
      case Drain => DrainKeepsInv(c, told, run);
    }
  }

  lemma {:induction false} AfterKeepsInv(cache: Cache, ms: seq<Move>, run: string)
    requires IsKeyed(cache)
    ensures Inv(After(Start(cache), ms, run), Told(cache, ms, run), run)
  {
    if ms != [] {
      var before := ms[..|ms| - 1];
      AfterKeepsInv(cache, before, run);
      NextKeepsInv(After(Start(cache), before, run), Told(cache, before, run), ms[|ms| - 1], run);
    }
  }

  /** What the subscriber gets to see: the frames sent and those that wait. */
  function Shown(c: Conn, run: string): seq<Frame> {
    c.out + FramesOf(Buffered(c), run)
  }

  predicate Updates(m: Move, run: string) {
    m.Inform? && m.change.Update? && m.change.workflow.name == run
  }

  /** Move `k` takes the cached run away without an announcement. */
  predicate TakesAway(cache: Cache, ms: seq<Move>, run: string, k: int) {
    0 <= k < |ms| && ms[k] == Inform(Vanish(run)) && run in After(Start(cache), ms[..k], run).cache
  }

  /** The run was taken away silently and has not been seen since. */
  ghost predicate IsSilentlyGone(cache: Cache, ms: seq<Move>, run: string) {
    exists k :: TakesAway(cache, ms, run, k) && forall j :: k < j < |ms| ==> !Updates(ms[j], run)
  }

  lemma TakesAwaySnoc(cache: Cache, ms: seq<Move>, m: Move, run: string, k: int)
    ensures k != |ms| ==> (TakesAway(cache, ms + [m], run, k) <==> TakesAway(cache, ms, run, k))
    ensures TakesAway(cache, ms + [m], run, |ms|)
        <==> m == Inform(Vanish(run)) && run in After(Start(cache), ms, run).cache
  {
    assert (ms + [m])[..|ms|] == ms;
    if 0 <= k < |ms| {
      assert (ms + [m])[..k] == ms[..k];
    }
  }

  lemma SilentlyGoneSnoc(cache: Cache, ms: seq<Move>, m: Move, run: string)
    ensures IsSilentlyGone(cache, ms + [m], run)
        <==> ((m == Inform(Vanish(run)) && run in After(Start(cache), ms, run).cache) ||
              (IsSilentlyGone(cache, ms, run) && !Updates(m, run)))
  {
    var more := ms + [m];
    TakesAwaySnoc(cache, ms, m, run, |ms|);
    if IsSilentlyGone(cache, more, run) {
      var k :| TakesAway(cache, more, run, k) && forall j :: k < j < |more| ==> !Updates(more[j], run);
      TakesAwaySnoc(cache, ms, m, run, k);
      if k < |ms| {
        assert !Updates(more[|ms|], run);
        assert forall j :: k < j < |ms| ==> more[j] == ms[j];
      }
    }
    if IsSilentlyGone(cache, ms, run) && !Updates(m, run) {
      var k :| TakesAway(cache, ms, run, k) && forall j :: k < j < |ms| ==> !Updates(ms[j], run);
      TakesAwaySnoc(cache, ms, m, run, k);
      assert TakesAway(cache, more, run, k);
    }
  }

  /** Told and cached differ just when the run is silently gone. */
  lemma {:induction false} GoneIffNotTold(cache: Cache, ms: seq<Move>, run: string)
    requires IsKeyed(cache)
    ensures IsSilentlyGone(cache, ms, run) <==> Told(cache, ms, run) != PhaseIn(After(Start(cache), ms, run).cache, run)
  {
    if ms != [] {
      var before, m := ms[..|ms| - 1], ms[|ms| - 1];
      assert ms == before + [m];
      GoneIffNotTold(cache, before, run);
      SilentlyGoneSnoc(cache, before, m, run);
      AfterKeepsInv(cache, before, run);
      ToldOrGoneStep(After(Start(cache), before, run), m, Told(cache, before, run), run);
    }
  }

  lemma ToldOrGoneStep(c: Conn, m: Move, told: Option<string>, run: string)
    requires IsKeyed(c.cache) && IsTold(c.cache, told, run)
    ensures ToldBy(c.cache, m, told, run) != PhaseIn(Next(c, m, run).cache, run)
        <==> ((m == Inform(Vanish(run)) && run in c.cache) || (told != PhaseIn(c.cache, run) && !Updates(m, run)))
  {
    if m.Inform? {
      ToldOrGone(c.cache, m.change, told, run);
    }
  }

  lemma ToldOrGone(cache: Cache, ch: Change, told: Option<string>, run: string)
    requires IsKeyed(cache) && IsTold(cache, told, run)
    ensures ToldBy(cache, Inform(ch), told, run) != PhaseIn(Cached(cache, ch), run)
        <==> ((ch == Vanish(run) && run in cache) || (told != PhaseIn(cache, run) && !Updates(Inform(ch), run)))
  {
    NewsIsTrue(cache, ch, run);
    if Updates(Inform(ch), run) {
      FramesOfOne(NewsOf(cache, ch)[0], run);
    }
  }

  /** This move puts something about the run on the stream: a snapshot of it, or an event that finds room. */
  predicate Shows(c: Conn, m: Move, run: string) {
    && c.sub.Some?
    && ((m.TakeSnapshot? && !c.snapped && run in c.cache) ||
        (BringsNews(c, m, run) && |c.sub.value.buf| < Fanout.CAPACITY))
  }

  ghost predicate HasShownNothing(cache: Cache, ms: seq<Move>, run: string) {
    forall j :: 0 <= j < |ms| ==> !Shows(After(Start(cache), ms[..j], run), ms[j], run)
  }

  lemma NothingShownSnoc(cache: Cache, ms: seq<Move>, m: Move, run: string)
    ensures HasShownNothing(cache, ms + [m], run)
        <==> HasShownNothing(cache, ms, run) && !Shows(After(Start(cache), ms, run), m, run)
  {
    var more := ms + [m];
    assert more[..|ms|] == ms && more[|ms|] == m;
    forall j | 0 <= j < |ms| ensures more[..j] == ms[..j] && more[j] == ms[j] {
    }
    if HasShownNothing(cache, more, run) {
      assert !Shows(After(Start(cache), more[..|ms|], run), more[|ms|], run);
      forall j | 0 <= j < |ms| ensures !Shows(After(Start(cache), ms[..j], run), ms[j], run) {
        assert !Shows(After(Start(cache), more[..j], run), more[j], run);
      }
    }
  }

  lemma Regroup(a: seq<Frame>, b: seq<Frame>, c: seq<Frame>)
    ensures a + (b + c) == a + b + c
  {
  }

  lemma DrainShowsNothing(c: Conn, run: string)
    requires c.snapped && c.sub.Some?
    ensures Shown(Next(c, Drain, run), run) == Shown(c, run)
  {
    var buf := c.sub.value.buf;
    if buf != [] {
      FramesOfHead(buf, run);
      Regroup(c.out, FramesFor(buf[0], run), FramesOf(buf[1..], run));
    }
  }

  /** A broadcast adds the frame of its event, if the event is about the run, or, at a full buffer, nothing. */
  lemma DeliverShown(c: Conn, run: string)
    requires c.sub.Some? && c.pending != []
    ensures Next(c, Deliver, run).snapped == c.snapped
    ensures Shown(Next(c, Deliver, run), run)
         == Shown(c, run) + (if |c.sub.value.buf| < Fanout.CAPACITY then FramesFor(c.pending[0], run) else [])
  {
    var ev, buf := c.pending[0], c.sub.value.buf;
    if |buf| < Fanout.CAPACITY {
      FramesOfSnoc(buf, ev, run);
      Regroup(c.out, FramesOf(buf, run), FramesFor(ev, run));
    } else {
      assert Shown(c, run) + [] == Shown(c, run);
    }
  }

  lemma ShownStep(c: Conn, m: Move, run: string)
    requires IsSane(c)
    ensures Shown(Next(c, m, run), run) == [] <==> Shown(c, run) == [] && !Shows(c, m, run)
  {
    if m.Drain? && c.snapped {
      DrainShowsNothing(c, run);
    } else if m.Deliver? && c.pending != [] && c.sub.Some? {
      DeliverShown(c, run);
    }
  }

  lemma {:induction false} NothingShownIff(cache: Cache, ms: seq<Move>, run: string)
    requires IsKeyed(cache)
    ensures HasShownNothing(cache, ms, run) <==> Shown(After(Start(cache), ms, run), run) == []
  {
    if ms != [] {
      var before, m := ms[..|ms| - 1], ms[|ms| - 1];
      assert ms == before + [m];
      NothingShownIff(cache, before, run);
      AfterKeepsInv(cache, before, run);
      NothingShownSnoc(cache, before, m, run);
      ShownStep(After(Start(cache), before, run), m, run);
    }
  }

  lemma AgreesIffTold(c: Conn, told: Option<string>, run: string)
    requires Inv(c, told, run) && c.snapped && FramesOf(c.pending, run) == [] && !c.lost
    ensures EndsIn(Shown(c, run), PhaseIn(c.cache, run)) <==> (told == PhaseIn(c.cache, run) || Shown(c, run) == [])
  {
    var b := FramesOf(Buffered(c), run);
    if b == [] {
      assert c.out + b == c.out;
    } else {
      LastDecides(c.out, b, told);
    }
  }

  /** No update is lost at connect: take any interleaving of cache updates, broadcasts, subscription, snapshot and
      reads that ends with no update of the run between its two halves and its newest event not dropped. Then the
      frames sent, followed by those waiting, end in what the cache says, if and only if the run is not silently
      gone or the stream has never shown it. Earlier drops do no harm. */
  lemma NoUpdateLost(cache: Cache, ms: seq<Move>, run: string)
    requires IsKeyed(cache)
    ensures var c := After(Start(cache), ms, run);
      (c.snapped && FramesOf(c.pending, run) == [] && !c.lost) ==>
        (EndsIn(Shown(c, run), PhaseIn(c.cache, run)) <==>
           !IsSilentlyGone(cache, ms, run) || HasShownNothing(cache, ms, run))
    ensures var c := After(Start(cache), ms, run);
      c.lost ==> c.sub.Some? && |c.sub.value.kept| < |c.sub.value.sent|
  {
    var c := After(Start(cache), ms, run);
    AfterKeepsInv(cache, ms, run);
    GoneIffNotTold(cache, ms, run);
    NothingShownIff(cache, ms, run);
    if c.snapped && FramesOf(c.pending, run) == [] && !c.lost {
      AgreesIffTold(c, Told(cache, ms, run), run);
    }
  }

  /** This move broadcasts an event about the run. */
  predicate BringsNews(c: Conn, m: Move, run: string) {
    m.Deliver? && c.pending != [] && FramesFor(c.pending[0], run) != []
  }
}
