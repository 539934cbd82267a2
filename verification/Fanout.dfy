/** Lossy fan-out of workflow events to subscribers with bounded buffers. */
module Fanout {
  import opened Argo

  const CAPACITY := 16

  /** One subscription: its buffer, and the history that explains it. `kept` holds the indices of `sent` that were
      not dropped. */
  datatype Sub = Sub(buf: seq<Event>, open: bool, sent: seq<Event>, received: seq<Event>, kept: seq<nat>)

  const NEW_SUB := Sub([], true, [], [], [])

  /** Subscriptions by the identity of their channel. */
  type Hub<!Id> = map<Id, Sub>

  function Offer(s: Sub, ev: Event): Sub {
    if |s.buf| < CAPACITY
    then s.(buf := s.buf + [ev], sent := s.sent + [ev], kept := s.kept + [|s.sent|])
    else s.(sent := s.sent + [ev])
  }

  function Take(s: Sub): Sub {
    if s.buf == [] then s else s.(buf := s.buf[1..], received := s.received + [s.buf[0]])
  }

  datatype Op<Id> = Subscribe(id: Id) | Broadcast(ev: Event) | Receive(id: Id) | Cancel(id: Id)

  function Next<Id>(h: Hub<Id>, op: Op<Id>): Hub<Id> {
    match op
    case Subscribe(id) => if id in h then h else h[id := NEW_SUB]
    case Broadcast(ev) => map id | id in h :: if h[id].open then Offer(h[id], ev) else h[id]
    case Receive(id) => if id in h then h[id := Take(h[id])] else h
    case Cancel(id) => if id in h then h[id := h[id].(open := false)] else h
  }

  function After<Id>(h: Hub<Id>, ops: seq<Op<Id>>): Hub<Id> {
    if ops == [] then h else Next(After(h, ops[..|ops| - 1]), ops[|ops| - 1])
  }

  /** What came through, read or still waiting. */
  function Through(s: Sub): seq<Event> {
    s.received + s.buf
  }

  /** Received then buffered events are the events at `kept`, an increasing list of positions in the broadcasts. */
  ghost predicate IsOrdered(s: Sub) {
    && |s.buf| <= CAPACITY
    && |s.kept| == |Through(s)|
    && (forall i, j :: 0 <= i < j < |s.kept| ==> s.kept[i] < s.kept[j])
    && (forall i :: 0 <= i < |s.kept| ==> s.kept[i] < |s.sent| && Through(s)[i] == s.sent[s.kept[i]])
  }

  lemma NextKeepsOrder<Id>(h: Hub<Id>, op: Op<Id>)
    requires forall id :: id in h ==> IsOrdered(h[id])
    ensures forall id :: id in Next(h, op) ==> IsOrdered(Next(h, op)[id])
  {
    forall id | id in Next(h, op) ensures IsOrdered(Next(h, op)[id]) {
      if id in h {
        assert Through(Take(h[id])) == Through(h[id]);
        if op.Broadcast? && |h[id].buf| < CAPACITY {
          assert Through(Offer(h[id], op.ev)) == Through(h[id]) + [op.ev];
        }
      }
    }
  }

  lemma {:induction false} AllStayOrdered<Id>(ops: seq<Op<Id>>)
    ensures forall id :: id in After(map[], ops) ==> IsOrdered(After(map[], ops)[id])
  {
    if ops != [] {
      AllStayOrdered(ops[..|ops| - 1]);
      NextKeepsOrder(After(map[], ops[..|ops| - 1]), ops[|ops| - 1]);
    }
  }

  /** Step `i` makes the subscription `id`; a channel is made only once. */
  predicate IsStart<Id(==)>(ops: seq<Op<Id>>, id: Id, i: int) {
    0 <= i < |ops| && ops[i] == Subscribe(id) && forall j :: 0 <= j < i ==> ops[j] != Subscribe(id)
  }

  /** At the end of `ops` the subscription was made and not cancelled since. */
  ghost predicate IsSubscribed<Id(!new)>(ops: seq<Op<Id>>, id: Id) {
    exists i :: IsStart(ops, id, i) && forall j :: i < j < |ops| ==> ops[j] != Cancel(id)
  }

  /** The events broadcast between the start of the subscription and its first cancel, read off the steps alone. */
  ghost function During<Id(!new)>(ops: seq<Op<Id>>, id: Id): seq<Event> {
    if ops == [] then []
    else
      var op, before := ops[|ops| - 1], ops[..|ops| - 1];
      if op.Broadcast? && IsSubscribed(before, id) then During(before, id) + [op.ev] else During(before, id)
  }

  lemma StartSnoc<Id(!new)>(ops: seq<Op<Id>>, op: Op<Id>, id: Id)
    ensures forall i :: 0 <= i < |ops| ==> (IsStart(ops + [op], id, i) <==> IsStart(ops, id, i))
    ensures IsStart(ops + [op], id, |ops|) <==> op == Subscribe(id) && Subscribe(id) !in ops
  {
    var more := ops + [op];
    assert forall j :: 0 <= j < |ops| ==> more[j] == ops[j];
    assert Subscribe(id) in ops <==> exists j :: 0 <= j < |ops| && more[j] == Subscribe(id);
  }

  lemma SubscribedSnoc<Id(!new)>(ops: seq<Op<Id>>, op: Op<Id>, id: Id)
    ensures IsSubscribed(ops + [op], id)
        <==> (IsSubscribed(ops, id) && op != Cancel(id)) || (op == Subscribe(id) && Subscribe(id) !in ops)
  {
    var more := ops + [op];
    StartSnoc(ops, op, id);
    if IsSubscribed(more, id) {
      var i :| IsStart(more, id, i) && forall j :: i < j < |more| ==> more[j] != Cancel(id);
      if i < |ops| {
        assert more[|ops|] == op && forall j :: i < j < |ops| ==> more[j] == ops[j];
      }
    }
    if IsSubscribed(ops, id) && op != Cancel(id) {
      var i :| IsStart(ops, id, i) && forall j :: i < j < |ops| ==> ops[j] != Cancel(id);
      assert IsStart(more, id, i);
    }
    if op == Subscribe(id) && Subscribe(id) !in ops {
      assert IsStart(more, id, |ops|);
    }
  }

  /** The bookkeeping is right: who is known, who is open, and what was broadcast to whom follow from the steps
      alone. */
  lemma {:induction false} SentIsDuring<Id(!new)>(ops: seq<Op<Id>>, id: Id)
    ensures IsBookedRight(After(map[], ops), ops, id)
  {
    if ops != [] {
      var op, before := ops[|ops| - 1], ops[..|ops| - 1];
      SentIsDuring(before, id);
      assert ops == before + [op];
      BookingStep(After(map[], before), before, op, id);
    }
  }

  ghost predicate IsBookedRight<Id(!new)>(h: Hub<Id>, ops: seq<Op<Id>>, id: Id) {
    && (id in h <==> Subscribe(id) in ops)
    && (id in h ==> (h[id].open <==> IsSubscribed(ops, id)))
    && During(ops, id) == if id in h then h[id].sent else []
  }

  lemma SubscribedIsKnown<Id(!new)>(ops: seq<Op<Id>>, id: Id)
    requires IsSubscribed(ops, id)
    ensures Subscribe(id) in ops
  {
    var i :| IsStart(ops, id, i) && forall j :: i < j < |ops| ==> ops[j] != Cancel(id);
    assert ops[i] in ops;
  }

  lemma BookingStep<Id(!new)>(h: Hub<Id>, ops: seq<Op<Id>>, op: Op<Id>, id: Id)
    requires IsBookedRight(h, ops, id)
    ensures IsBookedRight(Next(h, op), ops + [op], id)
  {
    var more := ops + [op];
    SubscribedSnoc(ops, op, id);
    assert more[..|ops|] == ops && more[|ops|] == op;
    if IsSubscribed(ops, id) {
      SubscribedIsKnown(ops, id);
    }
  }

  /** `xs` is what is left of `ys` when only the positions `kept` stay, in their order. */
  predicate IsSelection(xs: seq<Event>, ys: seq<Event>, kept: seq<nat>) {
    && |kept| == |xs|
    && (forall i, j :: 0 <= i < j < |kept| ==> kept[i] < kept[j])
    && (forall i :: 0 <= i < |kept| ==> kept[i] < |ys| && xs[i] == ys[kept[i]])
  }

  /** Over every run, what a subscriber has read and what waits for it is an in-order subsequence of the events
      broadcast between its subscription and its first cancel, and no more than sixteen wait. */
  lemma OrderedOverRuns<Id(!new)>(ops: seq<Op<Id>>, id: Id)
    requires Subscribe(id) in ops
    ensures id in After(map[], ops) && |After(map[], ops)[id].buf| <= 16
    ensures exists kept :: IsSelection(Through(After(map[], ops)[id]), During(ops, id), kept)
  {
    SentIsDuring(ops, id);
    AllStayOrdered(ops);
    var s := After(map[], ops)[id];
    assert IsOrdered(s);
    assert IsSelection(Through(s), During(ops, id), s.kept);
  }

  /** A broadcast reaches a subscriber at the end of its buffer, unless that buffer is full or the subscription is
      over. */
  lemma DroppedOnlyWhenFull<Id(!new)>(ops: seq<Op<Id>>, ev: Event, id: Id)
    requires id in After(map[], ops)
    ensures var s, s' := After(map[], ops)[id], After(map[], ops + [Broadcast(ev)])[id];
      && (s'.buf == s.buf + [ev] <==> IsSubscribed(ops, id) && |s.buf| < 16)
      && (s'.buf == s.buf <==> !IsSubscribed(ops, id) || |s.buf| == 16)
  {
    assert (ops + [Broadcast(ev)])[..|ops|] == ops;
    SentIsDuring(ops, id);
    AllStayOrdered(ops);
  }

  lemma CancelTwice<Id>(h: Hub<Id>, id: Id)
    ensures Next(Next(h, Cancel(id)), Cancel(id)) == Next(h, Cancel(id))
  {
  }

  function Broadcasts<Id>(ops: seq<Op<Id>>): seq<Event> {
    if ops == [] then []
    else Broadcasts(ops[..|ops| - 1]) + if ops[|ops| - 1].Broadcast? then [ops[|ops| - 1].ev] else []
  }

  /** As long as the room left in its buffer is not outrun, an open subscription loses nothing, however its reads
      interleave. */
  lemma {:induction false} NothingLostWithRoom<Id>(h: Hub<Id>, ops: seq<Op<Id>>, id: Id)
    requires id in h && h[id].open && Cancel(id) !in ops
    requires |h[id].buf| + |Broadcasts(ops)| <= 16
    ensures id in After(h, ops) && After(h, ops)[id].open
    ensures Through(After(h, ops)[id]) == Through(h[id]) + Broadcasts(ops)
    ensures |After(h, ops)[id].buf| <= |h[id].buf| + |Broadcasts(ops)|
    ensures h[id].received <= After(h, ops)[id].received
  {
    if ops != [] {
      var before, op := ops[..|ops| - 1], ops[|ops| - 1];
      NothingLostWithRoom(h, before, id);
      var s := After(h, before)[id];
      assert Cancel(id) != op by { assert op in ops; }
      if op == Receive(id) {
        assert Through(Take(s)) == Through(s);
      } else if op.Broadcast? {
        assert Through(Offer(s, op.ev)) == Through(s) + [op.ev];
      }
    }
  }

  /** Sixteen is sharp: of a burst into an empty buffer that nobody reads, exactly the first sixteen events survive. */
  lemma {:induction false} BurstKeepsFirst<Id>(h: Hub<Id>, ops: seq<Op<Id>>, id: Id)
    requires id in h && h[id].open && h[id].buf == []
    requires forall i :: 0 <= i < |ops| ==> ops[i].Broadcast?
    ensures id in After(h, ops) && After(h, ops)[id].open && |Broadcasts(ops)| == |ops|
    ensures After(h, ops)[id].buf == if |ops| <= 16 then Broadcasts(ops) else Broadcasts(ops)[..16]
  {
    if ops != [] {
      BurstKeepsFirst(h, ops[..|ops| - 1], id);
    }
  }

  datatype Received = Got(ev: Event) | Closed | WouldBlock

  /** A buffered channel. The ghost fields record its history. */
  class Channel {
    var buf: seq<Event>
    var closed: bool
    ghost var sent: seq<Event>
    ghost var received: seq<Event>
    ghost var kept: seq<nat>

    ghost function State(): Sub
      reads this
    {
      Sub(buf, !closed, sent, received, kept)
    }

    constructor ()
      ensures State() == NEW_SUB
    {
      buf, closed, sent, received, kept := [], false, [], [], [];
    }

    /** A send that gives up when the buffer is full. Sending on a closed channel is a fault of the sender. */
    method TrySend(ev: Event)
      requires !closed
      modifies this
      ensures State() == Offer(old(State()), ev)
    {
      if |buf| < CAPACITY {
        kept := kept + [|sent|];
        buf := buf + [ev];
      }
      sent := sent + [ev];
    }

    /** Buffered events can be read even after the channel was closed. */
    method Receive() returns (r: Received)
      modifies this
      ensures State() == Take(old(State()))
      ensures old(buf) != [] ==> r == Got(old(buf)[0])
      ensures old(buf) == [] ==> r == if closed then Closed else WouldBlock
    {
      if buf != [] {
        r := Got(buf[0]);
        received := received + [buf[0]];
        buf := buf[1..];
      } else {
        r := if closed then Closed else WouldBlock;
      }
    }

    /** Closing twice is a fault of the caller. */
    method Close()
      requires !closed
      modifies this
      ensures State() == old(State()).(open := false)
    {
      closed := true;
    }
  }

  class WorkflowLister {
    var subscribers: set<Channel>
    ghost var known: set<Channel>

    ghost predicate Valid()
      reads this, known
    {
      subscribers <= known && forall ch :: ch in known ==> (ch in subscribers <==> !ch.closed)
    }

    ghost function View(): Hub<Channel>
      reads this, known
    {
      map ch | ch in known :: ch.State()
    }

    constructor ()
      ensures Valid() && View() == map[] && known == {}
    {
      subscribers, known := {}, {};
    }

    method Subscribe() returns (ch: Channel)
      requires Valid()
      modifies this
      ensures Valid() && fresh(ch) && known == old(known) + {ch}
      ensures View() == Next(old(View()), Op.Subscribe(ch))
    {
      ch := new Channel();
      subscribers, known := subscribers + {ch}, known + {ch};
    }

    /** The cancel function of a subscription; it may be called any number of times. */
    method Cancel(ch: Channel)
      requires Valid() && ch in known
      modifies this, ch
      ensures Valid() && known == old(known)
      ensures View() == Next(old(View()), Op.Cancel(ch))
    {
      if ch in subscribers {
        subscribers := subscribers - {ch};
        ch.Close();
      }
      assert View().Keys == old(View()).Keys;
    }

    method Broadcast(ev: Event)
      requires Valid()
      modifies subscribers
      ensures Valid() && subscribers == old(subscribers) && known == old(known)
      ensures View() == Next(old(View()), Op.Broadcast(ev))
    {
      var left := subscribers;
      while left != {}
        invariant left <= subscribers
        invariant forall ch :: ch in known ==>
          ch.State() == if ch in subscribers && ch !in left then Offer(old(ch.State()), ev) else old(ch.State())
        decreases left
      {
        var ch :| ch in left;
        ch.TrySend(ev);
        left := left - {ch};
      }
      assert View().Keys == old(View()).Keys;
    }
  }
}
