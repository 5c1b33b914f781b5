module CoreDelivery {
  // The per-request delivery of enginecore/core.go: admission, sends that never block, the
  // coalesced backlog, closing, and the consumers at the other end of the channels. Every
  // method is one step under the source's mutex, so a run is any interleaving of steps.

  import opened Outputs
  import opened Wrappers

  const QUEUE_CAP: nat := 64

  datatype Channel = Channel(queue: seq<Output>, closed: bool)
  {
    predicate HasRoom() {
      |queue| < QUEUE_CAP
    }

    // A send to, or a second close of, a closed channel panics.
    function Send(o: Output): Channel
      requires !closed && HasRoom()
    {
      Channel(queue + [o], closed)
    }

    function Close(): Channel
      requires !closed
    {
      Channel(queue, true)
    }
  }

  // A delivery slot; `ch` stands for the channel's identity, an index into all channels
  // ever made.
  datatype Slot = Slot(ch: nat, pending: Option<Output>, closed: bool)

  datatype State = State(outs: map<string, Slot>, chans: seq<Channel>, inFlight: int, running: bool)
  {
    predicate Open(slot: Slot) {
      slot.ch < |chans| && !chans[slot.ch].closed && !slot.closed
    }

    // Every slot is open on a channel of its own.
    ghost predicate Valid() {
      && (forall id :: id in outs ==> Open(outs[id]))
      && forall a, b :: a in outs && b in outs && a != b ==> outs[a].ch != outs[b].ch
    }
  }

  datatype Admission = Admitted(ch: nat) | QueueFull | NotRunning

  // ---------------------------------------------------------------------------
  // Steps

  function Coalesce(prev: Output, next: Output): Output {
    next.(newText := prev.newText + next.newText, newTokens := prev.newTokens + next.newTokens)
  }

  function Submitted(maxConcurrent: int, s: State, id: string): (r: (State, Admission))
    requires s.Valid()
    ensures r.0.Valid()
  {
    if !s.running then (s, NotRunning)
    else if maxConcurrent > 0 && s.inFlight >= maxConcurrent then (s, QueueFull)
    else
      (s.(inFlight := s.inFlight + 1,
          outs := s.outs[id := Slot(|s.chans|, None, false)],
          chans := s.chans + [Channel([], false)]),
       Admitted(|s.chans|))
  }

  // closeLocked on the open slot of id.
  function ClosedSlot(s: State, id: string): (t: State)
    requires s.Valid() && id in s.outs
    ensures t.Valid()
  {
    var ch := s.outs[id].ch;
    s.(outs := s.outs - {id}, chans := s.chans[ch := s.chans[ch].Close()],
       inFlight := if s.inFlight > 0 then s.inFlight - 1 else s.inFlight)
  }

  // A send that gives up when the channel is full, leaving the increment pending.
  function Offered(s: State, id: string, o: Output): (t: State)
    requires s.Valid() && id in s.outs
    ensures t.Valid()
  {
    var slot := s.outs[id];
    if s.chans[slot.ch].HasRoom() then
      var sent := s.(outs := s.outs[id := slot.(pending := None)],
                     chans := s.chans[slot.ch := s.chans[slot.ch].Send(o)]);
      if o.finished then ClosedSlot(sent, id) else sent
    else s.(outs := s.outs[id := slot.(pending := Some(o))])
  }

  lemma OfferedElsewhere(s: State, id: string, o: Output)
    requires s.Valid() && id in s.outs
    ensures Offered(s, id, o).outs - {id} == s.outs - {id}
  {
  }

  function Delivered(s: State, o: Output): (t: State)
    requires s.Valid()
    ensures t.Valid()
  {
    var id := o.requestId;
    if id !in s.outs then s
    else if s.outs[id].pending.Some? then Offered(s, id, Coalesce(s.outs[id].pending.value, o))
    else Offered(s, id, o)
  }

  function FlushedSlot(s: State, id: string): (t: State)
    requires s.Valid()
    ensures t.Valid()
  {
    if id in s.outs && s.outs[id].pending.Some? then Offered(s, id, s.outs[id].pending.value) else s
  }

  // The slots of `order` flushed one after the other.
  function Flushed(s: State, order: seq<string>): (t: State)
    requires s.Valid()
    ensures t.Valid()
    decreases |order|
  {
    if order == [] then s else FlushedSlot(Flushed(s, order[..|order| - 1]), order[|order| - 1])
  }

  function DroppedSlot(s: State, id: string): (t: State)
    requires s.Valid()
    ensures t.Valid()
  {
    if id !in s.outs then s
    else
      var ch := s.outs[id].ch;
      s.(outs := s.outs - {id}, chans := s.chans[ch := s.chans[ch].Close()])
  }

  function Dropped(s: State, order: seq<string>): (t: State)
    requires s.Valid()
    ensures t.Valid() && t.inFlight == s.inFlight
    decreases |order|
  {
    if order == [] then s else DroppedSlot(Dropped(s, order[..|order| - 1]), order[|order| - 1])
  }

  // A receive on channel ch, None when it has to wait or the channel is closed and drained.
  function Received(s: State, ch: nat): (r: (State, Option<Output>))
    requires s.Valid()
    ensures r.0.Valid()
  {
    if ch >= |s.chans| || s.chans[ch].queue == [] then (s, None)
    else
      var c := s.chans[ch];
      (s.(chans := s.chans[ch := c.(queue := c.queue[1..])]), Some(c.queue[0]))
  }

  // The order of a walk over every key once.
  ghost predicate Covers(order: seq<string>, ids: set<string>) {
    forall id :: id in ids ==> id in order
  }

  // Some slot outside todo has a backlog.
  ghost predicate BacklogIn(outs: map<string, Slot>, todo: set<string>) {
    exists id :: id in outs && id !in todo && outs[id].pending.Some?
  }

  lemma BacklogStep(before: map<string, Slot>, after: map<string, Slot>, todo: set<string>, id: string)
    requires id in todo && todo <= before.Keys && before - {id} == after - {id}
    ensures BacklogIn(after, todo - {id})
       <==> BacklogIn(before, todo) || (id in after && after[id].pending.Some?)
    ensures todo - {id} <= after.Keys
  {
    assert forall k :: k != id ==> (k in before <==> k in before - {id}) && (k in after <==> k in after - {id});
    assert forall k :: k in before - {id} ==> before[k] == (before - {id})[k] == after[k];
  }

  lemma FlushedSnoc(s: State, order: seq<string>, id: string)
    requires s.Valid()
    ensures Flushed(s, order + [id]) == FlushedSlot(Flushed(s, order), id)
  {
    assert (order + [id])[..|order|] == order;
  }

  lemma DroppedSnoc(s: State, order: seq<string>, id: string)
    requires s.Valid()
    ensures Dropped(s, order + [id]) == DroppedSlot(Dropped(s, order), id)
  {
    assert (order + [id])[..|order|] == order;
  }

  lemma StillValid(s: State, inFlight: int, running: bool)
    requires s.Valid()
    ensures s.(inFlight := inFlight, running := running).Valid()
  {
  }

  class Core {
    const maxConcurrent: int
    var outs: map<string, Slot>
    var chans: seq<Channel>
    var inFlight: int
    var running: bool

    constructor (maxConcurrent: int)
      ensures Valid() && this.maxConcurrent == maxConcurrent
      ensures Current() == State(map[], [], 0, false)
    {
      this.maxConcurrent := maxConcurrent;
      outs, chans, inFlight, running := map[], [], 0, false;
    }

    ghost function Current(): State
      reads this
    {
      State(outs, chans, inFlight, running)
    }

    ghost predicate Valid()
      reads this
    {
      Current().Valid()
    }

    method Start()
      requires Valid()
      modifies this`running
      ensures Valid() && Current() == old(Current()).(running := true)
    {
      if running {
        return;
      }
      running := true;
    }

    method Submit(id: string) returns (r: Admission)
      requires Valid()
      modifies this
      ensures Valid() && (Current(), r) == Submitted(maxConcurrent, old(Current()), id)
    {
      if !running {
        return NotRunning;
      }
      if maxConcurrent > 0 && inFlight >= maxConcurrent {
        return QueueFull;
      }
      inFlight := inFlight + 1;
      var ch := |chans|;
      chans := chans + [Channel([], false)];
      outs := outs[id := Slot(ch, None, false)];
      return Admitted(ch);
    }

    method Deliver(o: Output)
      requires Valid()
      modifies this
      ensures Valid() && Current() == Delivered(old(Current()), o)
    {
      var id := o.requestId;
      if id !in outs || outs[id].closed {
        return;
      }
      if outs[id].pending.Some? {
        var _ := Offer(id, Coalesce(outs[id].pending.value, o));
      } else {
        var _ := Offer(id, o);
      }
    }

    // The non-blocking send that deliver and flushPending share.
    method Offer(id: string, o: Output) returns (sent: bool)
      requires Valid() && id in outs
      modifies this
      ensures Valid() && Current() == Offered(old(Current()), id, o)
      ensures sent <==> !(id in outs && outs[id].pending.Some?)
    {
      var slot := outs[id];
      sent := chans[slot.ch].HasRoom();
      if sent {
        chans := chans[slot.ch := chans[slot.ch].Send(o)];
        outs := outs[id := slot.(pending := None)];
        if o.finished {
          CloseLocked(id);
        }
      } else {
        outs := outs[id := slot.(pending := Some(o))];
      }
    }

    // `order` is the order in which the walk over the map went.
    method FlushPending() returns (remaining: bool, ghost order: seq<string>)
      requires Valid()
      modifies this
      ensures Valid() && Covers(order, old(outs).Keys) && Current() == Flushed(old(Current()), order)
      ensures remaining <==> BacklogIn(outs, {})
    {
      hide FlushedSlot, State.Valid;
      remaining, order := false, [];
      var todo := outs.Keys;
      while todo != {}
        invariant Valid() && Current() == Flushed(old(Current()), order)
        invariant todo <= outs.Keys
        invariant Covers(order, old(outs).Keys - todo)
        invariant remaining <==> BacklogIn(outs, todo)
        decreases |todo|
      {
        var id :| id in todo;
        ghost var before := outs;
        FlushedSnoc(old(Current()), order, id);
        var full := FlushSlot(id);
        BacklogStep(before, outs, todo, id);
        todo := todo - {id};
        order := order + [id];
        if full {
          remaining := true;
        }
      }
    }

    // The body of the walk; `full` when the slot keeps its backlog.
    method FlushSlot(id: string) returns (full: bool)
      requires Valid() && id in outs
      modifies this
      ensures Valid() && Current() == FlushedSlot(old(Current()), id)
      ensures outs - {id} == old(outs) - {id}
      ensures full <==> id in outs && outs[id].pending.Some?
    {
      if outs[id].closed || outs[id].pending.None? {
        return false;
      }
      OfferedElsewhere(Current(), id, outs[id].pending.value);
      var sent := Offer(id, outs[id].pending.value);
      full := !sent;
    }

    method CloseLocked(id: string)
      requires Valid() && id in outs
      modifies this
      ensures Valid() && Current() == ClosedSlot(old(Current()), id)
    {
      if outs[id].closed {
        return;
      }
      chans := chans[outs[id].ch := chans[outs[id].ch].Close()];
      outs := outs - {id};
      if inFlight > 0 {
        inFlight := inFlight - 1;
      }
    }

    method Shutdown() returns (ghost order: seq<string>)
      requires Valid()
      modifies this
      ensures Valid() && Covers(order, old(outs).Keys) && outs == map[]
      ensures Current() == Dropped(old(Current()), order).(inFlight := 0, running := false)
    {
      hide DroppedSlot, State.Valid;
      order := [];
      var todo := outs.Keys;
      while todo != {}
        invariant Valid() && Current() == Dropped(old(Current()), order)
        invariant todo == outs.Keys
        invariant Covers(order, old(outs).Keys - todo)
        decreases |todo|
      {
        var id :| id in todo;
        DroppedSnoc(old(Current()), order, id);
        DropSlot(id);
        todo := todo - {id};
        order := order + [id];
      }
      assert Current().(inFlight := 0, running := false).Valid() by {
        StillValid(Current(), 0, false);
      }
      inFlight := 0;
      running := false;
    }

    method DropSlot(id: string)
      requires Valid() && id in outs
      modifies this
      ensures Valid() && Current() == DroppedSlot(old(Current()), id)
      ensures outs.Keys == old(outs).Keys - {id}
    {
      var slot := outs[id];
      if !slot.closed {
        chans := chans[slot.ch := chans[slot.ch].Close()];
      }
      outs := outs - {id};
    }

    method Receive(ch: nat) returns (o: Option<Output>)
      requires Valid()
      modifies this
      ensures Valid() && (Current(), o) == Received(old(Current()), ch)
    {
      if ch >= |chans| || |chans[ch].queue| == 0 {
        return None;
      }
      o := Some(chans[ch].queue[0]);
      chans := chans[ch := chans[ch].(queue := chans[ch].queue[1..])];
    }
  }

  // ---------------------------------------------------------------------------
  // Runs

  // What has gone through a channel: the increments delivered to its slot, those its
  // consumer has received, and whether a shutdown cut it off.
  datatype Log = Log(id: string, produced: seq<Output>, consumed: seq<Output>, cut: bool)

  datatype World = World(core: State, logs: seq<Log>)

  datatype Event =
    | Start
    | Submit(id: string)
    | Deliver(o: Output)
    | Flush(order: seq<string>)
    | Receive(ch: nat)
    | Shutdown(order: seq<string>)

  function CutAll(s: State, logs: seq<Log>): (cut: seq<Log>)
    ensures |cut| == |logs|
  {
    seq(|logs|, h requires 0 <= h < |logs| =>
      if logs[h].id in s.outs && s.outs[logs[h].id].ch == h then logs[h].(cut := true) else logs[h])
  }

  function Next(maxConcurrent: int, w: World, e: Event): (v: World)
    requires w.core.Valid() && |w.logs| == |w.core.chans|
    ensures v.core.Valid() && |v.logs| == |v.core.chans|
  {
    var s := w.core;
    match e
    case Start => w.(core := s.(running := true))
    case Submit(id) =>
      var (t, r) := Submitted(maxConcurrent, s, id);
      World(t, if r.Admitted? then w.logs + [Log(id, [], [], false)] else w.logs)
    case Deliver(o) =>
      KeepsChannels(s, o);
      World(Delivered(s, o),
            if o.requestId in s.outs then
              var ch := s.outs[o.requestId].ch;
              w.logs[ch := w.logs[ch].(produced := w.logs[ch].produced + [o])]
            else w.logs)
    case Flush(order) =>
      FlushKeepsChannels(s, order);
      World(Flushed(s, order), w.logs)
    case Receive(ch) =>
      var (t, o) := Received(s, ch);
      World(t, if o.Some? then w.logs[ch := w.logs[ch].(consumed := w.logs[ch].consumed + [o.value])] else w.logs)
    case Shutdown(order) =>
      DropKeepsChannels(s, order);
      World(Dropped(s, order).(inFlight := 0, running := false), CutAll(s, w.logs))
  }

  lemma KeepsChannels(s: State, o: Output)
    requires s.Valid()
    ensures |Delivered(s, o).chans| == |s.chans|
  {
  }

  lemma {:induction false} FlushKeepsChannels(s: State, order: seq<string>)
    requires s.Valid()
    ensures |Flushed(s, order).chans| == |s.chans|
    decreases |order|
  {
    if order != [] {
      FlushKeepsChannels(s, order[..|order| - 1]);
    }
  }

  lemma {:induction false} DropKeepsChannels(s: State, order: seq<string>)
    requires s.Valid()
    ensures |Dropped(s, order).chans| == |s.chans|
    decreases |order|
  {
    if order != [] {
      DropKeepsChannels(s, order[..|order| - 1]);
    }
  }

  predicate EndsFinished(outs: seq<Output>) {
    outs != [] && outs[|outs| - 1].finished
  }

  // What the surroundings promise: an id is not submitted again while it is in flight,
  // nothing is produced for a request after its finished increment, and a shutdown walks
  // every slot.
  ghost predicate Enabled(w: World, e: Event)
    requires w.core.Valid() && |w.logs| == |w.core.chans|
  {
    match e
    case Submit(id) => id !in w.core.outs
    case Deliver(o) =>
      o.requestId in w.core.outs ==> !EndsFinished(w.logs[w.core.outs[o.requestId].ch].produced)
    case Shutdown(order) => Covers(order, w.core.outs.Keys)
    case _ => true
  }

  ghost predicate IsRun(maxConcurrent: int, w: World, events: seq<Event>)
    requires w.core.Valid() && |w.logs| == |w.core.chans|
    decreases |events|
  {
    events == [] || (Enabled(w, events[0]) && IsRun(maxConcurrent, Next(maxConcurrent, w, events[0]), events[1..]))
  }

  function After(maxConcurrent: int, w: World, events: seq<Event>): (v: World)
    requires w.core.Valid() && |w.logs| == |w.core.chans|
    ensures v.core.Valid() && |v.logs| == |v.core.chans|
    decreases |events|
  {
    if events == [] then w else After(maxConcurrent, Next(maxConcurrent, w, events[0]), events[1..])
  }

  // ---------------------------------------------------------------------------
  // Conservation

  lemma CoalesceAdds(d: Deltas, a: Output, b: Output)
    ensures d.Plus(Coalesce(a, b)) == d.Plus(a).Plus(b)
  {
  }

  predicate NoneFinished(outs: seq<Output>) {
    forall i :: 0 <= i < |outs| ==> !outs[i].finished
  }

  // Two increments alike in everything but their deltas.
  predicate SameHead(a: Output, b: Output) {
    a.requestId == b.requestId && a.finished == b.finished && a.rest == b.rest
  }

  // The newest increment sent or pending carries what the newest one produced does.
  predicate Newest(sent: seq<Output>, pending: Option<Output>, produced: seq<Output>) {
    if produced == [] then sent == [] && pending.None?
    else
      var last := produced[|produced| - 1];
      if pending.Some? then SameHead(pending.value, last)
      else sent != [] && SameHead(sent[|sent| - 1], last)
  }

  // A channel with an open slot: received, queued and pending add up to what was produced,
  // and a finished increment can only be the pending one.
  predicate OpenOk(c: Channel, log: Log, pending: Option<Output>) {
    var sent := log.consumed + c.queue;
    && !c.closed && !log.cut && |c.queue| <= QUEUE_CAP && NoneFinished(sent)
    && Total(log.produced) == (if pending.Some? then Total(sent).Plus(pending.value) else Total(sent))
    && (EndsFinished(log.produced) <==> pending.Some? && pending.value.finished)
    && Newest(sent, pending, log.produced)
  }

  // A channel without a slot is closed. Unless a shutdown cut it off, everything produced
  // was sent, and the last increment, and only that, is the finished one.
  predicate ClosedOk(c: Channel, log: Log) {
    var sent := log.consumed + c.queue;
    && c.closed && |c.queue| <= QUEUE_CAP
    && (log.cut ==> Total(sent).PrefixOf(Total(log.produced)))
    && (!log.cut ==>
          && Total(sent) == Total(log.produced) && EndsFinished(sent) && NoneFinished(sent[..|sent| - 1])
          && Newest(sent, None, log.produced))
  }

  // Whether channel h is the one of its request's slot.
  predicate HasSlot(w: World, h: nat)
    requires h < |w.logs|
  {
    w.logs[h].id in w.core.outs && w.core.outs[w.logs[h].id].ch == h
  }

  ghost predicate ChannelOk(w: World, h: nat)
    requires h < |w.logs| == |w.core.chans|
  {
    if HasSlot(w, h) then OpenOk(w.core.chans[h], w.logs[h], w.core.outs[w.logs[h].id].pending)
    else ClosedOk(w.core.chans[h], w.logs[h])
  }

  ghost predicate Inv(w: World) {
    && w.core.Valid() && |w.logs| == |w.core.chans|
    && (forall id :: id in w.core.outs ==> w.logs[w.core.outs[id].ch].id == id)
    && forall h :: 0 <= h < |w.logs| ==> ChannelOk(w, h)
  }

  // Admission control.
  predicate Bounded(maxConcurrent: int, s: State) {
    s.inFlight == |s.outs| && (maxConcurrent > 0 ==> s.inFlight <= maxConcurrent)
  }

  // Ready to be offered o: everything produced but o has been sent.
  predicate OfferOk(c: Channel, log: Log, o: Output) {
    var sent := log.consumed + c.queue;
    && !c.closed && !log.cut && |c.queue| <= QUEUE_CAP && NoneFinished(sent)
    && Total(log.produced) == Total(sent).Plus(o)
    && (EndsFinished(log.produced) <==> o.finished)
    && log.produced != [] && SameHead(o, log.produced[|log.produced| - 1])
  }

  // The invariant at every channel but ch.
  ghost predicate InvElsewhere(w: World, ch: nat) {
    && w.core.Valid() && |w.logs| == |w.core.chans|
    && (forall id :: id in w.core.outs ==> w.logs[w.core.outs[id].ch].id == id)
    && forall h :: 0 <= h < |w.logs| && h != ch ==> ChannelOk(w, h)
  }

  // Everything but o has been sent: o sent, or pending on a full channel, keeps the channel.
  lemma SendKeeps(c: Channel, log: Log, o: Output)
    requires OfferOk(c, log, o)
    ensures !c.HasRoom() ==> OpenOk(c, log, Some(o))
    ensures c.HasRoom() && !o.finished ==> OpenOk(c.Send(o), log, None)
    ensures c.HasRoom() && o.finished ==> ClosedOk(c.Send(o).Close(), log)
  {
    var sent := log.consumed + c.queue;
    assert log.consumed + (c.queue + [o]) == sent + [o];
    TotalSnoc(sent, o);
    assert (sent + [o])[..|sent|] == sent && (sent + [o])[|sent|] == o;
  }

  lemma OfferKeepsChannel(w: World, id: string, o: Output)
    requires w.core.Valid() && id in w.core.outs && InvElsewhere(w, w.core.outs[id].ch)
    requires OfferOk(w.core.chans[w.core.outs[id].ch], w.logs[w.core.outs[id].ch], o)
    ensures |Offered(w.core, id, o).chans| == |w.logs|
    ensures ChannelOk(World(Offered(w.core, id, o), w.logs), w.core.outs[id].ch)
  {
    var ch := w.core.outs[id].ch;
    SendKeeps(w.core.chans[ch], w.logs[ch], o);
    OfferedAt(w.core, id, o);
    assert w.logs[ch].id == id;
    hide OpenOk, ClosedOk, OfferOk, ChannelOk, Offered, State.Valid, InvElsewhere;
    var v := World(Offered(w.core, id, o), w.logs);
    ChannelIs(v, ch);
  }

  lemma OfferedAt(s: State, id: string, o: Output)
    requires s.Valid() && id in s.outs
    ensures var slot, t := s.outs[id], Offered(s, id, o);
            && slot.ch < |s.chans| == |t.chans| && !s.chans[slot.ch].closed
            && var c := s.chans[slot.ch];
            if !c.HasRoom() then id in t.outs && t.outs[id] == slot.(pending := Some(o)) && t.chans[slot.ch] == c
            else if o.finished then id !in t.outs && t.chans[slot.ch] == c.Send(o).Close()
            else id in t.outs && t.outs[id] == slot.(pending := None) && t.chans[slot.ch] == c.Send(o)
  {
    assert s.Open(s.outs[id]);
  }

  lemma ChannelIs(w: World, h: nat)
    requires h < |w.logs| == |w.core.chans|
    ensures ChannelOk(w, h) <==>
              if HasSlot(w, h) then OpenOk(w.core.chans[h], w.logs[h], w.core.outs[w.logs[h].id].pending)
              else ClosedOk(w.core.chans[h], w.logs[h])
  {
  }

  lemma OfferKeepsOthers(w: World, id: string, o: Output, h: nat)
    requires w.core.Valid() && id in w.core.outs && InvElsewhere(w, w.core.outs[id].ch)
    requires h < |w.logs| && h != w.core.outs[id].ch
    ensures |Offered(w.core, id, o).chans| == |w.logs|
    ensures ChannelOk(World(Offered(w.core, id, o), w.logs), h)
  {
    hide OpenOk, ClosedOk;
    assert ChannelOk(w, h);
  }

  // One offer keeps the invariant.
  lemma OfferKeeps(w: World, id: string, o: Output)
    requires w.core.Valid() && id in w.core.outs && InvElsewhere(w, w.core.outs[id].ch)
    requires OfferOk(w.core.chans[w.core.outs[id].ch], w.logs[w.core.outs[id].ch], o)
    ensures Inv(World(Offered(w.core, id, o), w.logs))
  {
    hide ChannelOk, OfferOk;
    var v := World(Offered(w.core, id, o), w.logs);
    OfferKeepsChannel(w, id, o);
    forall h | 0 <= h < |v.logs|
      ensures ChannelOk(v, h)
    {
      if h != w.core.outs[id].ch {
        OfferKeepsOthers(w, id, o, h);
      }
    }
  }

  lemma SlotCount(outs: map<string, Slot>, id: string, slot: Slot)
    requires id in outs
    ensures |outs[id := slot]| == |outs| && |outs[id := slot] - {id}| == |outs| - 1
  {
    assert outs[id := slot].Keys == outs.Keys && (outs[id := slot] - {id}).Keys == outs.Keys - {id};
  }

  lemma OfferKeepsBound(maxConcurrent: int, s: State, id: string, o: Output)
    requires s.Valid() && id in s.outs && Bounded(maxConcurrent, s)
    ensures Bounded(maxConcurrent, Offered(s, id, o))
  {
    var slot := s.outs[id];
    SlotCount(s.outs, id, slot.(pending := None));
    SlotCount(s.outs, id, slot.(pending := Some(o)));
  }

  lemma DeliverKeeps(maxConcurrent: int, w: World, o: Output)
    requires Inv(w) && Enabled(w, Deliver(o))
    ensures Inv(Next(maxConcurrent, w, Deliver(o)))
  {
    hide ChannelOk;
    var id := o.requestId;
    if id in w.core.outs {
      var ch := w.core.outs[id].ch;
      var log := w.logs[ch].(produced := w.logs[ch].produced + [o]);
      var v := World(w.core, w.logs[ch := log]);
      forall h | 0 <= h < |v.logs| && h != ch
        ensures ChannelOk(v, h)
      {
        LogElsewhere(w, ch, log, h);
      }
      DeliverIsReady(w, o);
      if w.core.outs[id].pending.Some? {
        OfferKeeps(v, id, Coalesce(w.core.outs[id].pending.value, o));
      } else {
        OfferKeeps(v, id, o);
      }
    }
  }

  lemma LogElsewhere(w: World, ch: nat, log: Log, h: nat)
    requires Inv(w) && h < |w.logs| && ch < |w.logs| && h != ch
    ensures ChannelOk(World(w.core, w.logs[ch := log]), h)
  {
    assert ChannelOk(w, h);
  }

  // A newly produced increment, with what was pending, is all that is still to be sent.
  lemma DeliverIsReady(w: World, o: Output)
    requires Inv(w) && o.requestId in w.core.outs && Enabled(w, Deliver(o))
    ensures var slot := w.core.outs[o.requestId];
            var log := w.logs[slot.ch];
            OfferOk(w.core.chans[slot.ch], log.(produced := log.produced + [o]),
                    if slot.pending.Some? then Coalesce(slot.pending.value, o) else o)
  {
    var slot := w.core.outs[o.requestId];
    var log := w.logs[slot.ch];
    assert ChannelOk(w, slot.ch);
    TotalSnoc(log.produced, o);
    if slot.pending.Some? {
      CoalesceAdds(Total(log.consumed + w.core.chans[slot.ch].queue), slot.pending.value, o);
    }
  }

  lemma FlushSlotKeeps(w: World, id: string)
    requires Inv(w)
    ensures |FlushedSlot(w.core, id).chans| == |w.logs|
    ensures Inv(World(FlushedSlot(w.core, id), w.logs))
  {
    if id in w.core.outs && w.core.outs[id].pending.Some? {
      assert ChannelOk(w, w.core.outs[id].ch);
      OfferKeeps(w, id, w.core.outs[id].pending.value);
    }
  }

  lemma {:induction false} FlushKeeps(maxConcurrent: int, w: World, order: seq<string>)
    requires Inv(w)
    ensures Inv(World(Flushed(w.core, order), w.logs))
    ensures Bounded(maxConcurrent, w.core) ==> Bounded(maxConcurrent, Flushed(w.core, order))
    decreases |order|
  {
    assert w.core.Valid();
    hide Inv, FlushedSlot, Bounded;
    if order != [] {
      var earlier, id := order[..|order| - 1], order[|order| - 1];
      FlushKeeps(maxConcurrent, w, earlier);
      FlushSlotKeeps(World(Flushed(w.core, earlier), w.logs), id);
      FlushSlotKeepsBound(maxConcurrent, Flushed(w.core, earlier), id);
    }
  }

  lemma FlushSlotKeepsBound(maxConcurrent: int, s: State, id: string)
    requires s.Valid()
    ensures Bounded(maxConcurrent, s) ==> Bounded(maxConcurrent, FlushedSlot(s, id))
  {
    hide Bounded, Offered;
    if Bounded(maxConcurrent, s) && id in s.outs && s.outs[id].pending.Some? {
      OfferKeepsBound(maxConcurrent, s, id, s.outs[id].pending.value);
    }
  }

  lemma SubmitKeeps(maxConcurrent: int, w: World, id: string)
    requires Inv(w) && id !in w.core.outs
    ensures Inv(Next(maxConcurrent, w, Submit(id)))
  {
    var v := Next(maxConcurrent, w, Submit(id));
    forall h | 0 <= h < |v.logs|
      ensures ChannelOk(v, h)
    {
      if h < |w.logs| {
        assert ChannelOk(w, h);
      }
    }
  }

  lemma ReceiveKeeps(maxConcurrent: int, w: World, ch: nat)
    requires Inv(w)
    ensures Inv(Next(maxConcurrent, w, Receive(ch)))
  {
    hide ChannelOk;
    var v := Next(maxConcurrent, w, Receive(ch));
    forall h | 0 <= h < |v.logs|
      ensures ChannelOk(v, h)
    {
      ReceiveKeepsChannel(maxConcurrent, w, ch, h);
    }
  }

  lemma ReceiveKeepsChannel(maxConcurrent: int, w: World, ch: nat, h: nat)
    requires Inv(w) && h < |w.logs|
    ensures ChannelOk(Next(maxConcurrent, w, Receive(ch)), h)
  {
    assert ChannelOk(w, h);
    if h == ch && w.core.chans[ch].queue != [] {
      var queue := w.core.chans[ch].queue;
      assert w.logs[ch].consumed + [queue[0]] + queue[1..] == w.logs[ch].consumed + queue;
    }
  }

  lemma {:induction false} DroppedOuts(s: State, order: seq<string>, id: string)
    requires s.Valid()
    ensures id in Dropped(s, order).outs <==> id in s.outs && id !in order
    ensures id in Dropped(s, order).outs ==> Dropped(s, order).outs[id] == s.outs[id]
    decreases |order|
  {
    if order != [] {
      var n := |order| - 1;
      DroppedOuts(s, order[..n], id);
      assert order == order[..n] + [order[n]];
    }
  }

  lemma {:induction false} DroppedChannel(s: State, order: seq<string>, id: string)
    requires s.Valid() && id in s.outs
    ensures s.outs[id].ch < |Dropped(s, order).chans| == |s.chans|
    ensures Dropped(s, order).chans[s.outs[id].ch]
         == if id in order then s.chans[s.outs[id].ch].Close() else s.chans[s.outs[id].ch]
    decreases |order|
  {
    DropKeepsChannels(s, order);
    if order != [] {
      var n := |order| - 1;
      DroppedChannel(s, order[..n], id);
      DroppedOuts(s, order[..n], id);
      DroppedOuts(s, order[..n], order[n]);
      assert order == order[..n] + [order[n]];
    }
  }

  lemma {:induction false} UnslottedChannel(s: State, order: seq<string>, h: nat)
    requires s.Valid() && h < |s.chans| && forall id :: id in s.outs ==> s.outs[id].ch != h
    ensures h < |Dropped(s, order).chans| && Dropped(s, order).chans[h] == s.chans[h]
    decreases |order|
  {
    if order != [] {
      var n := |order| - 1;
      UnslottedChannel(s, order[..n], h);
      DroppedOuts(s, order[..n], order[n]);
    }
  }

  lemma ShutdownKeeps(maxConcurrent: int, w: World, order: seq<string>)
    requires Inv(w) && Covers(order, w.core.outs.Keys)
    ensures Inv(Next(maxConcurrent, w, Shutdown(order)))
    ensures Next(maxConcurrent, w, Shutdown(order)).core.outs == map[]
  {
    hide Dropped, Next;
    var v := Next(maxConcurrent, w, Shutdown(order));
    ShutdownIs(maxConcurrent, w, order);
    forall id
      ensures id !in v.core.outs
    {
      DroppedOuts(w.core, order, id);
    }
    forall h | 0 <= h < |v.logs|
      ensures ChannelOk(v, h)
    {
      assert ChannelOk(w, h);
      if HasSlot(w, h) {
        CutKeeps(w, order, h);
      } else {
        UnslottedChannel(w.core, order, h);
      }
    }
  }

  lemma ShutdownIs(maxConcurrent: int, w: World, order: seq<string>)
    requires Inv(w)
    ensures Next(maxConcurrent, w, Shutdown(order))
         == World(Dropped(w.core, order).(inFlight := 0, running := false), CutAll(w.core, w.logs))
  {
  }

  // A channel that is cut off has sent a prefix of what was produced.
  lemma CutKeeps(w: World, order: seq<string>, h: nat)
    requires Inv(w) && Covers(order, w.core.outs.Keys) && h < |w.logs| && HasSlot(w, h)
    ensures |Dropped(w.core, order).chans| == |w.logs|
    ensures ClosedOk(Dropped(w.core, order).chans[h], w.logs[h].(cut := true))
  {
    hide Dropped;
    assert ChannelOk(w, h);
    DropKeepsChannels(w.core, order);
    DroppedChannel(w.core, order, w.logs[h].id);
  }

  lemma InitInv(maxConcurrent: int)
    ensures Inv(World(State(map[], [], 0, false), []))
    ensures Bounded(maxConcurrent, State(map[], [], 0, false))
  {
  }

  lemma NextKeeps(maxConcurrent: int, w: World, e: Event)
    requires Inv(w) && Enabled(w, e)
    ensures Inv(Next(maxConcurrent, w, e))
  {
    match e
    case Start =>
      StartKeeps(maxConcurrent, w);
    case Submit(id) => SubmitKeeps(maxConcurrent, w, id);
    case Deliver(o) => DeliverKeeps(maxConcurrent, w, o);
    case Flush(order) => FlushKeeps(maxConcurrent, w, order);
    case Receive(ch) => ReceiveKeeps(maxConcurrent, w, ch);
    case Shutdown(order) => ShutdownKeeps(maxConcurrent, w, order);
  }

  lemma StartKeeps(maxConcurrent: int, w: World)
    requires Inv(w)
    ensures Inv(Next(maxConcurrent, w, Start))
  {
    var v := Next(maxConcurrent, w, Start);
    forall h | 0 <= h < |v.logs|
      ensures ChannelOk(v, h)
    {
      assert ChannelOk(w, h);
    }
  }

  lemma NextKeepsBound(maxConcurrent: int, w: World, e: Event)
    requires Inv(w) && Enabled(w, e) && Bounded(maxConcurrent, w.core)
    ensures Bounded(maxConcurrent, Next(maxConcurrent, w, e).core)
  {
    match e
    case Start =>
    case Submit(id) =>
      SubmitCountsIff(maxConcurrent, w.core, id);
    case Deliver(o) =>
      DeliverKeepsBound(maxConcurrent, w.core, o);
    case Flush(order) =>
      FlushKeeps(maxConcurrent, w, order);
    case Receive(ch) =>
    case Shutdown(order) =>
      ShutdownKeeps(maxConcurrent, w, order);
  }

  lemma DeliverKeepsBound(maxConcurrent: int, s: State, o: Output)
    requires s.Valid() && Bounded(maxConcurrent, s)
    ensures Bounded(maxConcurrent, Delivered(s, o))
  {
    hide Bounded, Offered;
    if o.requestId in s.outs {
      if s.outs[o.requestId].pending.Some? {
        OfferKeepsBound(maxConcurrent, s, o.requestId, Coalesce(s.outs[o.requestId].pending.value, o));
      } else {
        OfferKeepsBound(maxConcurrent, s, o.requestId, o);
      }
    }
  }

  // inFlight goes on counting the open slots exactly when an admitted id is a new one.
  lemma SubmitCountsIff(maxConcurrent: int, s: State, id: string)
    requires s.Valid() && Bounded(maxConcurrent, s)
    ensures Submitted(maxConcurrent, s, id).1.Admitted? ==>
              (Bounded(maxConcurrent, Submitted(maxConcurrent, s, id).0) <==> id !in s.outs)
    ensures Submitted(maxConcurrent, s, id).1.Admitted? <==>
              s.running && (maxConcurrent <= 0 || |s.outs| < maxConcurrent)
    ensures Submitted(maxConcurrent, s, id).1.NotRunning? <==> !s.running
  {
    var outs := s.outs[id := Slot(|s.chans|, None, false)];
    assert outs.Keys == s.outs.Keys + {id};
    assert id in s.outs ==> outs.Keys == s.outs.Keys;
  }

  // Over every run, for every channel: nothing is lost, doubled or reordered; a channel is
  // closed once, after its finished increment is queued or at shutdown, and not sent to
  // afterwards; and admission counts exactly the open slots.
  lemma {:induction false} RunKeeps(maxConcurrent: int, w: World, events: seq<Event>)
    requires Inv(w) && Bounded(maxConcurrent, w.core) && IsRun(maxConcurrent, w, events)
    ensures Inv(After(maxConcurrent, w, events))
    ensures Bounded(maxConcurrent, After(maxConcurrent, w, events).core)
    decreases |events|
  {
    hide Inv, Bounded, Next, Enabled;
    if events != [] {
      InvValid(w);
      NextKeeps(maxConcurrent, w, events[0]);
      NextKeepsBound(maxConcurrent, w, events[0]);
      RunKeeps(maxConcurrent, Next(maxConcurrent, w, events[0]), events[1..]);
    }
  }

  lemma InvValid(w: World)
    requires Inv(w)
    ensures w.core.Valid() && |w.logs| == |w.core.chans|
  {
  }

  // A consumer that has drained a closed channel has read everything produced for it, the
  // finished increment last, unless a shutdown cut it off; then it has read a prefix.
  lemma DrainedMeansAll(maxConcurrent: int, events: seq<Event>, h: nat)
    requires IsRun(maxConcurrent, World(State(map[], [], 0, false), []), events)
    ensures var v := After(maxConcurrent, World(State(map[], [], 0, false), []), events);
            h < |v.logs| && v.core.chans[h] == Channel([], true) ==>
              var log := v.logs[h];
              if log.cut then Total(log.consumed).PrefixOf(Total(log.produced))
              else
                && Total(log.consumed) == Total(log.produced) && EndsFinished(log.consumed)
                && Newest(log.consumed, None, log.produced)
  {
    InitInv(maxConcurrent);
    RunKeeps(maxConcurrent, World(State(map[], [], 0, false), []), events);
    var v := After(maxConcurrent, World(State(map[], [], 0, false), []), events);
    if h < |v.logs| && v.core.chans[h] == Channel([], true) {
      assert ChannelOk(v, h);
      assert v.logs[h].consumed + [] == v.logs[h].consumed;
    }
  }

  // A flush after the consumer has made room leaves no backlog in the slot, whatever the
  // order of the walk.
  lemma {:induction false} FlushClearsRoomy(s: State, order: seq<string>, id: string)
    requires s.Valid() && id in s.outs && id in order && s.chans[s.outs[id].ch].HasRoom()
    ensures id !in Flushed(s, order).outs || Flushed(s, order).outs[id].pending.None?
    decreases |order|
  {
    var n := |order| - 1;
    var t := Flushed(s, order[..n]);
    FlushElsewhere(s, order[..n], id);
    assert order == order[..n] + [order[n]];
    if id in order[..n] {
      FlushClearsRoomy(s, order[..n], id);
    }
  }

  // A delivery to a channel with room is sent at once: one more increment is queued, with
  // the backlog before it merged in, and none is left in the slot.
  lemma DeliverSendsAtOnce(s: State, o: Output)
    requires s.Valid() && o.requestId in s.outs && s.chans[s.outs[o.requestId].ch].HasRoom()
    ensures var slot, t := s.outs[o.requestId], Delivered(s, o);
            && |t.chans| == |s.chans|
            && (o.requestId !in t.outs || t.outs[o.requestId].pending.None?)
            && var before, after := s.chans[slot.ch].queue, t.chans[slot.ch].queue;
            && |after| == |before| + 1 && after[..|before|] == before && SameHead(after[|before|], o)
            && after[|before|].newText == (if slot.pending.Some? then slot.pending.value.newText else "") + o.newText
            && after[|before|].newTokens == (if slot.pending.Some? then slot.pending.value.newTokens else []) + o.newTokens
  {
    var slot := s.outs[o.requestId];
    assert s.Open(slot);
    assert [] + o.newTokens == o.newTokens && "" + o.newText == o.newText;
  }

  // A slot the walk has not reached is as it was.
  lemma {:induction false} FlushElsewhere(s: State, order: seq<string>, id: string)
    requires s.Valid() && id in s.outs
    ensures id !in order ==>
              var t := Flushed(s, order);
              id in t.outs && t.outs[id] == s.outs[id] && t.chans[t.outs[id].ch] == s.chans[s.outs[id].ch]
    decreases |order|
  {
    if order != [] && id !in order {
      FlushElsewhere(s, order[..|order| - 1], id);
    }
  }

  // Why nothing may be produced after a finished increment: while that one waits in the
  // backlog, a further increment keeps the request's end in sight exactly when it is
  // finished itself.
  lemma FinishSurvivesIff(s: State, o: Output)
    requires s.Valid() && o.requestId in s.outs
    requires s.outs[o.requestId].pending.Some? && s.outs[o.requestId].pending.value.finished
    ensures var t := Delivered(s, o);
            (o.requestId !in t.outs
             || (t.outs[o.requestId].pending.Some? && t.outs[o.requestId].pending.value.finished))
            <==> o.finished
  {
    assert s.Open(s.outs[o.requestId]);
  }
}
