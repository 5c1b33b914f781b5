module OutputCollector {
  // The per-request output buffer of engine/output_collector.go: one producer, one consumer,
  // and a process-wide count of consumers that wait. The blocking Get is taken apart at its
  // lock and its receive, so that puts and clears can fall between its steps.

  import opened Outputs
  import opened Wrappers

  // ---------------------------------------------------------------------------
  // Merging

  function Merge(existing: Output, incoming: Output): Output {
    incoming.(
      newTokens := existing.newTokens + incoming.newTokens,
      newText := existing.newText + incoming.newText,
      rest := incoming.rest.(err := if incoming.rest.err == "" then existing.rest.err else incoming.rest.err))
  }

  // How puts are grouped into merges does not matter.
  lemma MergeAssociative(a: Output, b: Output, c: Output)
    ensures Merge(Merge(a, b), c) == Merge(a, Merge(b, c))
  {
    assert a.newTokens + b.newTokens + c.newTokens == a.newTokens + (b.newTokens + c.newTokens);
    assert a.newText + b.newText + c.newText == a.newText + (b.newText + c.newText);
  }

  // ---------------------------------------------------------------------------
  // A collector

  // The buffer, and whether a consumer is counted and the ready signal is set.
  datatype State = State(buffered: Option<Output>, aggregate: bool, waiting: bool, ready: bool)

  function AfterPut(s: State, o: Output): State {
    var buffered := if s.buffered.Some? && s.aggregate then Merge(s.buffered.value, o) else o;
    s.(buffered := Some(buffered), ready := true)
  }

  function Taken(s: State): State {
    if s.buffered.None? then s else s.(buffered := None, ready := false)
  }

  const NO_OUTPUT: Output := Output("", [], "", false, Cumulative([], "", "", 0, 0, 0, 0, ""))

  // The process-wide waitingConsumers.
  class Waiting {
    var consumers: int

    constructor ()
      ensures consumers == 0
    {
      consumers := 0;
    }

    method HasWaitingConsumers() returns (any: bool)
      ensures any <==> consumers > 0
    {
      return consumers > 0;
    }
  }

  class RequestOutputCollector {
    const aggregate: bool
    var output: Output
    var hasOutput: bool
    var isWaiting: bool
    var ready: bool

    constructor (aggregate: bool)
      ensures Current() == State(None, aggregate, false, false)
    {
      this.aggregate := aggregate;
      output, hasOutput, isWaiting, ready := NO_OUTPUT, false, false, false;
    }

    ghost function Current(): State
      reads this
    {
      State(if hasOutput then Some(output) else None, aggregate, isWaiting, ready)
    }

    method Put(o: Output)
      modifies this
      ensures Current() == AfterPut(old(Current()), o)
    {
      if !hasOutput {
        output := o;
        hasOutput := true;
      } else if aggregate {
        output := Merge(output, o);
      } else {
        output := o;
      }
      ready := true;
    }

    method TakeLocked() returns (o: Option<Output>)
      modifies this
      ensures o == old(Current()).buffered && Current() == Taken(old(Current()))
    {
      if !hasOutput {
        return None;
      }
      o := Some(output);
      output := NO_OUTPUT;
      hasOutput := false;
      ready := false;
    }

    method GetNowait() returns (o: Option<Output>)
      modifies this
      ensures o == old(Current()).buffered && Current() == Taken(old(Current()))
    {
      o := TakeLocked();
    }

    // The first section of Get.
    method BeginGet(w: Waiting)
      modifies this, w
      ensures Current() == old(Current()).(waiting := true)
      ensures w.consumers == old(w.consumers) + if old(isWaiting) then 0 else 1
    {
      if !isWaiting {
        isWaiting := true;
        w.consumers := w.consumers + 1;
      }
    }

    // The receive in Get's select; it waits until the signal is set.
    method ReceiveReady()
      requires ready
      modifies this
      ensures Current() == old(Current()).(ready := false)
    {
      ready := false;
    }

    method StopWaiting(w: Waiting)
      modifies this, w
      ensures Current() == old(Current()).(waiting := false)
      ensures w.consumers == old(w.consumers) - if old(isWaiting) then 1 else 0
    {
      if isWaiting {
        isWaiting := false;
        w.consumers := w.consumers - 1;
      }
    }

    method Clear(w: Waiting)
      modifies this, w
      ensures Current() == State(None, aggregate, false, false)
      ensures w.consumers == old(w.consumers) - if old(isWaiting) then 1 else 0
    {
      output := NO_OUTPUT;
      hasOutput := false;
      ready := false;
      if isWaiting {
        isWaiting := false;
        w.consumers := w.consumers - 1;
      }
    }
  }

  // ---------------------------------------------------------------------------
  // Interleavings

  // Where the consumer is in Get: not in it, about to look at the buffer, at the select, or
  // about to run the deferred stopWaiting.
  datatype Pc = Idle | Looking | Parked | Leaving

  // `cleared` is about the collector's whole life, `interrupted` about the Get under way: a
  // Clear has fallen into it.
  datatype Collector = Collector(
    s: State, pc: Pc, put: seq<Output>, taken: seq<Output>, cleared: bool, interrupted: bool)

  function Fresh(aggregate: bool): Collector {
    Collector(State(None, aggregate, false, false), Idle, [], [], false, false)
  }

  datatype Action = Put(o: Output) | Nowait | Begin | Look | Wake | Cancel | Leave | Clear

  predicate Enabled(c: Collector, a: Action) {
    match a
    case Put(_) => true
    case Nowait => c.pc == Idle
    case Begin => c.pc == Idle
    case Look => c.pc == Looking
    case Wake => c.pc == Parked && c.s.ready
    case Cancel => c.pc == Parked
    case Leave => c.pc == Leaving
    case Clear => true
  }

  function Take(c: Collector): Collector {
    c.(s := Taken(c.s), taken := if c.s.buffered.Some? then c.taken + [c.s.buffered.value] else c.taken)
  }

  function Act(c: Collector, a: Action): Collector {
    match a
    case Put(o) => c.(s := AfterPut(c.s, o), put := c.put + [o])
    case Nowait => Take(c)
    case Begin => c.(s := c.s.(waiting := true), pc := Looking, interrupted := false)
    case Look => if c.s.buffered.Some? then Take(c).(pc := Leaving) else c.(pc := Parked)
    case Wake => c.(s := c.s.(ready := false), pc := Looking)
    case Cancel => c.(pc := Leaving)
    case Leave => c.(s := c.s.(waiting := false), pc := Idle)
    case Clear =>
      c.(s := State(None, c.s.aggregate, false, false), cleared := true, interrupted := c.pc != Idle)
  }

  // What the action adds to waitingConsumers.
  function Counted(c: Collector, a: Action): int {
    match a
    case Begin => if c.s.waiting then 0 else 1
    case Leave => if c.s.waiting then -1 else 0
    case Clear => if c.s.waiting then -1 else 0
    case _ => 0
  }

  // All collectors of the process and the count they share.
  datatype World = World(collectors: seq<Collector>, consumers: int)

  datatype Event = New(aggregate: bool) | Do(i: nat, a: Action)

  function Next(w: World, e: Event): World {
    match e
    case New(aggregate) =>
      w.(collectors := w.collectors + [Fresh(aggregate)])
    case Do(i, a) =>
      if i < |w.collectors| && Enabled(w.collectors[i], a) then
        World(w.collectors[i := Act(w.collectors[i], a)], w.consumers + Counted(w.collectors[i], a))
      else w
  }

  function After(w: World, events: seq<Event>): World
    decreases |events|
  {
    if events == [] then w else After(Next(w, events[0]), events[1..])
  }

  // ---------------------------------------------------------------------------
  // What every interleaving keeps

  // A ready signal means there is an output; an output means there is a signal, or a
  // consumer past its receive that will look.
  predicate Wakeful(c: Collector) {
    && (c.s.ready ==> c.s.buffered.Some?)
    && (c.s.buffered.Some? ==> c.s.ready || c.pc == Looking)
  }

  // Nothing is lost, doubled or reordered.
  predicate Kept(c: Collector) {
    c.s.aggregate && !c.cleared ==>
      Total(c.put) == if c.s.buffered.Some? then Total(c.taken).Plus(c.s.buffered.value) else Total(c.taken)
  }

  // A consumer is counted exactly while it is in a Get that no Clear has interrupted.
  predicate Marked(c: Collector) {
    c.s.waiting <==> c.pc != Idle && !c.interrupted
  }

  predicate CollectorOk(c: Collector) {
    Wakeful(c) && Kept(c) && Marked(c)
  }

  lemma PutKeeps(c: Collector, o: Output)
    requires CollectorOk(c)
    ensures CollectorOk(Act(c, Put(o)))
  {
    hide Total;
    TotalSnoc(c.put, o);
    if c.s.buffered.Some? {
      MergeAdds(Total(c.taken), c.s.buffered.value, o);
    }
  }

  lemma MergeAdds(d: Deltas, a: Output, b: Output)
    ensures d.Plus(Merge(a, b)) == d.Plus(a).Plus(b)
  {
  }

  lemma TakeKeeps(c: Collector)
    requires CollectorOk(c)
    ensures Wakeful(Take(c)) && Kept(Take(c))
  {
    hide Total;
    if c.s.buffered.Some? {
      TotalSnoc(c.taken, c.s.buffered.value);
    }
  }

  lemma ActKeeps(c: Collector, a: Action)
    requires CollectorOk(c) && Enabled(c, a)
    ensures CollectorOk(Act(c, a))
  {
    hide Total;
    match a
    case Put(o) => PutKeeps(c, o);
    case Nowait => TakeKeeps(c);
    case Look => TakeKeeps(c);
    case _ =>
  }

  function Marks(cs: seq<Collector>): (n: nat)
    ensures n <= |cs|
    ensures n > 0 <==> exists i :: 0 <= i < |cs| && cs[i].s.waiting
  {
    if cs == [] then 0
    else
      var last := cs[|cs| - 1];
      var n := Marks(cs[..|cs| - 1]);
      if last.s.waiting then n + 1 else n
  }

  lemma {:induction false} MarksUpdate(cs: seq<Collector>, i: nat, c: Collector)
    requires i < |cs|
    ensures Marks(cs[i := c]) == Marks(cs) + (if c.s.waiting then 1 else 0) - (if cs[i].s.waiting then 1 else 0)
  {
    var n := |cs| - 1;
    if i < n {
      assert cs[i := c][..n] == cs[..n][i := c];
      MarksUpdate(cs[..n], i, c);
    } else {
      assert cs[i := c][..n] == cs[..n];
    }
  }

  ghost predicate Inv(w: World) {
    && (forall i :: 0 <= i < |w.collectors| ==> CollectorOk(w.collectors[i]))
    && w.consumers == Marks(w.collectors)
  }

  // An action's part in the count is the change of its collector's mark.
  lemma CountsTheMark(c: Collector, a: Action)
    ensures Counted(c, a) == (if Act(c, a).s.waiting then 1 else 0) - (if c.s.waiting then 1 else 0)
  {
  }

  lemma MarksFresh(cs: seq<Collector>, c: Collector)
    requires !c.s.waiting
    ensures Marks(cs + [c]) == Marks(cs)
  {
    assert (cs + [c])[..|cs|] == cs;
  }

  lemma NextKeeps(w: World, e: Event)
    requires Inv(w)
    ensures Inv(Next(w, e))
  {
    hide CollectorOk, Act, Counted, Marks, Enabled;
    match e
    case New(aggregate) =>
      FreshOk(aggregate);
      MarksFresh(w.collectors, Fresh(aggregate));
    case Do(i, a) =>
      if i < |w.collectors| && Enabled(w.collectors[i], a) {
        ActKeeps(w.collectors[i], a);
        CountsTheMark(w.collectors[i], a);
        MarksUpdate(w.collectors, i, Act(w.collectors[i], a));
      }
  }

  lemma FreshOk(aggregate: bool)
    ensures CollectorOk(Fresh(aggregate))
  {
  }

  // Every interleaving of producers, consumers and clears over any number of collectors:
  // no lost wakeup, no lost delta, and a count that is the number of collectors marked
  // waiting.
  lemma {:induction false} RunKeeps(w: World, events: seq<Event>)
    requires Inv(w)
    ensures Inv(After(w, events))
    decreases |events|
  {
    hide Inv, Next;
    if events != [] {
      NextKeeps(w, events[0]);
      RunKeeps(Next(w, events[0]), events[1..]);
    }
  }

  // A consumer at the select while an output is buffered can go on: it is signalled, and
  // once woken it takes exactly that output.
  lemma NoLostWakeup(events: seq<Event>, i: nat)
    ensures var w := After(World([], 0), events);
            i < |w.collectors| && w.collectors[i].pc == Parked && w.collectors[i].s.buffered.Some? ==>
              && Enabled(w.collectors[i], Wake)
              && var c := Act(Act(w.collectors[i], Wake), Look);
              c.taken == w.collectors[i].taken + [w.collectors[i].s.buffered.value] && c.pc == Leaving
  {
    RunKeeps(World([], 0), events);
  }

  // HasWaitingConsumers is right about the whole process, but for consumers whose Get was
  // interrupted by a Clear: those go on waiting uncounted.
  lemma CountIsRight(events: seq<Event>)
    ensures var w := After(World([], 0), events);
            w.consumers > 0 <==>
              exists i :: 0 <= i < |w.collectors| && w.collectors[i].pc != Idle && !w.collectors[i].interrupted
  {
    RunKeeps(World([], 0), events);
    var w := After(World([], 0), events);
    assert forall i :: 0 <= i < |w.collectors| ==> CollectorOk(w.collectors[i]);
  }

  // The consumers inside Get.
  function Inside(cs: seq<Collector>): nat {
    if cs == [] then 0
    else Inside(cs[..|cs| - 1]) + if cs[|cs| - 1].pc != Idle then 1 else 0
  }

  lemma {:induction false} MarksInside(cs: seq<Collector>)
    requires forall i :: 0 <= i < |cs| ==> Marked(cs[i])
    ensures Marks(cs) <= Inside(cs)
    ensures Marks(cs) == Inside(cs) <==> forall i :: 0 <= i < |cs| ==> cs[i].pc == Idle || !cs[i].interrupted
  {
    if cs != [] {
      var n := |cs| - 1;
      MarksInside(cs[..n]);
      assert forall i :: 0 <= i < n ==> cs[..n][i] == cs[i];
    }
  }

  // The count is the number of consumers inside Get exactly when no Clear has fallen into
  // a Get still under way; otherwise it is less.
  lemma CountsEveryGetIff(events: seq<Event>)
    ensures var w := After(World([], 0), events);
            && w.consumers <= Inside(w.collectors)
            && (w.consumers == Inside(w.collectors) <==>
                  forall i :: 0 <= i < |w.collectors| ==> w.collectors[i].pc == Idle || !w.collectors[i].interrupted)
  {
    RunKeeps(World([], 0), events);
    var w := After(World([], 0), events);
    assert forall i :: 0 <= i < |w.collectors| ==> CollectorOk(w.collectors[i]);
    MarksInside(w.collectors);
  }

  // Such a run: a consumer parks, a Clear comes, and nobody seems to wait.
  lemma ClearHidesAConsumer()
    ensures var w := After(World([], 0), [New(true), Do(0, Begin), Do(0, Look), Do(0, Clear)]);
            |w.collectors| == 1 && w.collectors[0].pc == Parked && w.consumers == 0
  {
    var w0 := Next(World([], 0), New(true));
    assert w0.collectors == [Fresh(true)];
    var w1 := Next(w0, Do(0, Begin));
    var w2 := Next(w1, Do(0, Look));
    var w3 := Next(w2, Do(0, Clear));
    AfterNothing(w3);
    var clear := [Do(0, Clear)];
    var look := [Do(0, Look)] + clear;
    var begin := [Do(0, Begin)] + look;
    AfterFirst(w2, Do(0, Clear), []);
    assert [Do(0, Clear)] + [] == clear;
    AfterFirst(w1, Do(0, Look), clear);
    AfterFirst(w0, Do(0, Begin), look);
    AfterFirst(World([], 0), New(true), begin);
    assert [New(true), Do(0, Begin), Do(0, Look), Do(0, Clear)] == [New(true)] + begin;
  }

  lemma AfterNothing(w: World)
    ensures After(w, []) == w
  {
  }

  lemma AfterFirst(w: World, e: Event, events: seq<Event>)
    ensures After(w, [e] + events) == After(Next(w, e), events)
  {
    assert ([e] + events)[1..] == events;
  }

  // One put adds its deltas to what the consumer will read exactly when the collector
  // aggregates, or nothing was buffered, or what it replaces had no deltas.
  lemma PutKeepsAllIff(s: State, o: Output, taken: Deltas)
    ensures (var before := if s.buffered.Some? then taken.Plus(s.buffered.value) else taken;
             taken.Plus(AfterPut(s, o).buffered.value) == before.Plus(o))
       <==> s.aggregate || s.buffered.None? || (s.buffered.value.newText == "" && s.buffered.value.newTokens == [])
  {
    if s.buffered.Some? {
      var b := s.buffered.value;
      assert taken.text + b.newText + o.newText == taken.text + (b.newText + o.newText);
      assert taken.tokens + b.newTokens + o.newTokens == taken.tokens + (b.newTokens + o.newTokens);
      if !s.aggregate {
        assert |taken.text + b.newText + o.newText| == |taken.text| + |b.newText| + |o.newText|;
        assert |taken.tokens + b.newTokens + o.newTokens| == |taken.tokens| + |b.newTokens| + |o.newTokens|;
      }
    }
  }

  // An error survives merging: the buffered output has one exactly when some put since the
  // last take did.
  lemma {:induction false} ErrorsSurvive(s: State, puts: seq<Output>)
    requires s.aggregate && s.buffered.Some?
    ensures PutAll(s, puts).buffered.Some? && PutAll(s, puts).aggregate
    ensures PutAll(s, puts).buffered.value.rest.err != ""
       <==> s.buffered.value.rest.err != "" || exists i :: 0 <= i < |puts| && puts[i].rest.err != ""
    decreases |puts|
  {
    if puts != [] {
      ErrorsSurvive(s, puts[..|puts| - 1]);
    }
  }

  // The newest error of the puts, or an earlier one if they have none.
  function NewestError(earlier: string, puts: seq<Output>): string
    decreases |puts|
  {
    if puts == [] then earlier
    else if puts[|puts| - 1].rest.err != "" then puts[|puts| - 1].rest.err
    else NewestError(earlier, puts[..|puts| - 1])
  }

  // After any puts the buffered output is, but for the deltas and the error, the last one
  // put; its deltas are all of theirs, joined, and its error their newest one when the
  // collector aggregates, and its own otherwise.
  lemma {:induction false} BufferedIsTheLast(s: State, puts: seq<Output>)
    requires puts != [] && s.buffered.None?
    ensures PutAll(s, puts).buffered.Some? && PutAll(s, puts).aggregate == s.aggregate
    ensures var o, last := PutAll(s, puts).buffered.value, puts[|puts| - 1];
            && o.requestId == last.requestId && o.finished == last.finished
            && o.rest.(err := "") == last.rest.(err := "")
            && (!s.aggregate ==> o == last)
            && (s.aggregate ==> Deltas(o.newText, o.newTokens) == Total(puts) && o.rest.err == NewestError("", puts))
    decreases |puts|
  {
    var earlier, last := puts[..|puts| - 1], puts[|puts| - 1];
    assert puts == earlier + [last];
    if earlier == [] {
      assert puts == [last] && Total([]) == Deltas("", []);
      assert Total(puts) == Deltas("", []).Plus(last);
      assert "" + last.newText == last.newText && [] + last.newTokens == last.newTokens;
      assert PutAll(s, earlier) == s;
    } else {
      BufferedIsTheLast(s, earlier);
    }
  }

  function PutAll(s: State, puts: seq<Output>): State
    decreases |puts|
  {
    if puts == [] then s else AfterPut(PutAll(s, puts[..|puts| - 1]), puts[|puts| - 1])
  }
}
