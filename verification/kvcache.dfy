module KvCache {
  // The KV-cache index arithmetic of compute/kvcache.go.
  //
  // The source carries scalars only: every Update returns a plan that says which
  // buffer ranges the tensor backend must grow, reorder, trim and write. Here the
  // scalars live in two classes, each proved against a step function, and the plans
  // are replayed on a token buffer. The buffer then refines an append-only log of
  // tokens: the whole log for the growable cache, a sliding window of it for the
  // rotating one.

  const KV_STEP: int := 256

  datatype UpdatePlan = UpdatePlan(
    prev: int,
    offset: int,
    capacity: int,
    writeBegin: int,
    writeEnd: int,
    fetchEnd: int,
    grew: bool,
    truncatedTail: bool)

  // One position of a backing buffer. A position holds a token's keys, named by the token;
  // freshly allocated positions hold zeros.
  type Token = int

  function Min(a: int, b: int): int {
    if a < b then a else b
  }

  function Zeros(n: int): (slots: seq<Token>)
    ensures |slots| == if n < 0 then 0 else n
  {
    if n < 0 then [] else seq(n, i => 0)
  }

  // Overwrites slots[begin..begin + |tokens|] with the tokens.
  function Write(slots: seq<Token>, begin: int, tokens: seq<Token>): (r: seq<Token>)
    requires 0 <= begin && begin + |tokens| <= |slots|
    ensures |r| == |slots|
  {
    slots[..begin] + tokens + slots[begin + |tokens|..]
  }

  // ---------------------------------------------------------------------------
  // The growable cache

  datatype Grow = Grow(offset: int, capacity: int)

  function GrowStep(c: Grow, n: int): (Grow, UpdatePlan) {
    if n <= 0 then
      (c, UpdatePlan(c.offset, c.offset, c.capacity, c.offset, c.offset, c.offset, false, false))
    else
      var grew := c.capacity == 0 || c.offset + n > c.capacity;
      var block := (KV_STEP + n - 1) / KV_STEP * KV_STEP;
      var unaligned := grew && c.capacity != 0 && c.offset % KV_STEP != 0;
      var capacity :=
        if !grew then c.capacity
        else if c.capacity == 0 then block
        else if unaligned then c.offset + block
        else c.capacity + block;
      (Grow(c.offset + n, capacity),
       UpdatePlan(c.offset, c.offset + n, capacity, c.offset, c.offset + n, c.offset + n, grew, unaligned))
  }

  class KVCache {
    var Offset: int
    var capacity: int

    constructor ()
      ensures State() == Grow(0, 0)
    {
      Offset, capacity := 0, 0;
    }

    ghost function State(): Grow
      reads this
    {
      Grow(Offset, capacity)
    }

    method Update(numSteps: int) returns (plan: UpdatePlan)
      requires 0 <= Offset
      modifies this
      ensures (State(), plan) == GrowStep(old(State()), numSteps)
    {
      var prev := Offset;
      if numSteps <= 0 {
        return UpdatePlan(prev, Offset, capacity, prev, prev, Offset, false, false);
      }
      var grew, truncatedTail := false, false;
      if capacity == 0 || prev + numSteps > capacity {
        grew := true;
        var nSteps := (KV_STEP + numSteps - 1) / KV_STEP;
        var block := nSteps * KV_STEP;
        if capacity != 0 {
          if prev % KV_STEP != 0 {
            capacity := prev;
            truncatedTail := true;
          }
          capacity := capacity + block;
        } else {
          capacity := block;
        }
      }
      Offset := Offset + numSteps;
      plan := UpdatePlan(prev, Offset, capacity, prev, Offset, Offset, grew, truncatedTail);
    }

    method Trim(n: int) returns (trimmed: int)
      modifies this
      ensures trimmed == Min(n, old(Offset))
      ensures State() == Grow(old(Offset) - trimmed, old(capacity))
    {
      trimmed := Min(n, Offset);
      Offset := Offset - trimmed;
    }
  }

  // What the backend does with a plan: slice off the slack tail, append zeros up to
  // the planned capacity, then assign the step's tokens to the write range.
  function GrowReplay(plan: UpdatePlan, buffer: seq<Token>, tokens: seq<Token>): seq<Token>
    requires 0 <= plan.prev <= |buffer|
    requires plan.writeBegin == plan.prev
    requires plan.prev + |tokens| <= plan.capacity
  {
    var kept := if plan.truncatedTail then buffer[..plan.prev] else buffer;
    var grown := kept + Zeros(plan.capacity - |kept|);
    Write(grown, plan.writeBegin, tokens)
  }

  ghost predicate GrowRefines(c: Grow, buffer: seq<Token>, log: seq<Token>) {
    && c.offset == |log| <= c.capacity == |buffer|
    && buffer[..c.offset] == log
  }

  // Appending through a plan appends to the log; the fetched view is the whole log.
  lemma GrowAppends(c: Grow, buffer: seq<Token>, log: seq<Token>, tokens: seq<Token>)
    requires GrowRefines(c, buffer, log)
    ensures var (after, plan) := GrowStep(c, |tokens|);
            && plan.prev + |tokens| <= plan.capacity
            && var grown := GrowReplay(plan, buffer, tokens);
            && GrowRefines(after, grown, log + tokens)
            && grown[..plan.fetchEnd] == log + tokens
            && plan.writeEnd == plan.writeBegin + |tokens| <= |grown|
  {
    var (after, plan) := GrowStep(c, |tokens|);
    assert (KV_STEP + |tokens| - 1) / KV_STEP * KV_STEP >= |tokens|;
    var grown := GrowReplay(plan, buffer, tokens);
    forall i | 0 <= i < |log + tokens|
      ensures grown[i] == (log + tokens)[i]
    {
      if i < |log| {
        assert buffer[i] == buffer[..c.offset][i];
      } else {
        assert grown[i] == grown[|log|..|log| + |tokens|][i - |log|];
      }
    }
  }

  // When the buffer grows and by how much, for every update: exactly when it cannot take the
  // tokens, by the fewest blocks that can, after its slack is cut off unless the log ends at
  // a block; and the flags say which of this happened.
  lemma GrowthIsExact(c: Grow, n: int)
    requires 0 <= c.offset <= c.capacity
    ensures var plan := GrowStep(c, n).1;
            var kept := if c.offset % KV_STEP == 0 then c.capacity else c.offset;
            && (plan.grew <==> n > 0 && c.offset + n > c.capacity)
            && (!plan.grew ==> plan.capacity == c.capacity && !plan.truncatedTail)
            && (plan.grew ==>
                  && (plan.truncatedTail <==> c.offset % KV_STEP != 0)
                  && exists blocks: int ::
                       plan.capacity == kept + blocks * KV_STEP && (blocks - 1) * KV_STEP < n <= blocks * KV_STEP)
    ensures var plan := GrowStep(c, n).1;
            plan.grew <==> plan.capacity > c.capacity || plan.truncatedTail
  {
    if n > 0 {
      var blocks := (KV_STEP + n - 1) / KV_STEP;
      assert (blocks - 1) * KV_STEP < n <= blocks * KV_STEP;
    }
  }

  lemma GrowTrims(c: Grow, buffer: seq<Token>, log: seq<Token>, n: nat)
    requires GrowRefines(c, buffer, log)
    ensures var m := Min(n, c.offset);
            GrowRefines(Grow(c.offset - m, c.capacity), buffer, log[..|log| - m])
  {
    var rest := c.offset - Min(n, c.offset);
    assert buffer[..rest] == buffer[..c.offset][..rest];
  }

  // ---------------------------------------------------------------------------
  // The rotating cache

  datatype Rot = Rot(keep: int, maxSize: int, offset: int, idx: int, capacity: int)
  {
    function FetchEnd(): int {
      if offset < maxSize then offset else capacity
    }

    function TemporalOrderCapacity(): int {
      if idx == capacity || idx < offset then capacity else idx
    }

    predicate Trimmable() {
      offset < maxSize
    }
  }

  function RotInPlace(c: Rot): (Rot, UpdatePlan) {
    var grew := c.capacity == 0 || (c.offset >= c.capacity && c.capacity < c.maxSize);
    var grown := if grew then c.capacity + Min(KV_STEP, c.maxSize - c.offset) else c.capacity;
    var trims := grown > c.maxSize;
    var capacity := if trims then c.maxSize else grown;
    var cursor := if trims then c.maxSize else if grew then c.offset else c.idx;
    var begin := if cursor == c.maxSize then c.keep else cursor;
    var after := Rot(c.keep, c.maxSize, c.offset + 1, begin + 1, capacity);
    (after, UpdatePlan(c.offset, after.offset, capacity, begin, begin + 1, after.FetchEnd(), grew, false))
  }

  function RotConcat(c: Rot, s: int): (Rot, UpdatePlan) {
    var ordered := c.TemporalOrderCapacity();
    var capacity :=
      if c.capacity == 0 then s
      else if ordered - c.maxSize + 1 > 0 then ordered - (ordered - c.maxSize + 1) + s
      else ordered + s;
    var after := Rot(c.keep, c.maxSize, c.offset + s, capacity, capacity);
    (after, UpdatePlan(c.offset, after.offset, capacity, c.offset, after.offset, after.FetchEnd(), false, false))
  }

  function RotStep(c: Rot, n: int): (Rot, UpdatePlan) {
    if n == 1 then RotInPlace(c) else RotConcat(c, n)
  }

  function RotTrim(c: Rot, n: int): Rot {
    var m := Min(n, c.offset);
    c.(offset := c.offset - m, idx := c.idx - m)
  }

  class RotatingKVCache {
    var Keep: int
    var MaxSize: int
    var Offset: int
    var Idx: int
    var capacity: int

    constructor (maxSize: int, keep: int)
      ensures State() == Rot(keep, maxSize, 0, 0, 0)
    {
      Keep, MaxSize, Offset, Idx, capacity := keep, maxSize, 0, 0, 0;
    }

    ghost function State(): Rot
      reads this
    {
      Rot(Keep, MaxSize, Offset, Idx, capacity)
    }

    method Size() returns (size: int)
      ensures size == Min(Offset, MaxSize)
    {
      if Offset < MaxSize {
        return Offset;
      }
      return MaxSize;
    }

    method FetchEnd() returns (end: int)
      ensures end == State().FetchEnd()
    {
      if Offset < MaxSize {
        return Offset;
      }
      return capacity;
    }

    method TemporalOrderCapacity() returns (ordered: int)
      ensures ordered == State().TemporalOrderCapacity()
    {
      if Idx == capacity || Idx < Offset {
        return capacity;
      }
      return Idx;
    }

    method Update(numSteps: int) returns (plan: UpdatePlan)
      modifies this
      ensures (State(), plan) == RotStep(old(State()), numSteps)
    {
      if numSteps == 1 {
        plan := UpdateInPlace(1);
      } else {
        plan := UpdateConcat(numSteps);
      }
    }

    method UpdateInPlace(s: int) returns (plan: UpdatePlan)
      requires s == 1
      modifies this
      ensures (State(), plan) == RotInPlace(old(State()))
    {
      var prev := Offset;
      var grew := false;
      if capacity == 0 || (prev >= capacity && capacity < MaxSize) {
        grew := true;
        var newSize := Min(KV_STEP, MaxSize - prev);
        if capacity != 0 {
          capacity := capacity + newSize;
        } else {
          capacity := newSize;
        }
        Idx := prev;
      }
      var trimSize := capacity - MaxSize;
      if trimSize > 0 {
        capacity := MaxSize;
        Idx := MaxSize;
      }
      if Idx == MaxSize {
        Idx := Keep;
      }
      var begin, end := Idx, Idx + s;
      Offset := Offset + s;
      Idx := Idx + s;
      var fetchEnd := FetchEnd();
      plan := UpdatePlan(prev, Offset, capacity, begin, end, fetchEnd, grew, false);
    }

    method UpdateConcat(s: int) returns (plan: UpdatePlan)
      modifies this
      ensures (State(), plan) == RotConcat(old(State()), s)
    {
      var prev := Offset;
      if capacity == 0 {
        capacity := s;
      } else {
        capacity := TemporalOrderCapacity();
        Idx := capacity;
        var trimSize := Idx - MaxSize + 1;
        if trimSize > 0 {
          capacity := capacity - trimSize + s;
        } else {
          capacity := capacity + s;
        }
      }
      Offset := Offset + s;
      Idx := capacity;
      var fetchEnd := FetchEnd();
      plan := UpdatePlan(prev, Offset, capacity, prev, Offset, fetchEnd, false, false);
    }

    method Trim(n: int) returns (trimmed: int)
      modifies this
      ensures trimmed == Min(n, old(Offset))
      ensures State() == RotTrim(old(State()), n)
    {
      trimmed := Min(n, Offset);
      Offset := Offset - trimmed;
      Idx := Idx - trimmed;
    }
  }

  // Drops `trim` tokens just after the pinned head.
  function TrimBuffer(keep: int, trim: int, buffer: seq<Token>): seq<Token>
    requires trim > 0 ==> 0 <= keep && trim + keep <= |buffer|
  {
    if trim > 0 then buffer[..keep] + buffer[trim + keep..] else buffer
  }

  // Puts the buffer back in temporal order, slicing off an unwritten tail.
  function TemporalOrder(c: Rot, buffer: seq<Token>): seq<Token>
    requires |buffer| == c.capacity
    requires 0 <= c.keep && 0 <= c.idx <= c.capacity
    requires c.idx < c.offset && c.idx != c.capacity ==> c.keep <= c.idx
  {
    if c.idx == c.capacity then buffer
    else if c.idx < c.offset then buffer[..c.keep] + buffer[c.idx..] + buffer[c.keep..c.idx]
    else buffer[..c.idx]
  }

  // The one-token backend step: grow or trim to the planned capacity, then write at
  // the planned cursor.
  function ReplayInPlace(keep: int, plan: UpdatePlan, buffer: seq<Token>, token: Token): seq<Token>
    requires |buffer| > plan.capacity ==> 0 <= keep <= plan.capacity
    requires 0 <= plan.writeBegin < plan.capacity
  {
    var sized :=
      if |buffer| <= plan.capacity then buffer + Zeros(plan.capacity - |buffer|)
      else TrimBuffer(keep, |buffer| - plan.capacity, buffer);
    Write(sized, plan.writeBegin, [token])
  }

  // What the multi-token backend step keeps of the buffer: temporal order, then a trim.
  function Kept(c: Rot, buffer: seq<Token>): seq<Token>
    requires |buffer| == c.capacity && 0 <= c.keep < c.maxSize
    requires 0 <= c.idx <= c.capacity
    requires c.idx < c.offset && c.idx != c.capacity ==> c.keep <= c.idx
  {
    var ordered := TemporalOrder(c, buffer);
    TrimBuffer(c.keep, |ordered| - c.maxSize + 1, ordered)
  }

  // Where the multi-token step writes: the planned range when it lies within the planned
  // capacity. Once the window is full the range counts log positions, and the tokens go to
  // the end of the buffer.
  function WriteAt(plan: UpdatePlan, n: nat): int {
    if plan.writeEnd <= plan.capacity then plan.writeBegin else plan.capacity - n
  }

  // The multi-token backend step: sized to the planned capacity, then written.
  function ReplayConcat(plan: UpdatePlan, kept: seq<Token>, tokens: seq<Token>): seq<Token>
    requires |kept| <= plan.capacity
    requires 0 <= WriteAt(plan, |tokens|) <= plan.capacity - |tokens|
  {
    Write(kept + Zeros(plan.capacity - |kept|), WriteAt(plan, |tokens|), tokens)
  }

  // The last `size` tokens the window keeps: the pinned head, then the newest suffix.
  function Window(keep: int, size: int, log: seq<Token>): (w: seq<Token>)
    requires 0 <= keep <= size <= |log|
    ensures |w| == size
  {
    log[..keep] + log[|log| - (size - keep)..]
  }

  // The buffer of a rotating cache that has seen `log`.
  ghost predicate RotRefines(c: Rot, buffer: seq<Token>, log: seq<Token>) {
    && 0 <= c.keep < c.maxSize
    && c.offset == |log|
    && |buffer| == c.capacity
    && (c.offset < c.maxSize ==>
          && c.idx == c.offset <= c.capacity <= c.maxSize
          && buffer[..c.offset] == log)
    && (c.offset >= c.maxSize ==>
          && c.maxSize <= c.capacity <= c.offset
          && (c.idx == c.capacity || (c.capacity == c.maxSize && c.keep < c.idx <= c.maxSize))
          && TemporalOrder(c, buffer) == Window(c.keep, c.capacity, log))
  }

  // The plan of a multi-token step has room for what is kept and for the tokens after it.
  lemma ConcatFits(c: Rot, buffer: seq<Token>, log: seq<Token>, n: nat)
    requires RotRefines(c, buffer, log)
    ensures var plan := RotConcat(c, n).1;
            && plan.capacity == |Kept(c, buffer)| + n
            && WriteAt(plan, n) == |Kept(c, buffer)|
            && (plan.writeEnd <= plan.capacity <==> c.offset < c.maxSize)
  {
  }

  // What the backend does with the plan of one update.
  ghost function RotReplay(c: Rot, buffer: seq<Token>, log: seq<Token>, tokens: seq<Token>): seq<Token>
    requires RotRefines(c, buffer, log)
  {
    ConcatFits(c, buffer, log, |tokens|);
    if |tokens| == 1 then
      ReplayInPlace(c.keep, RotInPlace(c).1, buffer, tokens[0])
    else
      ReplayConcat(RotConcat(c, |tokens|).1, Kept(c, buffer), tokens)
  }

  // Dropping the oldest unpinned tokens of a window and appending is a window again.
  lemma WindowSlides(keep: int, size: int, room: int, log: seq<Token>, tokens: seq<Token>)
    requires 0 <= keep <= room <= size <= |log|
    ensures var w := Window(keep, size, log);
            w[..keep] + w[keep + size - room..] + tokens == Window(keep, room + |tokens|, log + tokens)
  {
  }

  // A full buffer laid out head, newer, older is in temporal order head, older, newer.
  lemma Layout(c: Rot, head: seq<Token>, newer: seq<Token>, older: seq<Token>)
    requires |head| == c.keep && |head| + |newer| + |older| == c.capacity <= c.offset
    requires if c.idx == c.capacity then newer == [] || older == [] else c.idx == |head| + |newer|
    requires c.idx <= c.capacity
    ensures TemporalOrder(c, head + newer + older) == head + older + newer
  {
    var buffer := head + newer + older;
    if c.idx == c.capacity {
      assert buffer == head + older + newer;
    } else {
      assert buffer[..c.keep] == head && buffer[c.idx..] == older && buffer[c.keep..c.idx] == newer;
    }
  }

  // One token written at the cursor of a full window lands, in temporal order, at the
  // end, and replaces the oldest unpinned token.
  lemma WriteRotates(c: Rot, sized: seq<Token>, begin: int, token: Token)
    requires 0 <= c.keep < c.maxSize == c.capacity == |sized|
    requires c.maxSize <= c.offset
    requires c.idx == c.maxSize || c.keep < c.idx < c.maxSize
    requires begin == if c.idx == c.maxSize then c.keep else c.idx
    ensures var t := TemporalOrder(c, sized);
            TemporalOrder(c.(offset := c.offset + 1, idx := begin + 1), Write(sized, begin, [token]))
              == t[..c.keep] + t[c.keep + 1..] + [token]
  {
    hide TemporalOrder;
    var head, newer, oldest, older := sized[..c.keep], sized[c.keep..begin], sized[begin], sized[begin + 1..];
    assert sized == head + newer + ([oldest] + older);
    Layout(c, head, newer, [oldest] + older);
    WriteOne(head, newer, oldest, older, token);
    Layout(c.(offset := c.offset + 1, idx := begin + 1), head, newer + [token], older);
    DropOldest(head, oldest, older, newer, token);
  }

  lemma WriteOne(head: seq<Token>, newer: seq<Token>, oldest: Token, older: seq<Token>, token: Token)
    ensures Write(head + newer + ([oldest] + older), |head| + |newer|, [token]) == head + (newer + [token]) + older
  {
  }

  lemma DropOldest(head: seq<Token>, oldest: Token, older: seq<Token>, newer: seq<Token>, token: Token)
    ensures var t := head + ([oldest] + older) + newer;
            t[..|head|] + t[|head| + 1..] + [token] == head + older + (newer + [token])
  {
  }

  // Sizing an over-full buffer down to the window keeps the refinement.
  lemma SizeDown(c: Rot, buffer: seq<Token>, log: seq<Token>)
    requires RotRefines(c, buffer, log) && c.maxSize <= c.offset && c.maxSize < c.capacity
    ensures RotRefines(c.(capacity := c.maxSize, idx := c.maxSize),
                       TrimBuffer(c.keep, c.capacity - c.maxSize, buffer), log)
  {
    WindowSlides(c.keep, c.capacity, c.maxSize, log, []);
    assert log + [] == log;
  }

  // A one-token update on a buffer of exactly the window's size.
  lemma SizedInPlace(c: Rot, buffer: seq<Token>, log: seq<Token>, token: Token)
    requires RotRefines(c, buffer, log) && c.capacity == c.maxSize <= c.offset
    ensures RotRefines(RotInPlace(c).0, RotReplay(c, buffer, log, [token]), log + [token])
    ensures RotInPlace(c).0.capacity == c.maxSize
  {
    hide TemporalOrder, Window;
    var begin := if c.idx == c.maxSize then c.keep else c.idx;
    assert buffer + Zeros(0) == buffer;
    assert RotReplay(c, buffer, log, [token]) == Write(buffer, begin, [token]);
    WriteRotates(c, buffer, begin, token);
    WindowSlides(c.keep, c.maxSize, c.maxSize - 1, log, [token]);
  }

  // Updating an over-full buffer is updating it sized down.
  lemma SizedSame(c: Rot, buffer: seq<Token>, log: seq<Token>, token: Token)
    requires RotRefines(c, buffer, log) && c.maxSize <= c.offset && c.maxSize < c.capacity
    ensures var sized := TrimBuffer(c.keep, c.capacity - c.maxSize, buffer);
            var sizedCache := c.(capacity := c.maxSize, idx := c.maxSize);
            && RotInPlace(c).0 == RotInPlace(sizedCache).0
            && ReplayInPlace(c.keep, RotInPlace(c).1, buffer, token)
                 == ReplayInPlace(c.keep, RotInPlace(sizedCache).1, sized, token)
  {
    var sized := TrimBuffer(c.keep, c.capacity - c.maxSize, buffer);
    assert sized + Zeros(0) == sized;
  }

  // A one-token update on a full window.
  lemma FullInPlace(c: Rot, buffer: seq<Token>, log: seq<Token>, token: Token)
    requires RotRefines(c, buffer, log) && c.offset >= c.maxSize
    ensures RotRefines(RotInPlace(c).0, RotReplay(c, buffer, log, [token]), log + [token])
    ensures RotInPlace(c).0.capacity == c.maxSize
  {
    if c.capacity == c.maxSize {
      SizedInPlace(c, buffer, log, token);
    } else {
      SizeDown(c, buffer, log);
      SizedSame(c, buffer, log, token);
      SizedInPlace(c.(capacity := c.maxSize, idx := c.maxSize),
                   TrimBuffer(c.keep, c.capacity - c.maxSize, buffer), log, token);
    }
  }

  // A one-token update while the window is filling.
  lemma FillingInPlace(c: Rot, buffer: seq<Token>, log: seq<Token>, token: Token)
    requires RotRefines(c, buffer, log) && c.offset < c.maxSize
    ensures RotRefines(RotInPlace(c).0, RotReplay(c, buffer, log, [token]), log + [token])
    ensures c.offset + 1 >= c.maxSize ==> RotInPlace(c).0.capacity == c.maxSize
  {
    var plan := RotInPlace(c).1;
    var sized := buffer + Zeros(plan.capacity - |buffer|);
    assert sized[..c.offset] == buffer[..c.offset] == log;
    WriteAtEnd(sized, log, token);
    if c.offset + 1 >= c.maxSize {
      assert Window(c.keep, c.maxSize, log + [token]) == log + [token];
    }
  }

  lemma WriteAtEnd(sized: seq<Token>, log: seq<Token>, token: Token)
    requires |log| < |sized| && sized[..|log|] == log
    ensures Write(sized, |log|, [token])[..|log| + 1] == log + [token]
    ensures |sized| == |log| + 1 ==> Write(sized, |log|, [token]) == log + [token]
  {
  }

  lemma ConcatAppends(c: Rot, buffer: seq<Token>, log: seq<Token>, tokens: seq<Token>)
    requires RotRefines(c, buffer, log)
    ensures |Kept(c, buffer)| <= RotConcat(c, |tokens|).1.capacity
    ensures WriteAt(RotConcat(c, |tokens|).1, |tokens|) == RotConcat(c, |tokens|).1.capacity - |tokens| >= 0
    ensures ReplayConcat(RotConcat(c, |tokens|).1, Kept(c, buffer), tokens) == Kept(c, buffer) + tokens
  {
    hide Kept, RotConcat, WriteAt;
    ConcatFits(c, buffer, log, |tokens|);
    WriteLast(Kept(c, buffer), tokens);
  }

  lemma WriteLast(kept: seq<Token>, tokens: seq<Token>)
    ensures Write(kept + Zeros(|tokens|), |kept|, tokens) == kept + tokens
  {
  }

  // A multi-token update while the window is filling; zero tokens are harmless here.
  lemma FillingConcat(c: Rot, buffer: seq<Token>, log: seq<Token>, tokens: seq<Token>)
    requires RotRefines(c, buffer, log) && c.offset < c.maxSize
    ensures var after := RotConcat(c, |tokens|).0;
            && RotRefines(after, Kept(c, buffer) + tokens, log + tokens)
            && after.capacity == |log + tokens|
  {
    assert TemporalOrder(c, buffer) == log;
    if |log + tokens| >= c.maxSize {
      assert Window(c.keep, |log + tokens|, log + tokens) == log + tokens;
    }
  }

  // Trimming and appending on a buffer that holds a window, whatever cache it belongs to.
  lemma TrimAndAppend(keep: int, maxSize: int, size: int, log: seq<Token>, tokens: seq<Token>)
    requires 0 <= keep < maxSize <= size <= |log|
    ensures TrimBuffer(keep, size - maxSize + 1, Window(keep, size, log)) + tokens
         == Window(keep, maxSize - 1 + |tokens|, log + tokens)
  {
    var w := Window(keep, size, log);
    var head, tail := w[..keep], w[keep + size - maxSize + 1..];
    WindowSlides(keep, size, maxSize - 1, log, tokens);
  }

  // A multi-token update of a full window.
  lemma FullConcat(c: Rot, buffer: seq<Token>, log: seq<Token>, tokens: seq<Token>)
    requires RotRefines(c, buffer, log) && c.offset >= c.maxSize && |tokens| >= 1
    ensures var after := RotConcat(c, |tokens|).0;
            && RotRefines(after, Kept(c, buffer) + tokens, log + tokens)
            && after.capacity == c.maxSize - 1 + |tokens|
  {
    TrimAndAppend(c.keep, c.maxSize, c.capacity, log, tokens);
  }

  // Every update of at least one token keeps the refinement, and sizes the window.
  lemma UpdateRefines(c: Rot, buffer: seq<Token>, log: seq<Token>, tokens: seq<Token>)
    requires RotRefines(c, buffer, log) && |tokens| >= 1
    ensures var (after, plan) := RotStep(c, |tokens|);
            && RotRefines(after, RotReplay(c, buffer, log, tokens), log + tokens)
            && (|log + tokens| >= c.maxSize ==>
                  after.capacity == Min(|log + tokens|, c.maxSize - 1 + |tokens|))
  {
    if |tokens| == 1 {
      assert tokens == [tokens[0]];
      if c.offset < c.maxSize {
        FillingInPlace(c, buffer, log, tokens[0]);
      } else {
        FullInPlace(c, buffer, log, tokens[0]);
      }
    } else {
      ConcatAppends(c, buffer, log, tokens);
      if c.offset < c.maxSize {
        FillingConcat(c, buffer, log, tokens);
      } else {
        FullConcat(c, buffer, log, tokens);
      }
    }
  }

  // What the plan says is what the step did: where the token went in the buffer on the
  // one-token path, and in the log on the other; whether the buffer grew; its new length;
  // and how much of it is to be fetched.
  lemma PlanDescribesTheStep(c: Rot, buffer: seq<Token>, log: seq<Token>, tokens: seq<Token>)
    requires RotRefines(c, buffer, log) && |tokens| >= 1
    ensures var plan, next := RotStep(c, |tokens|).1, RotReplay(c, buffer, log, tokens);
            && plan.prev == |log| && plan.offset == |log + tokens| && plan.capacity == |next|
            && plan.fetchEnd == (if |log + tokens| < c.maxSize then |log + tokens| else |next|)
            && (|tokens| == 1 ==>
                  && 0 <= plan.writeBegin && plan.writeEnd == plan.writeBegin + 1 <= |next|
                  && next[plan.writeBegin] == tokens[0]
                  && (plan.grew <==> |next| > |buffer|))
            && (|tokens| > 1 ==>
                  && plan.writeBegin == |log| && plan.writeEnd == |log + tokens|
                  && |tokens| <= |next| && next[|next| - |tokens|..] == tokens)
  {
    UpdateRefines(c, buffer, log, tokens);
    if |tokens| > 1 {
      ConcatAppends(c, buffer, log, tokens);
    }
  }

  // While the window is filling, a one-token step grows a buffer that has no room, and only
  // such a one, by a block or to the window's size; several tokens leave no slack.
  lemma RotGrowthIsExact(c: Rot, buffer: seq<Token>, log: seq<Token>, tokens: seq<Token>)
    requires RotRefines(c, buffer, log) && c.offset < c.maxSize && |tokens| >= 1
    ensures var plan := RotStep(c, |tokens|).1;
            && (|tokens| == 1 ==>
                  && (plan.grew <==> |log| == |buffer|)
                  && plan.capacity == if |log| < |buffer| then |buffer| else Min(|log| + KV_STEP, c.maxSize))
            && (|tokens| > 1 ==> !plan.grew && plan.capacity == |log| + |tokens|)
    ensures !RotStep(c, |tokens|).1.truncatedTail
  {
  }

  // The write range of a plan is the buffer range that then holds the new tokens exactly
  // when one token is written or the window is not yet full.
  lemma WriteRangeHoldsIff(c: Rot, buffer: seq<Token>, log: seq<Token>, tokens: seq<Token>)
    requires RotRefines(c, buffer, log) && |tokens| >= 1
    ensures var plan, next := RotStep(c, |tokens|).1, RotReplay(c, buffer, log, tokens);
            (0 <= plan.writeBegin <= plan.writeEnd <= |next| && next[plan.writeBegin..plan.writeEnd] == tokens)
            <==> |tokens| == 1 || c.offset < c.maxSize
  {
    PlanDescribesTheStep(c, buffer, log, tokens);
    hide RotReplay;
    if |tokens| > 1 {
      hide RotRefines;
      ConcatFits(c, buffer, log, |tokens|);
    }
  }

  // A zero-token update keeps the refinement exactly while the window is filling: on a
  // full window the concatenating path still trims one token.
  lemma ZeroUpdateRefines(c: Rot, buffer: seq<Token>, log: seq<Token>)
    requires RotRefines(c, buffer, log)
    ensures RotRefines(RotStep(c, 0).0, RotReplay(c, buffer, log, []), log) <==> c.offset < c.maxSize
  {
    ConcatAppends(c, buffer, log, []);
    if c.offset < c.maxSize {
      FillingConcat(c, buffer, log, []);
      assert log + [] == log;
    }
  }

  lemma TrimRefines(c: Rot, buffer: seq<Token>, log: seq<Token>, n: nat)
    requires RotRefines(c, buffer, log) && c.Trimmable()
    ensures RotRefines(RotTrim(c, n), buffer, log[..|log| - Min(n, |log|)])
  {
    var rest := |log| - Min(n, |log|);
    assert buffer[..rest] == buffer[..c.offset][..rest];
  }

  // ---------------------------------------------------------------------------
  // Runs of the rotating cache

  datatype Op = Append(tokens: seq<Token>) | Drop(n: nat)

  // What the callers keep to: at least one token per update, a trim only while
  // IsTrimmable holds.
  ghost predicate Allowed(c: Rot, op: Op) {
    match op
    case Append(tokens) => |tokens| >= 1
    case Drop(_) => c.Trimmable()
  }

  datatype Replayed = Replayed(c: Rot, buffer: seq<Token>, log: seq<Token>)

  ghost function Apply(r: Replayed, op: Op): Replayed
    requires RotRefines(r.c, r.buffer, r.log)
  {
    match op
    case Append(tokens) =>
      Replayed(RotStep(r.c, |tokens|).0, RotReplay(r.c, r.buffer, r.log, tokens), r.log + tokens)
    case Drop(n) =>
      Replayed(RotTrim(r.c, n), r.buffer, r.log[..|r.log| - Min(n, |r.log|)])
  }

  lemma ApplyRefines(r: Replayed, op: Op)
    requires RotRefines(r.c, r.buffer, r.log) && Allowed(r.c, op)
    ensures var next := Apply(r, op);
            && RotRefines(next.c, next.buffer, next.log)
            && next.c.keep == r.c.keep && next.c.maxSize == r.c.maxSize
            && match op
               case Append(tokens) =>
                 && next.log == r.log + tokens
                 && (|next.log| >= r.c.maxSize ==>
                       next.c.capacity == Min(|next.log|, r.c.maxSize - 1 + |tokens|))
               case Drop(n) =>
                 next.log == r.log[..|r.log| - Min(n, |r.log|)]
  {
    match op
    case Append(tokens) => UpdateRefines(r.c, r.buffer, r.log, tokens);
    case Drop(n) => TrimRefines(r.c, r.buffer, r.log, n);
  }

  // r is reached from a new cache by the allowed operations `ops`.
  ghost predicate Reached(keep: int, maxSize: int, ops: seq<Op>, r: Replayed)
    decreases |ops|
  {
    if ops == [] then
      r == Replayed(Rot(keep, maxSize, 0, 0, 0), [], [])
    else
      exists before: Replayed ::
        && Reached(keep, maxSize, ops[..|ops| - 1], before)
        && RotRefines(before.c, before.buffer, before.log)
        && Allowed(before.c, ops[|ops| - 1])
        && r == Apply(before, ops[|ops| - 1])
  }

  // The scalars after a run, and whether the callers kept to what is allowed.
  function ScalarsAfter(keep: int, maxSize: int, ops: seq<Op>): Rot
    decreases |ops|
  {
    if ops == [] then Rot(keep, maxSize, 0, 0, 0)
    else
      var c := ScalarsAfter(keep, maxSize, ops[..|ops| - 1]);
      match ops[|ops| - 1]
      case Append(tokens) => RotStep(c, |tokens|).0
      case Drop(n) => RotTrim(c, n)
  }

  ghost predicate AllAllowed(keep: int, maxSize: int, ops: seq<Op>)
    decreases |ops|
  {
    ops == [] ||
    (AllAllowed(keep, maxSize, ops[..|ops| - 1]) && Allowed(ScalarsAfter(keep, maxSize, ops[..|ops| - 1]), ops[|ops| - 1]))
  }

  // Every run of allowed operations is reached: the refinement at each step is no condition
  // on the run.
  lemma {:induction false} AllowedIsReached(keep: int, maxSize: int, ops: seq<Op>) returns (r: Replayed)
    requires 0 <= keep < maxSize && AllAllowed(keep, maxSize, ops)
    ensures Reached(keep, maxSize, ops, r) && r.c == ScalarsAfter(keep, maxSize, ops)
    decreases |ops|
  {
    if ops == [] {
      r := Replayed(Rot(keep, maxSize, 0, 0, 0), [], []);
    } else {
      var before := AllowedIsReached(keep, maxSize, ops[..|ops| - 1]);
      RunRefines(keep, maxSize, ops[..|ops| - 1], before);
      hide RotRefines, RotStep, RotTrim, Allowed, RotReplay;
      r := Apply(before, ops[|ops| - 1]);
    }
  }

  // The log the operations describe, with no cache in sight.
  function LogOf(ops: seq<Op>): seq<Token>
    decreases |ops|
  {
    if ops == [] then []
    else
      var log := LogOf(ops[..|ops| - 1]);
      match ops[|ops| - 1]
      case Append(tokens) => log + tokens
      case Drop(n) => log[..|log| - Min(n, |log|)]
  }

  lemma NewRefines(keep: int, maxSize: int)
    requires 0 <= keep < maxSize
    ensures RotRefines(Rot(keep, maxSize, 0, 0, 0), [], [])
  {
  }

  lemma BeforeLast(keep: int, maxSize: int, ops: seq<Op>, r: Replayed) returns (before: Replayed)
    requires ops != [] && Reached(keep, maxSize, ops, r)
    ensures Reached(keep, maxSize, ops[..|ops| - 1], before)
    ensures RotRefines(before.c, before.buffer, before.log) && Allowed(before.c, ops[|ops| - 1])
    ensures r == Apply(before, ops[|ops| - 1])
  {
    hide RotRefines, Allowed;
    before :|
      && Reached(keep, maxSize, ops[..|ops| - 1], before)
      && RotRefines(before.c, before.buffer, before.log)
      && Allowed(before.c, ops[|ops| - 1])
      && r == Apply(before, ops[|ops| - 1]);
  }

  lemma {:induction false} RunRefines(keep: int, maxSize: int, ops: seq<Op>, r: Replayed)
    requires 0 <= keep < maxSize
    requires Reached(keep, maxSize, ops, r)
    ensures RotRefines(r.c, r.buffer, r.log)
    ensures r.log == LogOf(ops) && r.c.keep == keep && r.c.maxSize == maxSize
    decreases |ops|
  {
    if ops == [] {
      NewRefines(keep, maxSize);
    } else {
      hide RotRefines, Allowed, Reached, Apply;
      var before := BeforeLast(keep, maxSize, ops, r);
      RunRefines(keep, maxSize, ops[..|ops| - 1], before);
      ApplyRefines(before, ops[|ops| - 1]);
    }
  }

  // The view an update hands to attention, in temporal order.
  function Fetched(c: Rot, buffer: seq<Token>): seq<Token>
    requires |buffer| == c.capacity && 0 <= c.keep && 0 <= c.idx <= c.capacity
    requires c.idx < c.offset && c.idx != c.capacity ==> c.keep <= c.idx
    requires c.offset < c.maxSize ==> 0 <= c.offset <= c.capacity
  {
    if c.offset < c.maxSize then buffer[..c.FetchEnd()] else TemporalOrder(c, buffer)
  }

  // A window in temporal order: the pinned head, then a contiguous newest suffix.
  lemma FetchedIsWindow(r: Replayed)
    requires RotRefines(r.c, r.buffer, r.log)
    ensures r.c.offset < r.c.maxSize ==> Fetched(r.c, r.buffer) == r.log
    ensures r.c.offset == |r.log|
    ensures r.c.offset >= r.c.maxSize ==>
              && r.c.keep < r.c.maxSize <= r.c.capacity <= |r.log|
              && Fetched(r.c, r.buffer) ==
                   r.log[..r.c.keep] + r.log[|r.log| - (r.c.capacity - r.c.keep)..]
  {
  }

  // The sliding-window theorem. After every allowed run the cache holds the whole log
  // while that is shorter than the window, and then at least maxSize tokens: the pinned
  // head followed by a contiguous newest suffix.
  lemma RotatingIsSlidingWindow(keep: int, maxSize: int, ops: seq<Op>, r: Replayed)
    requires 0 <= keep < maxSize
    requires Reached(keep, maxSize, ops, r)
    ensures RotRefines(r.c, r.buffer, r.log)
    ensures |LogOf(ops)| < maxSize ==> Fetched(r.c, r.buffer) == LogOf(ops)
    ensures var log := LogOf(ops);
            |log| >= maxSize ==>
              && maxSize <= r.c.capacity <= |log|
              && Fetched(r.c, r.buffer) ==
                   log[..keep] + log[|log| - (r.c.capacity - keep)..]
  {
    RunRefines(keep, maxSize, ops, r);
    FetchedIsWindow(r);
    hide RotRefines, Reached, LogOf;
  }

  // In the view after appending `tokens` to a log of `position` tokens, the new tokens come
  // last, and the j-th of them sees, itself included, exactly
  // min(position + j + 1, maxSize + j) tokens: never fewer than min(position + j + 1, maxSize).
  // The view holds maxSize + |tokens| - 1 tokens, or the whole log when that is shorter.
  ghost predicate SeesItsWindow(maxSize: int, position: nat, tokens: seq<Token>, view: seq<Token>) {
    && |view| == Min(position + |tokens|, maxSize - 1 + |tokens|)
    && |tokens| <= |view|
    && forall j :: 0 <= j < |tokens| ==>
         && view[|view| - |tokens| + j] == tokens[j]
         && |view| - |tokens| + j + 1 == Min(position + j + 1, maxSize + j)
  }

  lemma TailSees(maxSize: int, position: nat, tokens: seq<Token>, view: seq<Token>)
    requires 0 < maxSize
    requires |view| == Min(position + |tokens|, maxSize - 1 + |tokens|)
    requires |view| >= |tokens| && view[|view| - |tokens|..] == tokens
    ensures SeesItsWindow(maxSize, position, tokens, view)
  {
    forall j | 0 <= j < |tokens|
      ensures view[|view| - |tokens| + j] == tokens[j]
    {
      assert tokens[j] == view[|view| - |tokens|..][j];
    }
  }

  lemma NewestAreLast(r: Replayed, older: seq<Token>, tokens: seq<Token>)
    requires RotRefines(r.c, r.buffer, r.log) && r.log == older + tokens
    requires |r.log| >= r.c.maxSize ==>
               r.c.capacity == Min(|r.log|, r.c.maxSize - 1 + |tokens|)
    ensures SeesItsWindow(r.c.maxSize, |older|, tokens, Fetched(r.c, r.buffer))
  {
    FetchedIsWindow(r);
    TailSees(r.c.maxSize, |older|, tokens, Fetched(r.c, r.buffer));
  }

  lemma UpdateView(r: Replayed, tokens: seq<Token>, next: Replayed)
    requires RotRefines(r.c, r.buffer, r.log) && |tokens| >= 1
    requires next == Apply(r, Append(tokens))
    ensures RotRefines(next.c, next.buffer, next.log)
    ensures SeesItsWindow(r.c.maxSize, |r.log|, tokens, Fetched(next.c, next.buffer))
  {
    ApplyRefines(r, Append(tokens));
    NewestAreLast(next, r.log, tokens);
  }

  // After any allowed run, every token of a further update sees its window.
  lemma EveryTokenSeesItsWindow(keep: int, maxSize: int, ops: seq<Op>, tokens: seq<Token>, next: Replayed)
    requires 0 <= keep < maxSize && |tokens| >= 1
    requires Reached(keep, maxSize, ops + [Append(tokens)], next)
    ensures RotRefines(next.c, next.buffer, next.log)
    ensures SeesItsWindow(maxSize, |LogOf(ops)|, tokens, Fetched(next.c, next.buffer))
  {
    hide Reached, RotRefines, LogOf, Fetched, Apply;
    var longer := ops + [Append(tokens)];
    assert longer[..|longer| - 1] == ops;
    var before := BeforeLast(keep, maxSize, longer, next);
    RunRefines(keep, maxSize, ops, before);
    UpdateView(before, tokens, next);
  }
}
