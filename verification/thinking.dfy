module Thinking {
  // The think-tag splitter of api/thinking.go: the streaming parser against the whole-text
  // one. Strings stand for the source's byte strings.

  import opened Text
  import opened Wrappers

  const OPEN_TAG: string := "<think>"
  const CLOSE_TAG: string := "</think>"

  // A proper prefix of a tag, as the parser may have to hold back.
  predicate CouldBeTag(s: string) {
    |s| < |CLOSE_TAG| && (s <= OPEN_TAG || s <= CLOSE_TAG)
  }

  // ---------------------------------------------------------------------------
  // One scan of a text

  datatype Scanned = Scanned(thinking: string, content: string, buffer: string, inThinking: bool, closeSeen: bool)

  function Emit(inThinking: bool, c: char, r: Scanned): Scanned {
    if inThinking then r.(thinking := [c] + r.thinking) else r.(content := [c] + r.content)
  }

  // The deltas a text yields, the tail held back, and the state after it.
  function Scan(inThinking: bool, text: string): Scanned
    decreases |text|
  {
    if text == "" then Scanned("", "", "", inThinking, false)
    else if text[0] != '<' then Emit(inThinking, text[0], Scan(inThinking, text[1..]))
    else if OPEN_TAG <= text then Scan(true, text[|OPEN_TAG|..])
    else if CLOSE_TAG <= text then Scan(false, text[|CLOSE_TAG|..]).(closeSeen := true)
    else if CouldBeTag(text) then Scanned("", "", text, inThinking, false)
    else Emit(inThinking, '<', Scan(inThinking, text[1..]))
  }

  // Two scans in a row, the second resumed on the tail the first held back.
  function Then(a: Scanned, b: Scanned): Scanned {
    Scanned(a.thinking + b.thinking, a.content + b.content, b.buffer, b.inThinking, a.closeSeen || b.closeSeen)
  }

  // A character emitted between two scans belongs to either.
  lemma EmitThen(a: Scanned, inThinking: bool, c: char, b: Scanned)
    ensures Emit(inThinking, c, Then(a, b)) == Then(Emit(inThinking, c, a), b)
    ensures Then(a, Emit(inThinking, c, b)) ==
              Then(if inThinking then a.(thinking := a.thinking + [c]) else a.(content := a.content + [c]), b)
  {
    assert [c] + (a.thinking + b.thinking) == [c] + a.thinking + b.thinking;
    assert [c] + (a.content + b.content) == [c] + a.content + b.content;
    assert a.thinking + ([c] + b.thinking) == a.thinking + [c] + b.thinking;
    assert a.content + ([c] + b.content) == a.content + [c] + b.content;
  }

  // One step of the parser's walk: `done` has been scanned, `text` is still to come.
  lemma ScanStep(done: Scanned, text: string)
    requires text != "" && done.buffer == ""
    ensures text[0] == '<' && OPEN_TAG <= text ==>
              Then(done, Scan(done.inThinking, text)) == Then(done.(inThinking := true), Scan(true, text[|OPEN_TAG|..]))
    ensures text[0] == '<' && !(OPEN_TAG <= text) && CLOSE_TAG <= text ==>
              Then(done, Scan(done.inThinking, text))
                == Then(done.(inThinking := false, closeSeen := true), Scan(false, text[|CLOSE_TAG|..]))
    ensures text[0] == '<' && !(OPEN_TAG <= text) && !(CLOSE_TAG <= text) && CouldBeTag(text) ==>
              Then(done, Scan(done.inThinking, text)) == done.(buffer := text)
    ensures text[0] != '<' || (!(OPEN_TAG <= text) && !(CLOSE_TAG <= text) && !CouldBeTag(text)) ==>
              Then(done, Scan(done.inThinking, text)) == Then(Walked(done, text[0]), Scan(done.inThinking, text[1..]))
  {
    EmitThen(done, done.inThinking, text[0], Scan(done.inThinking, text[1..]));
    assert done.thinking + "" == done.thinking && done.content + "" == done.content;
  }

  // The same scan with the deltas so far carried along, as the parser's loop carries them.
  ghost function ScanFrom(done: Scanned, text: string): Scanned
    decreases |text|
  {
    if text == "" then done
    else if text[0] == '<' && OPEN_TAG <= text then ScanFrom(done.(inThinking := true), text[|OPEN_TAG|..])
    else if text[0] == '<' && CLOSE_TAG <= text then
      ScanFrom(done.(inThinking := false, closeSeen := true), text[|CLOSE_TAG|..])
    else if text[0] == '<' && CouldBeTag(text) then done.(buffer := text)
    else ScanFrom(Walked(done, text[0]), text[1..])
  }

  lemma {:induction false} ScanFromScans(done: Scanned, text: string)
    requires done.buffer == ""
    ensures ScanFrom(done, text) == Then(done, Scan(done.inThinking, text))
    decreases |text|
  {
    if text == "" {
      ThenNothing(done);
    } else {
      ScanStep(done, text);
      if text[0] == '<' && OPEN_TAG <= text {
        ScanFromScans(done.(inThinking := true), text[|OPEN_TAG|..]);
      } else if text[0] == '<' && CLOSE_TAG <= text {
        ScanFromScans(done.(inThinking := false, closeSeen := true), text[|CLOSE_TAG|..]);
      } else if text[0] != '<' || !CouldBeTag(text) {
        ScanFromScans(Walked(done, text[0]), text[1..]);
      }
    }
  }

  lemma ThenNothing(done: Scanned)
    requires done.buffer == ""
    ensures Then(done, Scan(done.inThinking, "")) == done
  {
    assert done.thinking + "" == done.thinking && done.content + "" == done.content;
  }

  function Walked(done: Scanned, c: char): Scanned {
    if done.inThinking then done.(thinking := done.thinking + [c]) else done.(content := done.content + [c])
  }

  // A held-back tail: nothing, or a proper non-empty prefix of a tag.
  predicate HeldBack(buffer: string) {
    || buffer == ""
    || (buffer[0] == '<' && CouldBeTag(buffer) && !(OPEN_TAG <= buffer) && !(CLOSE_TAG <= buffer))
  }

  lemma {:induction false} ScanHoldsBack(inThinking: bool, text: string)
    ensures HeldBack(Scan(inThinking, text).buffer)
    decreases |text|
  {
    if text != "" {
      if text[0] != '<' || (!(OPEN_TAG <= text) && !(CLOSE_TAG <= text) && !CouldBeTag(text)) {
        ScanHoldsBack(inThinking, text[1..]);
      } else if OPEN_TAG <= text {
        ScanHoldsBack(true, text[|OPEN_TAG|..]);
      } else if CLOSE_TAG <= text {
        ScanHoldsBack(false, text[|CLOSE_TAG|..]);
      }
    }
  }

  // buffer is the first n characters of the tag, not all of it.
  predicate IsCut(buffer: string, tag: string, n: nat) {
    0 < n < |tag| && buffer == tag[..n]
  }

  // A held-back tail is a tag cut short, and every cut tag is held back.
  lemma HeldBackIff(buffer: string)
    ensures HeldBack(buffer) <==>
              buffer == "" || exists n: nat :: IsCut(buffer, OPEN_TAG, n) || IsCut(buffer, CLOSE_TAG, n)
  {
    if n: nat :| IsCut(buffer, OPEN_TAG, n) {
      assert buffer <= OPEN_TAG && |buffer| < |OPEN_TAG|;
    } else if n: nat :| IsCut(buffer, CLOSE_TAG, n) {
      assert buffer <= CLOSE_TAG && |buffer| < |CLOSE_TAG|;
      assert n > 1 ==> buffer[1] == CLOSE_TAG[1] != OPEN_TAG[1];
    }
    if HeldBack(buffer) && buffer != "" {
      assert IsCut(buffer, OPEN_TAG, |buffer|) || IsCut(buffer, CLOSE_TAG, |buffer|);
    }
  }

  lemma ScanHeldBack(inThinking: bool, buffer: string)
    requires HeldBack(buffer)
    ensures Scan(inThinking, buffer) == Scanned("", "", buffer, inThinking, false)
  {
  }

  lemma PrefixOfJoin(tag: string, x: string, y: string)
    ensures |tag| <= |x| ==> (tag <= x + y <==> tag <= x) && (x + y)[|tag|..] == x[|tag|..] + y
    ensures |x| < |tag| && tag <= x + y ==> x <= tag
  {
    if |tag| <= |x| {
      assert (x + y)[..|tag|] == x[..|tag|];
    } else if tag <= x + y {
      assert x == (x + y)[..|x|] == tag[..|x|];
    }
  }

  // Scanning a text in two chunks is scanning it in one.
  lemma {:induction false} ScanSplits(inThinking: bool, x: string, y: string)
    ensures var a := Scan(inThinking, x);
            Scan(inThinking, x + y) == Then(a, Scan(a.inThinking, a.buffer + y))
    decreases |x|
  {
    if x == "" {
      assert x + y == y && "" + y == y;
    } else {
      assert (x + y)[0] == x[0] && (x + y)[1..] == x[1..] + y;
      PrefixOfJoin(OPEN_TAG, x, y);
      PrefixOfJoin(CLOSE_TAG, x, y);
      if x[0] != '<' {
        ScanSplits(inThinking, x[1..], y);
        var a := Scan(inThinking, x[1..]);
        EmitThen(a, inThinking, x[0], Scan(a.inThinking, a.buffer + y));
      } else if OPEN_TAG <= x {
        ScanSplits(true, x[|OPEN_TAG|..], y);
      } else if CLOSE_TAG <= x {
        ScanSplits(false, x[|CLOSE_TAG|..], y);
      } else if !CouldBeTag(x) {
        NotATag(x, y);
        ScanSplits(inThinking, x[1..], y);
        var a := Scan(inThinking, x[1..]);
        EmitThen(a, inThinking, '<', Scan(a.inThinking, a.buffer + y));
      }
    }
  }

  lemma NotATag(x: string, y: string)
    requires !CouldBeTag(x) && !(OPEN_TAG <= x) && !(CLOSE_TAG <= x)
    ensures !CouldBeTag(x + y) && !(OPEN_TAG <= x + y) && !(CLOSE_TAG <= x + y)
  {
    PrefixOfJoin(OPEN_TAG, x, y);
    PrefixOfJoin(CLOSE_TAG, x, y);
    if x + y <= OPEN_TAG || x + y <= CLOSE_TAG {
      assert (x + y)[..|x|] == x;
    }
  }

  // ---------------------------------------------------------------------------
  // The streaming parser

  datatype State = State(
    inThinking: bool,
    buffer: string,
    closeSeen: bool,
    thinkingAccumulated: seq<string>,
    contentEmitted: bool)
  {
    predicate Valid() {
      HeldBack(buffer) && forall i :: 0 <= i < |thinkingAccumulated| ==> thinkingAccumulated[i] != ""
    }
  }

  // A feed: the state after it, and its deltas. An empty chunk scans the held-back tail
  // again, to no effect.
  function Fed(p: State, chunk: string): (State, string, string) {
    var r := Scan(p.inThinking, p.buffer + chunk);
    (State(r.inThinking, r.buffer, p.closeSeen || r.closeSeen,
           Accumulate(p.thinkingAccumulated, r.thinking),
           p.contentEmitted || r.content != ""),
     r.thinking, r.content)
  }

  function Accumulate(deltas: seq<string>, delta: string): seq<string> {
    if delta != "" then deltas + [delta] else deltas
  }

  function Finished(p: State): (State, string, string) {
    if p.inThinking && !p.closeSeen && !p.contentEmitted && |p.thinkingAccumulated| > 0 then
      (p.(buffer := "", contentEmitted := true), "", Concat(p.thinkingAccumulated) + p.buffer)
    else if p.buffer == "" then
      (p, "", "")
    else if p.inThinking then
      (p.(buffer := "", thinkingAccumulated := p.thinkingAccumulated + [p.buffer]), p.buffer, "")
    else
      (p.(buffer := "", contentEmitted := true), "", p.buffer)
  }

  class ThinkingParser {
    var inThinking: bool
    var buffer: string
    var closeSeen: bool
    var thinkingAccumulated: seq<string>
    var contentEmitted: bool

    constructor (startInThinking: bool)
      ensures Current() == Start(startInThinking)
    {
      inThinking, buffer, closeSeen := startInThinking, "", false;
      thinkingAccumulated, contentEmitted := [], false;
    }

    ghost function Current(): State
      reads this
    {
      State(inThinking, buffer, closeSeen, thinkingAccumulated, contentEmitted)
    }

    method Feed(text: string) returns (thinkingDelta: string, contentDelta: string)
      requires Current().Valid()
      modifies this
      ensures Current().Valid()
      ensures (Current(), thinkingDelta, contentDelta) == Fed(old(Current()), text)
    {
      if text == "" {
        ScanHeldBack(inThinking, buffer);
        assert buffer + text == buffer;
        return "", "";
      }
      var joined := buffer + text;
      buffer := "";
      ScanHoldsBack(inThinking, joined);
      thinkingDelta, contentDelta := Walk(joined);
      if thinkingDelta != "" {
        thinkingAccumulated := thinkingAccumulated + [thinkingDelta];
      }
      if contentDelta != "" {
        contentEmitted := true;
      }
    }

    // The loop of Feed.
    method Walk(joined: string) returns (thinkingDelta: string, contentDelta: string)
      requires buffer == ""
      modifies this`inThinking, this`closeSeen, this`buffer
      ensures var r := Scan(old(inThinking), joined);
              && thinkingDelta == r.thinking && contentDelta == r.content
              && buffer == r.buffer && inThinking == r.inThinking
              && (closeSeen <==> old(closeSeen) || r.closeSeen)
    {
      hide CouldBeTag, Scan;
      thinkingDelta, contentDelta := "", "";
      ghost var sawClose := false;
      ghost var whole := ScanFrom(Scanned("", "", "", inThinking, false), joined);
      ScanFromScans(Scanned("", "", "", inThinking, false), joined);
      assert joined[0..] == joined;
      var i: nat := 0;
      while i < |joined|
        invariant i <= |joined|
        invariant buffer == ""
        invariant closeSeen <==> old(closeSeen) || sawClose
        invariant whole == ScanFrom(Scanned(thinkingDelta, contentDelta, "", inThinking, sawClose), joined[i..])
        decreases |joined| - i
      {
        var remaining := joined[i..];
        assert remaining[0] == joined[i] && remaining[1..] == joined[i + 1..];
        if joined[i] == '<' {
          if OPEN_TAG <= remaining {
            assert remaining[|OPEN_TAG|..] == joined[i + |OPEN_TAG|..];
            inThinking := true;
            i := i + |OPEN_TAG|;
            continue;
          }
          if CLOSE_TAG <= remaining {
            assert remaining[|CLOSE_TAG|..] == joined[i + |CLOSE_TAG|..];
            inThinking := false;
            closeSeen, sawClose := true, true;
            i := i + |CLOSE_TAG|;
            continue;
          }
          if CouldBeTag(remaining) {
            buffer := remaining;
            return;
          }
        }
        if inThinking {
          thinkingDelta := thinkingDelta + [joined[i]];
        } else {
          contentDelta := contentDelta + [joined[i]];
        }
        i := i + 1;
      }
      assert joined[i..] == "";
    }

    method Finish() returns (thinkingDelta: string, contentDelta: string)
      modifies this
      ensures (Current(), thinkingDelta, contentDelta) == Finished(old(Current()))
    {
      var partial := buffer;
      buffer := "";
      if inThinking && !closeSeen && !contentEmitted && |thinkingAccumulated| > 0 {
        var recovered := Concat(thinkingAccumulated) + partial;
        contentEmitted := true;
        return "", recovered;
      }
      if partial == "" {
        return "", "";
      }
      if inThinking {
        thinkingAccumulated := thinkingAccumulated + [partial];
        return partial, "";
      }
      contentEmitted := true;
      return "", partial;
    }
  }

  function Start(startInThinking: bool): State {
    State(startInThinking, "", false, [], false)
  }

  // ---------------------------------------------------------------------------
  // Chunk invariance

  // Feeds in a row: the state after the last, and the concatenated deltas.
  function FedAll(p: State, chunks: seq<string>): (State, string, string)
    decreases |chunks|
  {
    if chunks == [] then (p, "", "")
    else
      var (q, t, c) := FedAll(p, chunks[..|chunks| - 1]);
      var (r, t', c') := Fed(q, chunks[|chunks| - 1]);
      (r, t + t', c + c')
  }

  // Two states with the same flags, tail and thinking so far, whatever its division into
  // deltas.
  ghost predicate Alike(p: State, q: State) {
    && p.inThinking == q.inThinking && p.buffer == q.buffer
    && p.closeSeen == q.closeSeen && p.contentEmitted == q.contentEmitted
    && Concat(p.thinkingAccumulated) == Concat(q.thinkingAccumulated)
    && (p.thinkingAccumulated == [] <==> q.thinkingAccumulated == [])
  }

  lemma FedKeepsValid(p: State, chunk: string)
    requires p.Valid()
    ensures Fed(p, chunk).0.Valid()
  {
    ScanHoldsBack(p.inThinking, p.buffer + chunk);
  }

  lemma AccumulateConcat(deltas: seq<string>, delta: string)
    ensures Concat(Accumulate(deltas, delta)) == Concat(deltas) + delta
    ensures Accumulate(deltas, delta) == [] <==> deltas == [] && delta == ""
  {
    ConcatLast(deltas, delta);
    assert Concat(deltas) + "" == Concat(deltas);
  }

  // Two feeds are one feed of both chunks.
  lemma FeedsJoin(p: State, x: string, y: string)
    ensures var (q, t, c) := Fed(p, x);
            var (r, t', c') := Fed(q, y);
            var (w, t'', c'') := Fed(p, x + y);
            Alike(r, w) && t'' == t + t' && c'' == c + c'
  {
    var a := Scan(p.inThinking, p.buffer + x);
    var b := Scan(a.inThinking, a.buffer + y);
    assert p.buffer + (x + y) == p.buffer + x + y;
    ScanSplits(p.inThinking, p.buffer + x, y);
    AccumulatesJoin(p.thinkingAccumulated, a.thinking, b.thinking);
  }

  lemma AccumulatesJoin(deltas: seq<string>, t: string, t': string)
    ensures var twice, once := Accumulate(Accumulate(deltas, t), t'), Accumulate(deltas, t + t');
            Concat(twice) == Concat(once) && (twice == [] <==> once == [])
  {
    AccumulateConcat(deltas, t);
    AccumulateConcat(Accumulate(deltas, t), t');
    AccumulateConcat(deltas, t + t');
    assert Concat(deltas) + t + t' == Concat(deltas) + (t + t');
  }

  // Alike states answer a feed alike.
  lemma FedAlike(p: State, q: State, chunk: string)
    requires Alike(p, q)
    ensures Alike(Fed(p, chunk).0, Fed(q, chunk).0)
    ensures Fed(p, chunk).1 == Fed(q, chunk).1 && Fed(p, chunk).2 == Fed(q, chunk).2
  {
    var r := Scan(p.inThinking, p.buffer + chunk);
    AccumulateConcat(p.thinkingAccumulated, r.thinking);
    AccumulateConcat(q.thinkingAccumulated, r.thinking);
  }

  // However a text is cut into chunks, the deltas, the tail held back and every flag come
  // out as if it had been fed whole.
  lemma {:induction false} ChunkInvariance(p: State, chunks: seq<string>)
    requires p.Valid()
    ensures var (q, t, c) := FedAll(p, chunks);
            var (w, t', c') := Fed(p, Concat(chunks));
            Alike(q, w) && t == t' && c == c'
    ensures FedAll(p, chunks).0.Valid()
    decreases |chunks|
  {
    if chunks == [] {
      assert p.buffer + "" == p.buffer;
      ScanHeldBack(p.inThinking, p.buffer);
    } else {
      var earlier, last := chunks[..|chunks| - 1], chunks[|chunks| - 1];
      assert chunks == earlier + [last];
      ConcatLast(earlier, last);
      ChunkInvariance(p, earlier);
      FedKeepsValid(FedAll(p, earlier).0, last);
      FedAlike(FedAll(p, earlier).0, Fed(p, Concat(earlier)).0, last);
      FeedsJoin(p, Concat(earlier), last);
    }
  }

  // What a whole stream yields as content: its feeds, then Finish.
  function Streamed(startInThinking: bool, chunks: seq<string>): string {
    var (p, _, content) := FedAll(Start(startInThinking), chunks);
    content + Finished(p).2
  }

  function StreamedWhole(startInThinking: bool, text: string): string {
    var (p, _, content) := Fed(Start(startInThinking), text);
    content + Finished(p).2
  }

  // What it yields as reasoning.
  function StreamedThinking(startInThinking: bool, chunks: seq<string>): string {
    var (p, thinking, _) := FedAll(Start(startInThinking), chunks);
    thinking + Finished(p).1
  }

  function ThinkingWhole(startInThinking: bool, text: string): string {
    var (p, thinking, _) := Fed(Start(startInThinking), text);
    thinking + Finished(p).1
  }

  lemma ThinkingInvariant(startInThinking: bool, chunks: seq<string>)
    ensures StreamedThinking(startInThinking, chunks) == ThinkingWhole(startInThinking, Concat(chunks))
  {
    ChunkInvariance(Start(startInThinking), chunks);
  }

  lemma StreamedInvariant(startInThinking: bool, chunks: seq<string>)
    ensures Streamed(startInThinking, chunks) == StreamedWhole(startInThinking, Concat(chunks))
  {
    ChunkInvariance(Start(startInThinking), chunks);
  }

  // ---------------------------------------------------------------------------
  // An answer is never lost

  // Without a close tag, the content of the whole stream is empty exactly when no feed
  // emitted a byte and Finish has no tail to give as content.
  lemma ContentIsEmptyIff(startInThinking: bool, chunks: seq<string>)
    requires !FedAll(Start(startInThinking), chunks).0.closeSeen
    ensures var (p, thinking, content) := FedAll(Start(startInThinking), chunks);
            (Streamed(startInThinking, chunks) == "" <==>
              thinking == "" && content == "" && (p.inThinking || p.buffer == ""))
  {
    var start := Start(startInThinking);
    ChunkInvariance(start, chunks);
    assert "" + Concat(chunks) == Concat(chunks);
    UnclosedScan(startInThinking, Concat(chunks));
    var (p, thinking, content) := FedAll(start, chunks);
    AccumulateConcat([], thinking);
    assert Concat(p.thinkingAccumulated) == thinking;
  }

  // A scan that sees no close tag and ends outside thinking never was in thinking.
  lemma {:induction false} UnclosedScan(inThinking: bool, text: string)
    ensures var r := Scan(inThinking, text);
            !r.closeSeen && !r.inThinking ==> !inThinking && r.thinking == ""
    decreases |text|
  {
    if text != "" {
      if text[0] != '<' || (!(OPEN_TAG <= text) && !(CLOSE_TAG <= text) && !CouldBeTag(text)) {
        UnclosedScan(inThinking, text[1..]);
      } else if OPEN_TAG <= text {
        UnclosedScan(true, text[|OPEN_TAG|..]);
      } else if CLOSE_TAG <= text {
        UnclosedScan(false, text[|CLOSE_TAG|..]);
      }
    }
  }

  // ---------------------------------------------------------------------------
  // The whole-text extractor

  // The leftmost match of <think>(.*?)</think>: the positions of its two tags.
  function FindBlock(text: string): (m: Option<(nat, nat)>)
    ensures m.Some? ==>
              var (i, j) := m.value;
              i + |OPEN_TAG| <= j && j + |CLOSE_TAG| <= |text|
  {
    var i := Index(text, OPEN_TAG);
    if i < 0 then None
    else
      var k := Index(text[i + |OPEN_TAG|..], CLOSE_TAG);
      if k < 0 then None else Some((i, i + |OPEN_TAG| + k))
  }

  // Removing blocks until none is left: the reasoning of each, after `parts`, and what
  // remains.
  function Strip(parts: seq<string>, text: string): (seq<string>, string)
    decreases |text|
  {
    var m := FindBlock(text);
    if m.None? then (parts, text)
    else
      var (i, j) := m.value;
      Strip(parts + [text[i + |OPEN_TAG|..j]], text[..i] + text[j + |CLOSE_TAG|..])
  }

  function Extracted(text: string): (string, string) {
    var (parts, remaining) := Strip([], text);
    if text == "" then ("", "")
    else if parts != [] then (TrimSpace(Join(parts, "\n")), TrimSpace(remaining))
    else if Contains(text, CLOSE_TAG) && !Contains(text, OPEN_TAG) then
      var i := Index(text, CLOSE_TAG);
      (TrimSpace(text[..i]), TrimSpace(text[i + |CLOSE_TAG|..]))
    else if Contains(text, OPEN_TAG) && !Contains(text, CLOSE_TAG) then
      var i := Index(text, OPEN_TAG);
      ("", TrimSpace(text[..i] + text[i + |OPEN_TAG|..]))
    else ("", text)
  }

  // The loop of ExtractThinking.
  method StripBlocks(text: string) returns (parts: seq<string>, remaining: string)
    ensures (parts, remaining) == Strip([], text)
  {
    parts := [];
    remaining := text;
    while true
      invariant Strip(parts, remaining) == Strip([], text)
      decreases |remaining|
    {
      var loc := FindBlock(remaining);
      if loc.None? {
        break;
      }
      var (i, j) := loc.value;
      StripOnce(parts, remaining, i, j);
      parts := parts + [remaining[i + |OPEN_TAG|..j]];
      remaining := remaining[..i] + remaining[j + |CLOSE_TAG|..];
    }
  }

  method ExtractThinking(text: string) returns (thinking: string, content: string)
    ensures (thinking, content) == Extracted(text)
  {
    if text == "" {
      return "", "";
    }
    var parts, remaining := StripBlocks(text);
    if |parts| > 0 {
      return TrimSpace(Join(parts, "\n")), TrimSpace(remaining);
    }
    if Contains(text, CLOSE_TAG) && !Contains(text, OPEN_TAG) {
      var i := Index(text, CLOSE_TAG);
      return TrimSpace(text[..i]), TrimSpace(text[i + |CLOSE_TAG|..]);
    }
    var i := Index(text, OPEN_TAG);
    if i >= 0 && !Contains(text, CLOSE_TAG) {
      return "", TrimSpace(text[..i] + text[i + |OPEN_TAG|..]);
    }
    return "", text;
  }

  // ---------------------------------------------------------------------------
  // Tags in a text

  predicate IsTag(tag: string) {
    tag == OPEN_TAG || tag == CLOSE_TAG
  }

  predicate NoTag(s: string) {
    !Contains(s, OPEN_TAG) && !Contains(s, CLOSE_TAG)
  }

  lemma TagShape(tag: string)
    requires IsTag(tag)
    ensures |tag| >= 2 && tag[0] == '<' && forall i :: 0 < i < |tag| ==> tag[i] != '<'
  {
  }

  lemma SliceOfSlice(s: string, from: nat, to: nat, k: nat, n: nat)
    requires from <= to <= |s| && k + n <= to - from
    ensures s[from..to][k..k + n] == s[from + k..from + k + n]
  {
    var x, y := s[from..to][k..k + n], s[from + k..from + k + n];
    assert forall j :: 0 <= j < n ==> x[j] == y[j];
  }

  lemma OccursIn(s: string, from: nat, to: nat, marker: string, k: int)
    requires from <= to <= |s|
    ensures Occurs(s[from..to], marker, k) ==> Contains(s, marker)
  {
    if Occurs(s[from..to], marker, k) {
      SliceOfSlice(s, from, to, k, |marker|);
      IndexIsFirst(s, marker, from + k);
    }
  }

  // What a text does not contain, no part of it does.
  lemma PartContains(s: string, from: nat, to: nat, marker: string)
    requires from <= to <= |s| && !Contains(s, marker)
    ensures !Contains(s[from..to], marker)
  {
    OccursIn(s, from, to, marker, Index(s[from..to], marker));
  }

  lemma SuffixContains(s: string, from: nat, marker: string)
    requires from <= |s| && !Contains(s, marker)
    ensures !Contains(s[from..], marker)
  {
    PartContains(s, from, |s|, marker);
    assert s[from..|s|] == s[from..];
  }

  // An occurrence in a + b lies in a, in b, or across.
  lemma JoinOccurs(a: string, b: string, marker: string, k: int)
    requires Occurs(a + b, marker, k)
    ensures k + |marker| <= |a| ==> Contains(a, marker)
    ensures k >= |a| ==> Contains(b, marker)
    ensures k < |a| < k + |marker| ==> marker[|a| - k] == b[0]
  {
    var text := a + b;
    if k + |marker| <= |a| {
      assert a == text[..|a|];
      SliceOfSlice(text, 0, |a|, k, |marker|);
      IndexIsFirst(a, marker, k);
    } else if k >= |a| {
      assert b == text[|a|..|text|];
      SliceOfSlice(text, |a|, |text|, k - |a|, |marker|);
      IndexIsFirst(b, marker, k - |a|);
    } else {
      assert text[k..k + |marker|][|a| - k] == b[0];
    }
  }

  // No tag reaches across the start of another, so a tag is found right after a text
  // without it.
  lemma TagAfter(prefix: string, tag: string, rest: string)
    requires IsTag(tag) && !Contains(prefix, tag)
    ensures Index(prefix + (tag + rest), tag) == |prefix|
  {
    hide Index, IsTag;
    TagShape(tag);
    var text := prefix + (tag + rest);
    assert text[|prefix|..|prefix| + |tag|] == tag;
    IndexIsFirst(text, tag, |prefix|);
    JoinOccurs(prefix, tag + rest, tag, Index(text, tag));
  }

  lemma NoTagAcross(a: string, b: string, tag: string)
    requires IsTag(tag) && !Contains(a, tag) && !Contains(b, tag) && (b == "" || b[0] == '<')
    ensures !Contains(a + b, tag)
  {
    hide Index, IsTag;
    TagShape(tag);
    var k := Index(a + b, tag);
    if k >= 0 {
      JoinOccurs(a, b, tag, k);
    }
  }

  // The text after an opening tag holds a close tag if the whole does.
  lemma NoCloseInOpen(s: string)
    requires !Contains(s, CLOSE_TAG)
    ensures !Contains(OPEN_TAG + s, CLOSE_TAG)
  {
    hide Index;
    var k := Index(OPEN_TAG + s, CLOSE_TAG);
    if k >= 0 {
      JoinOccurs(OPEN_TAG, s, CLOSE_TAG, k);
      NotInside(OPEN_TAG, CLOSE_TAG, s, k);
    }
  }

  lemma NoOpenInClose(s: string)
    requires !Contains(s, OPEN_TAG)
    ensures !Contains(CLOSE_TAG + s, OPEN_TAG)
  {
    hide Index;
    var k := Index(CLOSE_TAG + s, OPEN_TAG);
    if k >= 0 {
      JoinOccurs(CLOSE_TAG, s, OPEN_TAG, k);
      NotInside(CLOSE_TAG, OPEN_TAG, s, k);
    }
  }

  lemma NotInside(a: string, tag: string, s: string, k: int)
    requires IsTag(a) && IsTag(tag) && a != tag && Occurs(a + s, tag, k)
    ensures k >= |a|
  {
    assert (a + s)[k..k + |tag|][0] == (a + s)[k] && (a + s)[k..k + |tag|][1] == (a + s)[k + 1];
  }

  // ---------------------------------------------------------------------------
  // Streaming refines extraction

  // A think block and the answer text after it.
  datatype Block = Block(reasoning: string, after: string)

  // No whole tag stands in the answer text, and no close tag in the reasoning.
  predicate Paired(head: string, blocks: seq<Block>) {
    NoTag(head) && forall i :: 0 <= i < |blocks| ==> IsBlock(blocks[i])
  }

  predicate IsBlock(b: Block) {
    !Contains(b.reasoning, CLOSE_TAG) && NoTag(b.after)
  }

  function Written(blocks: seq<Block>): string {
    if blocks == [] then ""
    else OPEN_TAG + (blocks[0].reasoning + (CLOSE_TAG + (blocks[0].after + Written(blocks[1..]))))
  }

  // The text outside the blocks.
  function Answer(head: string, blocks: seq<Block>): string
    decreases |blocks|
  {
    if blocks == [] then head else Answer(head + blocks[0].after, blocks[1..])
  }

  // The text inside the blocks, block by block.
  function Reasonings(blocks: seq<Block>): seq<string> {
    if blocks == [] then [] else [blocks[0].reasoning] + Reasonings(blocks[1..])
  }

  // Removing the blocks ahead of a block puts no open tag together.
  predicate Clear(head: string, blocks: seq<Block>)
    decreases |blocks|
  {
    blocks == [] || (!Contains(head, OPEN_TAG) && Clear(head + blocks[0].after, blocks[1..]))
  }

  lemma {:induction false} AnswerJoins(a: string, b: string, blocks: seq<Block>)
    ensures Answer(a + b, blocks) == a + Answer(b, blocks)
    decreases |blocks|
  {
    if blocks != [] {
      assert a + b + blocks[0].after == a + (b + blocks[0].after);
      AnswerJoins(a, b + blocks[0].after, blocks[1..]);
    }
  }

  lemma WrittenStarts(blocks: seq<Block>)
    ensures Written(blocks) == "" <==> blocks == []
    ensures blocks != [] ==> Written(blocks)[0] == '<'
  {
  }

  // What follows is nothing or starts a tag.
  predicate AtTag(rest: string) {
    rest == "" || rest[0] == '<'
  }

  lemma TagPrefix(s: string, tag: string, rest: string)
    requires IsTag(tag) && s != "" && AtTag(rest)
    ensures tag <= s + rest <==> tag <= s
    ensures CouldBeTag(s + rest) && s[0] == '<' ==> rest == ""
  {
    hide IsTag;
    TagShape(tag);
    assert rest != "" ==> (s + rest)[|s|] == rest[0];
    if tag <= s + rest && |tag| <= |s| {
      assert tag == (s + rest)[..|tag|] == s[..|tag|];
    }
  }

  // A stretch without whole tags, up to the next tag, goes to the current side as it is.
  lemma {:induction false} ScanStretch(inThinking: bool, s: string, rest: string)
    requires NoTag(s) && rest != "" && AtTag(rest)
    ensures var r := Scan(inThinking, rest);
            Scan(inThinking, s + rest) ==
              if inThinking then r.(thinking := s + r.thinking) else r.(content := s + r.content)
  {
    hide Index, CouldBeTag;
    var r := Scan(inThinking, rest);
    if s == "" {
      assert s + rest == rest && s + r.thinking == r.thinking && s + r.content == r.content;
    } else {
      assert (s + rest)[0] == s[0] && (s + rest)[1..] == s[1..] + rest;
      StartsNoTag(s);
      TagPrefix(s, OPEN_TAG, rest);
      TagPrefix(s, CLOSE_TAG, rest);
      SuffixContains(s, 1, OPEN_TAG);
      SuffixContains(s, 1, CLOSE_TAG);
      ScanStretch(inThinking, s[1..], rest);
      assert [s[0]] + (s[1..] + r.thinking) == s + r.thinking;
      assert [s[0]] + (s[1..] + r.content) == s + r.content;
    }
  }

  lemma StartsNoTag(s: string)
    requires NoTag(s)
    ensures !(OPEN_TAG <= s) && !(CLOSE_TAG <= s)
  {
  }

  // At the end of the text a partial tag is held back.
  lemma {:induction false} ScanLast(inThinking: bool, s: string)
    requires NoTag(s)
    ensures var r := Scan(inThinking, s);
            && r.inThinking == inThinking && !r.closeSeen
            && (if inThinking then r.thinking + r.buffer == s && r.content == ""
                else r.content + r.buffer == s && r.thinking == "")
            && (r.buffer == s <==> HeldBack(s))
  {
    hide Contains, Scan, HeldBack;
    ScanTurn(inThinking, s);
    if s != "" && !HeldBack(s) {
      SuffixContains(s, 1, OPEN_TAG);
      SuffixContains(s, 1, CLOSE_TAG);
      ScanLast(inThinking, s[1..]);
      var r := Scan(inThinking, s[1..]);
      assert [s[0]] + (r.thinking + r.buffer) == [s[0]] + r.thinking + r.buffer;
      assert [s[0]] + (r.content + r.buffer) == [s[0]] + r.content + r.buffer;
      assert |r.buffer| <= |s[1..]|;
    } else {
      assert "" + s == s;
    }
  }

  // One turn on a text that starts no whole tag.
  lemma ScanTurn(inThinking: bool, s: string)
    requires NoTag(s)
    ensures HeldBack(s) ==> Scan(inThinking, s) == Scanned("", "", s, inThinking, false)
    ensures !HeldBack(s) ==> s != "" && Scan(inThinking, s) == Emit(inThinking, s[0], Scan(inThinking, s[1..]))
  {
    StartsNoTag(s);
    hide CouldBeTag, NoTag;
  }

  lemma ScanOpen(inThinking: bool, rest: string)
    ensures Scan(inThinking, OPEN_TAG + rest) == Scan(true, rest)
  {
    assert OPEN_TAG <= OPEN_TAG + rest && (OPEN_TAG + rest)[|OPEN_TAG|..] == rest;
  }

  lemma ScanClose(inThinking: bool, rest: string)
    ensures Scan(inThinking, CLOSE_TAG + rest) == Scan(false, rest).(closeSeen := true)
  {
    assert !(OPEN_TAG <= CLOSE_TAG + rest) by {
      assert OPEN_TAG[1] != (CLOSE_TAG + rest)[1];
    }
    assert CLOSE_TAG <= CLOSE_TAG + rest && (CLOSE_TAG + rest)[|CLOSE_TAG|..] == rest;
  }

  // Two scans that give the same content and end alike.
  predicate SameContent(a: Scanned, b: Scanned) {
    a.content == b.content && a.buffer == b.buffer && a.inThinking == b.inThinking
  }

  // Reasoning up to its close tag yields no content, even with open tags in it.
  lemma {:induction false} ScanReasoning(s: string, rest: string)
    requires !Contains(s, CLOSE_TAG)
    ensures var q := Scan(true, s + (CLOSE_TAG + rest));
            SameContent(q, Scan(false, rest)) && q.closeSeen
    decreases |s|
  {
    hide Index;
    var tail := CLOSE_TAG + rest;
    if s == "" {
      assert s + tail == tail;
      ScanClose(true, rest);
    } else {
      assert (s + tail)[0] == s[0] && (s + tail)[1..] == s[1..] + tail;
      StartsNoClose(s);
      TagPrefix(s, OPEN_TAG, tail);
      TagPrefix(s, CLOSE_TAG, tail);
      if OPEN_TAG <= s {
        SuffixContains(s, |OPEN_TAG|, CLOSE_TAG);
        assert (s + tail)[|OPEN_TAG|..] == s[|OPEN_TAG|..] + tail;
        ScanReasoning(s[|OPEN_TAG|..], rest);
      } else {
        SuffixContains(s, 1, CLOSE_TAG);
        ScanReasoning(s[1..], rest);
      }
    }
  }

  lemma StartsNoClose(s: string)
    requires !Contains(s, CLOSE_TAG)
    ensures !(CLOSE_TAG <= s)
  {
  }

  // Streaming the whole text: the answer, of which at most a partial tag is held back.
  lemma {:induction false} ScanPaired(head: string, blocks: seq<Block>)
    requires Paired(head, blocks)
    ensures var r := Scan(false, head + Written(blocks));
            r.content + r.buffer == Answer(head, blocks) && !r.inThinking
    decreases |blocks|
  {
    hide Scan, NoTag, Contains, HeldBack;
    if blocks == [] {
      assert head + "" == head;
      ScanLast(false, head);
    } else {
      var b, rest := blocks[0], blocks[1..];
      assert IsBlock(b);
      assert forall i :: 0 <= i < |rest| ==> rest[i] == blocks[i + 1];
      var next := b.after + Written(rest);
      WrittenStarts(blocks);
      ScanStretch(false, head, Written(blocks));
      ScanOpen(false, b.reasoning + (CLOSE_TAG + next));
      ScanReasoning(b.reasoning, next);
      ScanPaired(b.after, rest);
      AnswerJoins(head, b.after, rest);
      var r := Scan(false, next);
      assert head + (r.content + r.buffer) == head + r.content + r.buffer;
    }
  }

  lemma StripOnce(parts: seq<string>, text: string, i: nat, j: nat)
    requires FindBlock(text) == Some((i, j))
    ensures Strip(parts, text) == Strip(parts + [text[i + |OPEN_TAG|..j]], text[..i] + text[j + |CLOSE_TAG|..])
  {
    hide FindBlock;
  }

  lemma BlockSlices(prefix: string, open: string, s: string, close: string, rest: string)
    ensures var text := prefix + (open + (s + (close + rest)));
            var i := |prefix| + |open|;
            && |text| == i + |s| + |close| + |rest|
            && text[..|prefix|] == prefix && text[i..] == s + (close + rest)
            && text[i..i + |s|] == s && text[i + |s| + |close|..] == rest
  {
    var text := prefix + (open + (s + (close + rest)));
    assert text[|prefix|..] == open + (s + (close + rest));
    assert text[|prefix| + |open|..] == text[|prefix|..][|open|..] == s + (close + rest);
    assert text[|prefix| + |open| + |s|..] == (s + (close + rest))[|s|..] == close + rest;
    assert text[|prefix| + |open| + |s| + |close|..] == (close + rest)[|close|..] == rest;
  }

  // The first block is cut out.
  lemma StripBlock(parts: seq<string>, prefix: string, s: string, rest: string)
    requires !Contains(prefix, OPEN_TAG) && !Contains(s, CLOSE_TAG)
    ensures Strip(parts, prefix + (OPEN_TAG + (s + (CLOSE_TAG + rest)))) == Strip(parts + [s], prefix + rest)
  {
    hide Strip, Contains, Index;
    var text := prefix + (OPEN_TAG + (s + (CLOSE_TAG + rest)));
    BlockSlices(prefix, OPEN_TAG, s, CLOSE_TAG, rest);
    TagAfter(prefix, OPEN_TAG, s + (CLOSE_TAG + rest));
    TagAfter(s, CLOSE_TAG, rest);
    assert FindBlock(text) == Some((|prefix|, |prefix| + |OPEN_TAG| + |s|));
    hide FindBlock;
    StripOnce(parts, text, |prefix|, |prefix| + |OPEN_TAG| + |s|);
  }

  // With an open tag ahead of it, everything from there on is.
  lemma StripFromOpen(parts: seq<string>, prefix: string, s: string, rest: string)
    requires FindBlock(prefix).None? && Contains(prefix, OPEN_TAG) && !Contains(s, CLOSE_TAG)
    ensures var o := Index(prefix, OPEN_TAG);
            && o + |OPEN_TAG| <= |prefix|
            && !Contains(prefix[..o], OPEN_TAG)
            && var cut := prefix[o + |OPEN_TAG|..] + (OPEN_TAG + s);
            Strip(parts, prefix + (OPEN_TAG + (s + (CLOSE_TAG + rest)))) == Strip(parts + [cut], prefix[..o] + rest)
  {
    hide Strip;
    var o := Index(prefix, OPEN_TAG);
    var between := prefix[o + |OPEN_TAG|..];
    assert !Contains(between, CLOSE_TAG);
    NothingBefore(prefix);
    hide Index;
    NoCloseInOpen(s);
    NoTagAcross(between, OPEN_TAG + s, CLOSE_TAG);
    OpenSplits(prefix, o);
    assert prefix == prefix[..o] + (OPEN_TAG + between);
    var cut := between + (OPEN_TAG + s);
    OpensLater(prefix[..o], between, s, rest);
    StripBlock(parts, prefix[..o], cut, rest);
  }

  lemma NothingBefore(prefix: string)
    requires Contains(prefix, OPEN_TAG)
    ensures !Contains(prefix[..Index(prefix, OPEN_TAG)], OPEN_TAG)
  {
    hide Index;
    var o := Index(prefix, OPEN_TAG);
    var k := Index(prefix[..o], OPEN_TAG);
    if k >= 0 {
      assert prefix[k..k + |OPEN_TAG|] == prefix[..o][k..k + |OPEN_TAG|];
      IndexIsFirst(prefix, OPEN_TAG, k);
    }
  }

  lemma OpenSplits(prefix: string, o: nat)
    requires Occurs(prefix, OPEN_TAG, o)
    ensures prefix == prefix[..o] + (OPEN_TAG + prefix[o + |OPEN_TAG|..])
  {
    assert prefix == prefix[..o] + (prefix[o..o + |OPEN_TAG|] + prefix[o + |OPEN_TAG|..]);
  }

  lemma OpensLater(a: string, between: string, s: string, rest: string)
    ensures a + (OPEN_TAG + between) + (OPEN_TAG + (s + (CLOSE_TAG + rest)))
         == a + (OPEN_TAG + (between + (OPEN_TAG + s) + (CLOSE_TAG + rest)))
  {
    var close := CLOSE_TAG + rest;
    Associative(a, OPEN_TAG + between, OPEN_TAG + (s + close));
    Associative(OPEN_TAG, between, OPEN_TAG + (s + close));
    Associative(OPEN_TAG, s, close);
    Associative(between, OPEN_TAG + s, close);
  }

  // An open tag that the removal of a block has put together has no close tag after it.
  lemma NoBlockAfter(prefix: string, after: string)
    requires !Contains(prefix, OPEN_TAG) && NoTag(after)
    ensures FindBlock(prefix + after).None?
  {
    hide Index;
    var text := prefix + after;
    var i := Index(text, OPEN_TAG);
    if i >= 0 {
      JoinOccurs(prefix, after, OPEN_TAG, i);
      var n := i + |OPEN_TAG| - |prefix|;
      SuffixContains(after, n, CLOSE_TAG);
      assert text[i + |OPEN_TAG|..] == after[n..];
    }
  }

  // Cutting text with an open tag out of the answer loses ink.
  lemma InkLost(prefix: string, o: nat, after: string, blocks: seq<Block>)
    requires o < |prefix| && !IsSpace(prefix[o])
    ensures |Ink(Answer(prefix[..o] + after, blocks))| < |Ink(Answer(prefix + after, blocks))|
  {
    hide IsSpace;
    var a, b, x := prefix[..o], prefix[o..], Answer(after, blocks);
    AnswerJoins(a, after, blocks);
    AnswerJoins(prefix, after, blocks);
    InkJoin(a, x);
    InkJoin(prefix, x);
    InkJoin(a, b);
    assert prefix == a + b;
    assert Ink(b) == [b[0]] + Ink(b[1..]);
  }

  // Stripping the blocks leaves the answer if the text is clear, and less of it otherwise.
  lemma {:induction false} StripPaired(parts: seq<string>, prefix: string, blocks: seq<Block>)
    requires FindBlock(prefix).None? && forall i :: 0 <= i < |blocks| ==> IsBlock(blocks[i])
    ensures var (found, remaining) := Strip(parts, prefix + Written(blocks));
            && |found| == |parts| + |blocks|
            && (Clear(prefix, blocks) ==> found == parts + Reasonings(blocks) && remaining == Answer(prefix, blocks))
            && (!Clear(prefix, blocks) ==> |Ink(remaining)| < |Ink(Answer(prefix, blocks))|)
    decreases |blocks|
  {
    hide FindBlock, Strip, Contains, Ink, Index, NoTag, IsSpace;
    if blocks == [] {
      assert prefix + "" == prefix && parts + [] == parts;
      StripNothing(parts, prefix);
    } else {
      var b, rest := blocks[0], blocks[1..];
      assert IsBlock(b);
      assert forall i :: 0 <= i < |rest| ==> rest[i] == blocks[i + 1];
      var s := b.reasoning;
      var next := b.after + Written(rest);
      if !Contains(prefix, OPEN_TAG) {
        StripBlock(parts, prefix, s, next);
        NoBlockAfter(prefix, b.after);
        assert prefix + next == prefix + b.after + Written(rest);
        StripPaired(parts + [s], prefix + b.after, rest);
        assert parts + [s] + Reasonings(rest) == parts + ([s] + Reasonings(rest));
      } else {
        var shorter, cut := CutFromOpen(parts, prefix, b, rest);
        StripPaired(parts + [cut], shorter, rest);
      }
    }
  }

  lemma CutFromOpen(parts: seq<string>, prefix: string, b: Block, rest: seq<Block>) returns (shorter: string, cut: string)
    requires FindBlock(prefix).None? && Contains(prefix, OPEN_TAG) && IsBlock(b)
    ensures Strip(parts, prefix + (OPEN_TAG + (b.reasoning + (CLOSE_TAG + (b.after + Written(rest))))))
         == Strip(parts + [cut], shorter + Written(rest))
    ensures FindBlock(shorter).None?
    ensures |Ink(Answer(shorter, rest))| < |Ink(Answer(prefix + b.after, rest))|
  {
    hide FindBlock, Strip, Contains, Ink, Index, NoTag, IsSpace, Written, Answer;
    StripFromOpen(parts, prefix, b.reasoning, b.after + Written(rest));
    var o := Index(prefix, OPEN_TAG);
    FirstOpen(prefix, o);
    shorter, cut := prefix[..o] + b.after, prefix[o + |OPEN_TAG|..] + (OPEN_TAG + b.reasoning);
    NoBlockAfter(prefix[..o], b.after);
    assert prefix[..o] + (b.after + Written(rest)) == shorter + Written(rest);
    InkLost(prefix, o, b.after, rest);
  }

  lemma FirstOpen(prefix: string, o: int)
    requires Contains(prefix, OPEN_TAG) && o == Index(prefix, OPEN_TAG)
    ensures 0 <= o < |prefix| && !IsSpace(prefix[o])
  {
    hide Index;
    assert prefix[o..o + |OPEN_TAG|][0] == prefix[o];
  }

  lemma StripNothing(parts: seq<string>, text: string)
    requires FindBlock(text).None?
    ensures Strip(parts, text) == (parts, text)
  {
    hide FindBlock;
  }

  // For paired text under every chunking: the streamed content is the answer; the extracted
  // content is the same if there is no block, and otherwise the same up to trimming if and
  // only if no open tag comes together ahead of a block when the earlier ones are removed.
  lemma StreamingRefinesExtraction(head: string, blocks: seq<Block>, chunks: seq<string>)
    requires Paired(head, blocks) && Concat(chunks) == head + Written(blocks)
    ensures Streamed(false, chunks) == Answer(head, blocks)
    ensures blocks == [] ==> Extracted(Concat(chunks)) == ("", Streamed(false, chunks))
    ensures blocks != [] ==> (Extracted(Concat(chunks)).1 == TrimSpace(Streamed(false, chunks)) <==> Clear(head, blocks))
    ensures blocks != [] && Clear(head, blocks) ==> Extracted(Concat(chunks)).0 == TrimSpace(Join(Reasonings(blocks), "\n"))
  {
    StreamedInvariant(false, chunks);
    PairedStream(head, blocks);
    PairedExtract(head, blocks);
  }

  lemma PairedStream(head: string, blocks: seq<Block>)
    requires Paired(head, blocks)
    ensures StreamedWhole(false, head + Written(blocks)) == Answer(head, blocks)
  {
    hide Scan, Written;
    var text := head + Written(blocks);
    assert "" + text == text;
    ScanPaired(head, blocks);
    var r := Scan(false, text);
    assert r.buffer == "" ==> r.content + r.buffer == r.content + "";
  }

  lemma PairedExtract(head: string, blocks: seq<Block>)
    requires Paired(head, blocks)
    ensures var content := Extracted(head + Written(blocks)).1;
            && (blocks == [] ==> Extracted(head + Written(blocks)) == ("", Answer(head, blocks)))
            && (blocks != [] ==> (content == TrimSpace(Answer(head, blocks)) <==> Clear(head, blocks)))
    ensures blocks != [] && Clear(head, blocks) ==>
              Extracted(head + Written(blocks)).0 == TrimSpace(Join(Reasonings(blocks), "\n"))
  {
    hide Join, Contains, Strip, TrimSpace, Ink, Written;
    NoBlockIn(head);
    StripPaired([], head, blocks);
    WrittenStarts(blocks);
    var text := head + Written(blocks);
    assert blocks == [] ==> text == head;
    assert [] + Reasonings(blocks) == Reasonings(blocks);
    var (parts, remaining) := Strip([], text);
    TrimSpaceInk(remaining);
    TrimSpaceInk(Answer(head, blocks));
  }

  lemma NoBlockIn(head: string)
    requires NoTag(head)
    ensures FindBlock(head).None?
  {
  }

  // A text of which removing a block puts an open tag together: the stream keeps what the
  // extractor then cuts out with the next block.
  lemma RemovalOpens()
    ensures var blocks := [Block("r", "ink>a"), Block("s", "b")];
            && Paired("<th", blocks) && !Clear("<th", blocks)
            && Answer("<th", blocks) == "<think>ab"
            && Extracted("<th" + Written(blocks)).1 != TrimSpace("<think>ab")
  {
    TooShort("<th");
    TooShort("r");
    TooShort("ink>a");
    TooShort("s");
    TooShort("b");
    OpensWith("ab", "a");
    hide Contains, NoTag, Extracted, TrimSpace, Written;
    var b, c := Block("r", "ink>a"), Block("s", "b");
    assert IsBlock(b) && IsBlock(c);
    assert [b, c][1..] == [c] && [c][1..] == [];
    assert "<th" + "ink>a" == OPEN_TAG + "a" && OPEN_TAG + "a" + "b" == OPEN_TAG + "ab";
    PairedExtract("<th", [b, c]);
  }

  lemma TooShort(s: string)
    requires |s| < |OPEN_TAG|
    ensures NoTag(s)
  {
  }

  lemma OpensWith(s: string, t: string)
    ensures Contains(OPEN_TAG + s, OPEN_TAG) && Contains(OPEN_TAG + t, OPEN_TAG)
  {
  }

  // A block that opens after `plain` and never closes. The extractor keeps the text after
  // the tag as content; the stream recovers it only if nothing was content before, and it
  // is not a mere partial tag.
  lemma UnclosedBlock(plain: string, s: string, chunks: seq<string>)
    requires NoTag(plain) && NoTag(s) && Concat(chunks) == plain + (OPEN_TAG + s)
    ensures Streamed(false, chunks) == if plain != "" then plain else if HeldBack(s) then "" else s
    ensures Extracted(plain + (OPEN_TAG + s)) == ("", TrimSpace(plain + s))
  {
    StreamedInvariant(false, chunks);
    UnclosedStream(plain, s);
    UnclosedExtract(plain, s);
  }

  lemma UnclosedStream(plain: string, s: string)
    requires NoTag(plain) && NoTag(s)
    ensures StreamedWhole(false, plain + (OPEN_TAG + s)) == if plain != "" then plain else if HeldBack(s) then "" else s
  {
    hide NoTag, HeldBack, Scan;
    var text := plain + (OPEN_TAG + s);
    assert "" + text == text;
    OpenedScan(plain, s);
    ScanLast(true, s);
    var r := Scan(true, s);
    AccumulateConcat([], r.thinking);
    assert r.thinking == "" <==> r.buffer == s by {
      assert r.thinking == "" ==> r.thinking + r.buffer == r.buffer;
    }
    assert plain + "" == plain;
  }

  lemma OpenedScan(plain: string, s: string)
    requires NoTag(plain) && NoTag(s)
    ensures Scan(false, plain + (OPEN_TAG + s)) == Scan(true, s).(content := plain)
  {
    hide NoTag, Scan;
    ScanStretch(false, plain, OPEN_TAG + s);
    ScanOpen(false, s);
    ScanLast(true, s);
    assert plain + "" == plain;
  }

  lemma UnclosedExtract(plain: string, s: string)
    requires NoTag(plain) && NoTag(s)
    ensures Extracted(plain + (OPEN_TAG + s)) == ("", TrimSpace(plain + s))
  {
    hide Index, TrimSpace;
    var text := plain + (OPEN_TAG + s);
    TagAfter(plain, OPEN_TAG, s);
    assert text[|plain| + |OPEN_TAG|..] == s && text[..|plain|] == plain;
    NoCloseInOpen(s);
    NoTagAcross(plain, OPEN_TAG + s, CLOSE_TAG);
    StripNothing([], text);
  }

  // The two contents then agree up to trimming exactly when what opened the text is more
  // than a partial tag, or the block holds nothing but white space.
  lemma UnclosedAgreesIff(plain: string, s: string, chunks: seq<string>)
    requires NoTag(plain) && NoTag(s) && Concat(chunks) == plain + (OPEN_TAG + s)
    ensures TrimSpace(Streamed(false, chunks)) == Extracted(plain + (OPEN_TAG + s)).1
       <==> (plain == "" && !HeldBack(s)) || AllSpace(s)
  {
    hide NoTag, TrimSpace;
    UnclosedBlock(plain, s, chunks);
    TrimDropsIff(plain, s);
    assert "" + s == s;
  }

  // The prompt opened the block: everything up to the close tag is reasoning. Without
  // further blocks both forms say so. With one, the extractor takes the first reasoning and
  // its close tag for content.
  lemma ImplicitOpen(s: string, head: string, blocks: seq<Block>, chunks: seq<string>)
    requires NoTag(s) && Paired(head, blocks) && Concat(chunks) == s + (CLOSE_TAG + (head + Written(blocks)))
    ensures Streamed(true, chunks) == Answer(head, blocks)
    ensures blocks == [] ==> Extracted(Concat(chunks)) == (TrimSpace(s), TrimSpace(Streamed(true, chunks)))
    ensures blocks != [] && Clear(head, blocks) ==>
              && Extracted(Concat(chunks)).1 == TrimSpace(s + (CLOSE_TAG + Answer(head, blocks)))
              && Extracted(Concat(chunks)).1 != TrimSpace(Streamed(true, chunks))
              && Extracted(Concat(chunks)).0 == TrimSpace(Join(Reasonings(blocks), "\n"))
  {
    StreamedInvariant(true, chunks);
    ImplicitStream(s, head, blocks);
    if blocks == [] {
      assert head + Written(blocks) == head;
      ImplicitAlone(s, head);
    } else if Clear(head, blocks) {
      ImplicitBlocks(s, head, blocks);
    }
  }

  lemma ImplicitStream(s: string, head: string, blocks: seq<Block>)
    requires NoTag(s) && Paired(head, blocks)
    ensures StreamedWhole(true, s + (CLOSE_TAG + (head + Written(blocks)))) == Answer(head, blocks)
  {
    hide Scan, Written, Contains;
    var rest := head + Written(blocks);
    var text := s + (CLOSE_TAG + rest);
    assert "" + text == text;
    ScanReasoning(s, rest);
    ScanPaired(head, blocks);
    var r := Scan(true, text);
    assert r.buffer == "" ==> r.content + r.buffer == r.content + "";
  }

  lemma ImplicitAlone(s: string, answer: string)
    requires NoTag(s) && NoTag(answer)
    ensures Extracted(s + (CLOSE_TAG + answer)) == (TrimSpace(s), TrimSpace(answer))
  {
    hide Index, TrimSpace;
    var text := s + (CLOSE_TAG + answer);
    TagAfter(s, CLOSE_TAG, answer);
    assert text[|s| + |CLOSE_TAG|..] == answer && text[..|s|] == s;
    NoOpenInClose(answer);
    NoTagAcross(s, CLOSE_TAG + answer, OPEN_TAG);
    StripNothing([], text);
  }

  // Text that ends a tag in front changes nothing about open tags.
  lemma OpensBehind(s: string, x: string)
    requires !Contains(s, OPEN_TAG)
    ensures Contains(s + (CLOSE_TAG + x), OPEN_TAG) ==> Contains(x, OPEN_TAG)
  {
    if !Contains(x, OPEN_TAG) {
      NoOpenInClose(x);
      NoTagAcross(s, CLOSE_TAG + x, OPEN_TAG);
    }
  }

  lemma {:induction false} ClearBehind(s: string, head: string, blocks: seq<Block>)
    requires !Contains(s, OPEN_TAG) && Clear(head, blocks)
    ensures Clear(s + (CLOSE_TAG + head), blocks)
    decreases |blocks|
  {
    hide Contains;
    if blocks != [] {
      var after := blocks[0].after;
      OpensBehind(s, head);
      ClearBehind(s, head + after, blocks[1..]);
      assert s + (CLOSE_TAG + head) + after == s + (CLOSE_TAG + (head + after));
    }
  }

  lemma ImplicitBlocks(s: string, head: string, blocks: seq<Block>)
    requires NoTag(s) && Paired(head, blocks) && blocks != [] && Clear(head, blocks)
    ensures var content := Extracted(s + (CLOSE_TAG + (head + Written(blocks)))).1;
            && content == TrimSpace(s + (CLOSE_TAG + Answer(head, blocks)))
            && content != TrimSpace(Answer(head, blocks))
    ensures Extracted(s + (CLOSE_TAG + (head + Written(blocks)))).0 == TrimSpace(Join(Reasonings(blocks), "\n"))
  {
    hide Join, Contains, Strip, TrimSpace, Ink, Written, FindBlock, Clear, Answer;
    var front := s + (CLOSE_TAG + head);
    NoBlockInFront(s, head, blocks);
    ClearBehind(s, head, blocks);
    StripPaired([], front, blocks);
    ImplicitText(s, head, blocks);
    assert [] + Reasonings(blocks) == Reasonings(blocks);
    var answer := Answer(head, blocks);
    LongerInk(s, answer);
    TrimSpaceInk(s + (CLOSE_TAG + answer));
    TrimSpaceInk(answer);
  }

  lemma ImplicitText(s: string, head: string, blocks: seq<Block>)
    ensures s + (CLOSE_TAG + (head + Written(blocks))) == s + (CLOSE_TAG + head) + Written(blocks)
    ensures Answer(s + (CLOSE_TAG + head), blocks) == s + (CLOSE_TAG + Answer(head, blocks))
  {
    hide Written, Answer;
    AnswerJoins(s + CLOSE_TAG, head, blocks);
    Associative(s, CLOSE_TAG, head);
    Associative(s, CLOSE_TAG, Answer(head, blocks));
    Associative(CLOSE_TAG, head, Written(blocks));
    Associative(s, CLOSE_TAG + head, Written(blocks));
  }

  lemma NoBlockInFront(s: string, head: string, blocks: seq<Block>)
    requires NoTag(s) && blocks != [] && Clear(head, blocks)
    ensures FindBlock(s + (CLOSE_TAG + head)).None?
  {
    hide Contains;
    OpensBehind(s, head);
    NoBlockWithout(s + (CLOSE_TAG + head));
  }

  lemma NoBlockWithout(text: string)
    requires !Contains(text, OPEN_TAG)
    ensures FindBlock(text).None?
  {
  }

  lemma LongerInk(s: string, x: string)
    ensures |Ink(s + (CLOSE_TAG + x))| > |Ink(x)|
  {
    InkJoin(s, CLOSE_TAG + x);
    InkJoin(CLOSE_TAG, x);
    assert Ink(CLOSE_TAG) == ['<'] + Ink(CLOSE_TAG[1..]);
  }

  // ---------------------------------------------------------------------------
  // The streamed reasoning

  // No tag at all stands inside the reasoning.
  predicate Untagged(blocks: seq<Block>) {
    forall i :: 0 <= i < |blocks| ==> NoTag(blocks[i].reasoning)
  }

  lemma {:induction false} ScanThinks(head: string, blocks: seq<Block>)
    requires Paired(head, blocks) && Untagged(blocks)
    ensures Scan(false, head + Written(blocks)).thinking == Concat(Reasonings(blocks))
    decreases |blocks|
  {
    hide Scan, NoTag, Contains, HeldBack;
    if blocks == [] {
      assert head + "" == head;
      ScanLast(false, head);
    } else {
      var b, rest := blocks[0], blocks[1..];
      assert IsBlock(b);
      assert forall i :: 0 <= i < |rest| ==> rest[i] == blocks[i + 1];
      var next := b.after + Written(rest);
      WrittenStarts(blocks);
      ScanStretch(false, head, Written(blocks));
      ScanOpen(false, b.reasoning + (CLOSE_TAG + next));
      ScanStretch(true, b.reasoning, CLOSE_TAG + next);
      ScanClose(true, next);
      ScanThinks(b.after, rest);
    }
  }

  // Under every chunking the reasoning streamed is that of the blocks, joined, and Finish
  // adds nothing to it.
  lemma ReasoningIsStreamed(head: string, blocks: seq<Block>, chunks: seq<string>)
    requires Paired(head, blocks) && Untagged(blocks) && Concat(chunks) == head + Written(blocks)
    ensures StreamedThinking(false, chunks) == Concat(Reasonings(blocks))
  {
    ThinkingInvariant(false, chunks);
    hide Scan, Written, Contains;
    var text := head + Written(blocks);
    assert "" + text == text;
    ScanPaired(head, blocks);
    ScanThinks(head, blocks);
    var r := Scan(false, text);
    assert r.thinking + "" == r.thinking;
  }

  // With the block opened by the prompt, the reasoning up to its close tag comes first.
  lemma ImplicitReasoning(s: string, head: string, blocks: seq<Block>, chunks: seq<string>)
    requires NoTag(s) && Paired(head, blocks) && Untagged(blocks)
    requires Concat(chunks) == s + (CLOSE_TAG + (head + Written(blocks)))
    ensures StreamedThinking(true, chunks) == s + Concat(Reasonings(blocks))
  {
    ThinkingInvariant(true, chunks);
    hide Scan, Written, Contains;
    var rest := head + Written(blocks);
    var text := s + (CLOSE_TAG + rest);
    assert "" + text == text;
    ScanStretch(true, s, CLOSE_TAG + rest);
    ScanClose(true, rest);
    ScanPaired(head, blocks);
    ScanThinks(head, blocks);
    var r := Scan(true, text);
    assert r.thinking + "" == r.thinking;
  }

  // A block that never closes: all of it is reasoning, the tail held back coming out at
  // Finish; except that when it is recovered as the answer Finish adds no reasoning, so what
  // has been streamed lacks the tail.
  lemma UnclosedReasoning(plain: string, s: string, chunks: seq<string>)
    requires NoTag(plain) && NoTag(s) && Concat(chunks) == plain + (OPEN_TAG + s)
    ensures plain != "" || HeldBack(s) ==> StreamedThinking(false, chunks) == s
    ensures plain == "" && !HeldBack(s) ==>
              exists tail: string :: HeldBack(tail) && s == StreamedThinking(false, chunks) + tail
  {
    ThinkingInvariant(false, chunks);
    hide NoTag, HeldBack, Scan;
    var text := plain + (OPEN_TAG + s);
    assert "" + text == text;
    OpenedScan(plain, s);
    ScanLast(true, s);
    ScanHoldsBack(true, s);
    var r := Scan(true, s);
    AccumulateConcat([], r.thinking);
    assert r.thinking == "" <==> r.buffer == s by {
      assert r.thinking == "" ==> r.thinking + r.buffer == r.buffer;
    }
    assert r.thinking + "" == r.thinking;
  }

  // Paired text before a further tag.
  lemma {:induction false} ScanPairedThen(head: string, blocks: seq<Block>, rest: string)
    requires Paired(head, blocks) && Untagged(blocks) && rest != "" && AtTag(rest)
    ensures var r, q := Scan(false, rest), Scan(false, head + (Written(blocks) + rest));
            && q.content == Answer(head, blocks) + r.content && q.buffer == r.buffer && q.inThinking == r.inThinking
            && q.thinking == Concat(Reasonings(blocks)) + r.thinking
            && (q.closeSeen <==> blocks != [] || r.closeSeen)
    decreases |blocks|
  {
    hide Scan, NoTag, Contains, HeldBack;
    var r := Scan(false, rest);
    if blocks == [] {
      assert Written(blocks) + rest == rest && "" + r.thinking == r.thinking;
      ScanStretch(false, head, rest);
    } else {
      var b, more := blocks[0], blocks[1..];
      assert IsBlock(b);
      assert forall i :: 0 <= i < |more| ==> more[i] == blocks[i + 1];
      var next := b.after + (Written(more) + rest);
      WrittenThen(b, more, rest);
      ScanStretch(false, head, OPEN_TAG + (b.reasoning + (CLOSE_TAG + next)));
      ScanOpen(false, b.reasoning + (CLOSE_TAG + next));
      ScanStretch(true, b.reasoning, CLOSE_TAG + next);
      ScanClose(true, next);
      ScanPairedThen(b.after, more, rest);
      AnswerJoins(head, b.after, more);
      Associative(head, Answer(b.after, more), r.content);
      Associative(b.reasoning, Concat(Reasonings(more)), r.thinking);
    }
  }

  lemma WrittenThen(b: Block, more: seq<Block>, rest: string)
    ensures Written([b] + more) + rest
         == OPEN_TAG + (b.reasoning + (CLOSE_TAG + (b.after + (Written(more) + rest))))
  {
    hide Written;
    var w := Written(more);
    WrittenFirst(b, more);
    Associative(b.after, w, rest);
    Associative(CLOSE_TAG, b.after + w, rest);
    Associative(b.reasoning, CLOSE_TAG + (b.after + w), rest);
    Associative(OPEN_TAG, b.reasoning + (CLOSE_TAG + (b.after + w)), rest);
  }

  lemma WrittenFirst(b: Block, more: seq<Block>)
    ensures Written([b] + more) == OPEN_TAG + (b.reasoning + (CLOSE_TAG + (b.after + Written(more))))
  {
    assert ([b] + more)[1..] == more;
  }

  // A block that never closes after others that did is all reasoning: it is not recovered,
  // even when there is no other answer.
  lemma UnclosedAfterBlocks(head: string, blocks: seq<Block>, s: string, chunks: seq<string>)
    requires Paired(head, blocks) && Untagged(blocks) && blocks != [] && NoTag(s)
    requires Concat(chunks) == head + (Written(blocks) + (OPEN_TAG + s))
    ensures Streamed(false, chunks) == Answer(head, blocks)
    ensures StreamedThinking(false, chunks) == Concat(Reasonings(blocks)) + s
  {
    StreamedInvariant(false, chunks);
    ThinkingInvariant(false, chunks);
    hide NoTag, HeldBack, Scan, Written;
    var text := head + (Written(blocks) + (OPEN_TAG + s));
    assert "" + text == text;
    ScanPairedThen(head, blocks, OPEN_TAG + s);
    ScanOpen(false, s);
    ScanLast(true, s);
    var r, answer, before := Scan(true, s), Answer(head, blocks), Concat(Reasonings(blocks));
    assert answer + "" == answer && before + r.thinking + "" == before + r.thinking;
    Associative(before, r.thinking, r.buffer);
    assert r.buffer == "" ==> r.thinking + r.buffer == r.thinking;
  }
}
