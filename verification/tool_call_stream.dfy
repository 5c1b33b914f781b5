// Whole streams through the tool-call filter of api/tool_call_stream_filter.go, however
// they are cut into chunks.
module ToolCallStream {
  import opened Text
  import opened ToolCallFilter
  import opened ToolCallProse
  import opened Wrappers

  // ---------------------------------------------------------------------------
  // Suppression

  // Feeds in a row: the state after the last, and all that was emitted.
  function FedAll(m: Markers, s: State, chunks: seq<string>): (r: (State, string))
    requires m.Valid() && s.Valid()
    ensures r.0.Valid()
    decreases |chunks|
  {
    if chunks == [] then (s, "")
    else
      var (t, out) := FedAll(m, s, chunks[..|chunks| - 1]);
      FedValid(m, t, chunks[|chunks| - 1]);
      var (u, more) := Fed(m, t, chunks[|chunks| - 1]);
      (u, out + more)
  }

  lemma FedValid(m: Markers, s: State, text: string)
    requires m.Valid() && s.Valid()
    ensures Fed(m, s, text).0.Valid()
  {
    if !s.suppressing && text != "" {
      DrainValid(m, s.(buffer := s.buffer + text), "");
    }
  }

  // A one-sided marker has been seen.
  predicate Silent(s: State) {
    s.suppressing || s.until == Some(SUPPRESS_PERMANENTLY)
  }

  // Nothing is emitted ever after, at Finish either.
  lemma {:induction false} SilentForever(m: Markers, s: State, chunks: seq<string>)
    requires m.Valid() && s.Valid() && Silent(s)
    ensures Silent(FedAll(m, s, chunks).0) && FedAll(m, s, chunks).1 == ""
    ensures Finished(m, FedAll(m, s, chunks).0).1 == ""
    decreases |chunks|
  {
    hide Drain, PartialSuffixLen;
    if chunks != [] {
      SilentForever(m, s, chunks[..|chunks| - 1]);
      var t, text := FedAll(m, s, chunks[..|chunks| - 1]).0, chunks[|chunks| - 1];
      if !t.suppressing && text != "" {
        DrainStep(m, t.(buffer := t.buffer + text), "");
      }
    }
  }

  // When the earliest envelope is a one-sided marker, its feed emits the prose ahead of it
  // and the stream falls silent.
  lemma OneSidedSilences(m: Markers, s: State, text: string)
    requires m.Valid() && s.Valid() && !s.suppressing && s.until.None? && text != ""
    requires FindStart(m, s.buffer + text).Some?
    requires FindStart(m, s.buffer + text).value.hasClose
    requires FindStart(m, s.buffer + text).value.closeMarker == SUPPRESS_PERMANENTLY
    ensures Silent(Fed(m, s, text).0)
    ensures FindStart(m, s.buffer + text).value.idx <= |s.buffer + text|
    ensures Fed(m, s, text).1 == Prose(s.buffer + text, FindStart(m, s.buffer + text).value.idx)
  {
    hide Drain, FindStart, Prose;
    var joined := s.(buffer := s.buffer + text);
    DrainStep(m, joined, "");
    var start := FindStart(m, joined.buffer).value;
    var prose := Prose(joined.buffer, start.idx);
    assert "" + prose == prose;
    var next := Opened(joined, start);
    if next.buffer == "" {
      DrainNothing(m, next, prose);
    } else {
      DrainStep(m, next, prose);
    }
  }

  lemma ShiftedOccurrence(whole: string, d: nat, marker: string, k: nat)
    requires d <= |whole|
    ensures Occurs(whole[d..], marker, k) <==> Occurs(whole, marker, d + k)
  {
    if d + k + |marker| <= |whole| {
      assert whole[d..][k..k + |marker|] == whole[d + k..d + k + |marker|];
    }
  }

  // Dropping text in which no occurrence starts does not move the first occurrence.
  lemma DropFindsMarker(whole: string, d: nat, marker: string)
    requires d <= |whole|
    requires forall k :: Occurs(whole, marker, k) ==> d <= k
    ensures Index(whole, marker) ==
              if Index(whole[d..], marker) < 0 then -1 else d + Index(whole[d..], marker)
  {
    hide Index, Occurs;
    var i, j := Index(whole, marker), Index(whole[d..], marker);
    if i >= 0 {
      ShiftedOccurrence(whole, d, marker, i - d);
      IndexIsFirst(whole[d..], marker, i - d);
    }
    if j >= 0 {
      ShiftedOccurrence(whole, d, marker, j);
      IndexIsFirst(whole, marker, d + j);
    }
  }

  // Where the tail of b that may start the marker begins.
  function Kept(b: string, marker: string): (d: nat)
    requires marker != ""
    ensures d <= |b|
  {
    |b| - PartialPrefixLen(b, marker)
  }

  lemma LateOccurrence(b: string, x: string, marker: string, i: nat)
    requires marker != "" && Index(b, marker) < 0 && Occurs(b + x, marker, i)
    ensures Kept(b, marker) <= i
  {
    hide Index, PartialPrefixLen;
    if i + |marker| > |b| {
      if i < |b| {
        StraddlesEnd(b, x, marker, i);
      }
    } else {
      assert b[i..i + |marker|] == (b + x)[i..i + |marker|];
      IndexIsFirst(b, marker, i);
      assert false;
    }
  }

  // Keeping only the tail of b does not move the end of the marker's first occurrence.
  lemma TailFindsMarker(b: string, x: string, marker: string)
    requires marker != "" && Index(b, marker) < 0
    ensures var d, whole := Kept(b, marker), b + x;
            Index(whole, marker) == if Index(whole[d..], marker) < 0 then -1 else d + Index(whole[d..], marker)
  {
    hide Index, Kept;
    forall i | Occurs(b + x, marker, i)
      ensures Kept(b, marker) <= i
    {
      LateOccurrence(b, x, marker, i);
    }
    DropFindsMarker(b + x, Kept(b, marker), marker);
  }

  // The filter is dropping text until `close`, and holds less than one of it.
  predicate Dropping(s: State, close: string) {
    && s.until == Some(close) && close != "" && close != SUPPRESS_PERMANENTLY
    && !s.suppressing && |s.buffer| < |close| && s.buffer <= close
  }

  lemma KeepsWhole(buffer: string, close: string)
    requires |buffer| < |close| && buffer <= close
    ensures PartialPrefixLen(buffer, close) == |buffer| && Index(buffer, close) < 0
  {
    PartialPrefixIsLongest(buffer, close, |buffer|);
  }

  // One feed while dropping: nothing is emitted before the marker is complete; when it is,
  // the filter goes on exactly after its first occurrence.
  lemma DroppingFeed(m: Markers, s: State, close: string, text: string)
    requires m.Valid() && s.Valid() && Dropping(s, close)
    ensures Resumes(m, close, s.buffer + text, Fed(m, s, text))
  {
    hide Drain, PartialPrefixLen, Index;
    var joined := s.buffer + text;
    if text == "" {
      assert joined == s.buffer;
      KeepsWhole(s.buffer, close);
      assert joined[Kept(joined, close)..] == joined;
    } else {
      DrainStep(m, s.(buffer := joined), "");
      KeptStarts(joined, close);
    }
  }

  lemma KeptStarts(text: string, marker: string)
    requires marker != ""
    ensures |text[Kept(text, marker)..]| < |marker| && text[Kept(text, marker)..] <= marker
  {
    hide PartialPrefixLen;
  }

  // What a feed must do when `stream` is all the text since the dropping began.
  predicate Resumes(m: Markers, close: string, stream: string, fed: (State, string))
    requires m.Valid() && close != ""
  {
    var end := Index(stream, close);
    if end < 0 then Dropping(fed.0, close) && fed.1 == "" && fed.0.buffer == stream[Kept(stream, close)..]
    else fed == Drain(m, State(stream[end + |close|..], None, false), "")
  }

  // The marker is incomplete in `before` and all of the chunks but the last.
  ghost predicate Incomplete(close: string, before: string, chunks: seq<string>) {
    forall k :: 0 <= k < |chunks| ==> Index(before + Concat(chunks[..k]), close) < 0
  }

  // However the stream is cut: as long as the marker is incomplete in all that came since
  // the dropping began, nothing is emitted and less than one marker is held. The chunk that
  // completes it is handled as if the stream began right after its first occurrence.
  lemma {:induction false} SuppressionResumes(m: Markers, s: State, close: string, before: string, chunks: seq<string>)
    requires m.Valid() && s.Valid() && Dropping(s, close) && Index(before, close) < 0
    requires s.buffer == before[Kept(before, close)..]
    requires Incomplete(close, before, chunks)
    ensures Resumes(m, close, before + Concat(chunks), FedAll(m, s, chunks))
    decreases |chunks|
  {
    hide Drain, Index, PartialPrefixLen, Fed, Kept;
    if chunks == [] {
      assert before + "" == before;
    } else {
      var earlier, last := chunks[..|chunks| - 1], chunks[|chunks| - 1];
      assert forall k :: 0 <= k < |earlier| ==> earlier[..k] == chunks[..k];
      SuppressionResumes(m, s, close, before, earlier);
      var longer := before + Concat(earlier);
      ConcatLast(earlier, last);
      assert chunks == earlier + [last];
      assert before + (Concat(earlier) + last) == longer + last;
      assert Index(longer, close) < 0;
      Resume(m, FedAll(m, s, earlier).0, close, longer, last);
      assert forall out: string :: "" + out == out;
    }
  }

  // A feed on the tail kept from `before` is a feed on all of `before`.
  lemma Resume(m: Markers, t: State, close: string, before: string, text: string)
    requires m.Valid() && t.Valid() && Dropping(t, close) && Index(before, close) < 0
    requires t.buffer == before[Kept(before, close)..]
    ensures Resumes(m, close, before + text, Fed(m, t, text))
  {
    hide Drain, Index, Fed, Kept;
    var stream, d := before + text, Kept(before, close);
    assert t.buffer + text == stream[d..];
    TailFindsMarker(before, text, close);
    DroppingFeed(m, t, close, text);
    var end := Index(stream[d..], close);
    if end >= 0 {
      assert stream[d..][end + |close|..] == stream[d + end + |close|..];
    } else {
      SamePartial(before, text, close);
      assert stream[d..][Kept(stream[d..], close)..] == stream[Kept(stream, close)..];
    }
  }

  lemma SuffixPartial(whole: string, d: nat, marker: string, n: nat)
    requires d <= |whole| && n <= |whole| - d && n < |marker|
    ensures EndsWithPrefix(whole[d..], marker, n) <==> EndsWithPrefix(whole, marker, n)
  {
    assert whole[d..][|whole| - d - n..] == whole[|whole| - n..];
  }

  // The partial marker at the end of a stream lies in the kept tail and what came after.
  lemma SamePartial(before: string, text: string, marker: string)
    requires marker != ""
    ensures var d, stream := Kept(before, marker), before + text;
            Kept(stream, marker) == d + Kept(stream[d..], marker)
  {
    hide PartialPrefixLen, EndsWithPrefix;
    var d, stream := Kept(before, marker), before + text;
    var n, k := PartialPrefixLen(stream, marker), PartialPrefixLen(stream[d..], marker);
    LatePartial(before, text, marker, n);
    SuffixPartial(stream, d, marker, n);
    PartialPrefixIsLongest(stream[d..], marker, n);
    SuffixPartial(stream, d, marker, k);
    PartialPrefixIsLongest(stream, marker, k);
  }

  lemma LatePartial(before: string, text: string, marker: string, n: nat)
    requires n <= |before + text| && n < |marker| && EndsWithPrefix(before + text, marker, n)
    ensures n <= |before + text| - Kept(before, marker)
  {
    hide PartialPrefixLen;
    if n > |text| {
      var stream, k := before + text, n - |text|;
      assert before[|before| - k..] == stream[|stream| - n..][..k] == marker[..k];
      PartialPrefixIsLongest(before, marker, k);
    }
  }

  // ---------------------------------------------------------------------------
  // From the envelope on

  // Between feeds the filter lets text through, drops it for good, or drops it until a
  // marker of which it holds less than one.
  predicate Settled(s: State) {
    Silent(s) || s.until.None? || Dropping(s, s.until.value)
  }

  lemma KeptSettles(s: State, text: string, close: string)
    requires close != "" && close != SUPPRESS_PERMANENTLY && s.until == Some(close) && !s.suppressing
    ensures Settled(s.(buffer := text[Kept(text, close)..]))
  {
    hide Kept;
    KeptStarts(text, close);
  }

  lemma {:induction false} DrainSettles(m: Markers, s: State, out: string)
    requires m.Valid() && s.Valid() && !s.suppressing
    ensures Settled(Drain(m, s, out).0)
    decreases |s.buffer|
  {
    hide Drain, Index, FindStart, PartialSuffixLen, PartialPrefixLen, Prose, Kept;
    if s.buffer == "" {
      DrainNothing(m, s, out);
    } else {
      DrainStep(m, s, out);
      if s.until.None? {
        if FindStart(m, s.buffer).Some? {
          var start := FindStart(m, s.buffer).value;
          DrainSettles(m, Opened(s, start), out + Prose(s.buffer, start.idx));
        }
      } else if s.until.value != SUPPRESS_PERMANENTLY {
        var close := s.until.value;
        var end := Index(s.buffer, close);
        if end < 0 {
          KeptSettles(s, s.buffer, close);
          KeptIs(s.buffer, close);
        } else {
          DrainSettles(m, s.(buffer := s.buffer[end + |close|..], until := None), out);
        }
      }
    }
  }

  lemma KeptIs(text: string, marker: string)
    requires marker != ""
    ensures Kept(text, marker) == |text| - PartialPrefixLen(text, marker)
  {
  }

  // So it is after every feed of every stream.
  lemma {:induction false} StreamSettles(m: Markers, s: State, chunks: seq<string>)
    requires m.Valid() && s.Valid() && Settled(s)
    ensures Settled(FedAll(m, s, chunks).0)
    decreases |chunks|
  {
    hide Drain, Settled;
    if chunks != [] {
      var t, text := FedAll(m, s, chunks[..|chunks| - 1]).0, chunks[|chunks| - 1];
      StreamSettles(m, s, chunks[..|chunks| - 1]);
      if !t.suppressing && text != "" {
        DrainSettles(m, t.(buffer := t.buffer + text), "");
      }
    }
  }

  lemma {:induction false} DrainPrepends(m: Markers, s: State, x: string, out: string)
    requires m.Valid() && s.Valid()
    ensures Drain(m, s, x + out) == (Drain(m, s, out).0, x + Drain(m, s, out).1)
    decreases |s.buffer|
  {
    hide Drain, Index, FindStart, PartialSuffixLen, PartialPrefixLen, Prose;
    if s.buffer == "" {
      DrainNothing(m, s, out);
      DrainNothing(m, s, x + out);
    } else {
      DrainStep(m, s, out);
      DrainStep(m, s, x + out);
      if s.until.None? {
        if FindStart(m, s.buffer).Some? {
          var start := FindStart(m, s.buffer).value;
          var prose := Prose(s.buffer, start.idx);
          assert x + out + prose == x + (out + prose);
          DrainPrepends(m, Opened(s, start), x, out + prose);
        } else {
          var given := s.buffer[..|s.buffer| - PartialSuffixLen(m, s.buffer)];
          assert x + out + given == x + (out + given);
        }
      } else if s.until.value != SUPPRESS_PERMANENTLY {
        var close := s.until.value;
        if Index(s.buffer, close) >= 0 {
          DrainPrepends(m, s.(buffer := s.buffer[Index(s.buffer, close) + |close|..], until := None), x, out);
        }
      }
    }
  }

  lemma {:induction false} FedAllFirst(m: Markers, s: State, text: string, chunks: seq<string>)
    requires m.Valid() && s.Valid()
    ensures Fed(m, s, text).0.Valid()
    ensures var (t, out) := Fed(m, s, text);
            var (u, more) := FedAll(m, t, chunks);
            FedAll(m, s, [text] + chunks) == (u, out + more)
    decreases |chunks|
  {
    hide Fed;
    FedValid(m, s, text);
    var (t, out) := Fed(m, s, text);
    var all := [text] + chunks;
    if chunks == [] {
      assert all == [text] && [text][..0] == [];
      assert "" + out == out + "" == out;
    } else {
      var n := |chunks| - 1;
      assert all[..|all| - 1] == [text] + chunks[..n];
      FedAllFirst(m, s, text, chunks[..n]);
      var (u, more) := FedAll(m, t, chunks[..n]);
      var last := Fed(m, u, chunks[n]).1;
      assert out + (more + last) == out + more + last;
    }
  }

  // The feed that finds an envelope with a close marker: it emits the prose ahead of it,
  // and goes on as if fed what comes after the envelope's opening while dropping.
  lemma EnvelopeDrops(m: Markers, s: State, text: string)
    requires m.Valid() && s.Valid() && !s.suppressing && s.until.None? && text != ""
    requires Opens(m, s.buffer + text)
    ensures var joined := s.buffer + text;
            var start := FindStart(m, joined).value;
            && start.idx + start.consumeLen <= |joined| && start.closeMarker != ""
            && var after := joined[start.idx + start.consumeLen..];
            var prose := Prose(joined, start.idx);
            Fed(m, s, text)
              == if Index(after, start.closeMarker) < 0 then
                   (State(after[Kept(after, start.closeMarker)..], Some(start.closeMarker), false), prose)
                 else Drain(m, State(after[Index(after, start.closeMarker) + |start.closeMarker|..], None, false), prose)
  {
    hide Drain, FindStart, Prose, Index, PartialPrefixLen;
    var joined := s.(buffer := s.buffer + text);
    DrainStep(m, joined, "");
    FindStartWithin(m, joined.buffer);
    var start := FindStart(m, joined.buffer).value;
    var prose := Prose(joined.buffer, start.idx);
    assert "" + prose == prose;
    var next := Opened(joined, start);
    if next.buffer == "" {
      DrainNothing(m, next, prose);
      KeepsWhole(next.buffer, start.closeMarker);
      assert next.buffer[Kept(next.buffer, start.closeMarker)..] == next.buffer;
    } else {
      DrainStep(m, next, prose);
      KeptIs(next.buffer, start.closeMarker);
    }
  }

  // The earliest envelope of the text is one that ends at a close marker.
  predicate Opens(m: Markers, text: string)
    requires m.Valid()
  {
    FindStart(m, text).Some? && FindStart(m, text).value.hasClose
    && FindStart(m, text).value.closeMarker != SUPPRESS_PERMANENTLY
  }

  // What a run of feeds that began with an opening must come to, when `stream` is all the
  // text since: the prose ahead of the opening and no more, until the marker is complete.
  predicate ResumesAfter(m: Markers, close: string, prose: string, stream: string, fed: (State, string))
    requires m.Valid() && close != ""
  {
    var end := Index(stream, close);
    if end < 0 then Dropping(fed.0, close) && fed.1 == prose && fed.0.buffer == stream[Kept(stream, close)..]
    else
      var (t, more) := Drain(m, State(stream[end + |close|..], None, false), "");
      fed == (t, prose + more)
  }

  // From the feed that finds an envelope on, however the stream is cut after it: the prose
  // ahead of the envelope is all that is emitted until its close marker is complete, and
  // the filter then goes on exactly after the marker's first occurrence.
  lemma EnvelopeResumes(m: Markers, s: State, text: string, chunks: seq<string>)
    requires m.Valid() && s.Valid() && !s.suppressing && s.until.None? && text != ""
    requires Opens(m, s.buffer + text)
    ensures var joined := s.buffer + text;
            var start := FindStart(m, joined).value;
            && start.idx + start.consumeLen <= |joined| && start.closeMarker != ""
            && var close, after := start.closeMarker, joined[start.idx + start.consumeLen..];
            Incomplete(close, after, chunks) ==>
              ResumesAfter(m, close, Prose(joined, start.idx), after + Concat(chunks), FedAll(m, s, [text] + chunks))
  {
    hide Drain, FindStart, Prose, Index, Kept, Fed, FedAll, ResumesAfter, Incomplete, Concat;
    EnvelopeDrops(m, s, text);
    FedAllFirst(m, s, text, chunks);
    var joined := s.buffer + text;
    var start := FindStart(m, joined).value;
    var close, after := start.closeMarker, joined[start.idx + start.consumeLen..];
    if Incomplete(close, after, chunks) {
      if chunks == [] {
        NoChunksLeft(m, after, close, Prose(joined, start.idx), Fed(m, s, text));
      } else {
        IncompleteFirst(close, after, chunks);
        ChunksLeft(m, after, close, Prose(joined, start.idx), Fed(m, s, text).0, chunks);
      }
    }
  }

  lemma IncompleteFirst(close: string, after: string, chunks: seq<string>)
    requires Incomplete(close, after, chunks) && chunks != []
    ensures Index(after, close) < 0
  {
    hide Index;
    assert chunks[..0] == [] && after + "" == after;
  }

  lemma NoChunksLeft(m: Markers, after: string, close: string, prose: string, fed: (State, string))
    requires m.Valid() && close != "" && close != SUPPRESS_PERMANENTLY && fed.0.Valid()
    requires fed
          == if Index(after, close) < 0 then (State(after[Kept(after, close)..], Some(close), false), prose)
             else Drain(m, State(after[Index(after, close) + |close|..], None, false), prose)
    ensures var (t, more) := FedAll(m, fed.0, []);
            ResumesAfter(m, close, prose, after + Concat([]), (t, fed.1 + more))
  {
    hide Drain, Index, Kept;
    KeptStarts(after, close);
    assert after + "" == after && fed.1 + "" == fed.1 && prose + "" == prose;
    if Index(after, close) >= 0 {
      DrainPrepends(m, State(after[Index(after, close) + |close|..], None, false), prose, "");
    }
  }

  lemma ChunksLeft(m: Markers, after: string, close: string, prose: string, t: State, chunks: seq<string>)
    requires m.Valid() && close != "" && close != SUPPRESS_PERMANENTLY && Index(after, close) < 0
    requires t == State(after[Kept(after, close)..], Some(close), false)
    requires Incomplete(close, after, chunks)
    ensures var (u, more) := FedAll(m, t, chunks);
            ResumesAfter(m, close, prose, after + Concat(chunks), (u, prose + more))
  {
    hide Drain, Index, Kept, FedAll;
    KeptStarts(after, close);
    SuppressionResumes(m, t, close, after, chunks);
    assert prose + "" == prose;
  }

  // ---------------------------------------------------------------------------
  // Nothing is invented

  // What a drain has emitted and what it still holds come, in order, from what was there.
  lemma {:induction false} DrainIsSubseq(m: Markers, s: State, out: string, done: string)
    requires m.Valid() && s.Valid() && IsSubseq(out, done)
    ensures IsSubseq(Drain(m, s, out).1 + Drain(m, s, out).0.buffer, done + s.buffer)
    decreases |s.buffer|
  {
    hide Drain, Index, FindStart, PartialSuffixLen, PartialPrefixLen, Prose, IsSubseq;
    var text := s.buffer;
    if text == "" {
      DrainNothing(m, s, out);
      assert out + "" == out && done + "" == done;
    } else {
      DrainStep(m, s, out);
      if s.until == Some(SUPPRESS_PERMANENTLY) {
        EmptySubseq(text);
        SubseqJoin(out, done, "", text);
      } else if s.until.Some? {
        var end := Index(text, s.until.value);
        if end < 0 {
          TailIsSubseq(out, done, text, |text| - PartialPrefixLen(text, s.until.value));
        } else {
          var n := end + |s.until.value|;
          SliceSubseq(text, 0, 0, n);
          SubseqStep(out, done, "", text, n);
          assert out + "" == out;
          DrainIsSubseq(m, s.(buffer := text[n..], until := None), out, done + text[..n]);
        }
      } else {
        DrainProseIsSubseq(m, s, out, done);
      }
    }
  }

  lemma DrainProseIsSubseq(m: Markers, s: State, out: string, done: string)
    requires m.Valid() && s.Valid() && IsSubseq(out, done) && s.buffer != "" && s.until.None?
    ensures IsSubseq(Drain(m, s, out).1 + Drain(m, s, out).0.buffer, done + s.buffer)
    decreases |s.buffer|, 0
  {
    hide Drain, FindStart, PartialSuffixLen, Prose, IsSubseq;
    var text := s.buffer;
    DrainStep(m, s, out);
    if FindStart(m, text).Some? {
      var start := FindStart(m, text).value;
      var n := start.idx + start.consumeLen;
      EnvelopeIsSubseq(out, done, text, start.idx, n);
      DrainIsSubseq(m, Opened(s, start), out + Prose(text, start.idx), done + text[..n]);
    } else {
      var n := |text| - PartialSuffixLen(m, text);
      SubseqRefl(text);
      SubseqJoin(out, done, text, text);
      assert out + text[..n] + text[n..] == out + text;
    }
  }

  lemma TailIsSubseq(out: string, done: string, text: string, n: nat)
    requires IsSubseq(out, done) && n <= |text|
    ensures IsSubseq(out + text[n..], done + text)
  {
    hide IsSubseq;
    assert text[..|text|] == text && text[n..|text|] == text[n..];
    SliceSubseq(text, n, |text|, |text|);
    SubseqJoin(out, done, text[n..], text);
  }

  lemma EnvelopeIsSubseq(out: string, done: string, text: string, idx: nat, n: nat)
    requires IsSubseq(out, done) && idx <= n <= |text|
    ensures IsSubseq(out + Prose(text, idx), done + text[..n])
    ensures done + text[..n] + text[n..] == done + text
  {
    hide IsSubseq, Prose;
    ProseIsSubseq(text, idx);
    EmptySubseq(text[idx..n]);
    SubseqJoin(Prose(text, idx), text[..idx], "", text[idx..n]);
    assert Prose(text, idx) + "" == Prose(text, idx) && text[..idx] + text[idx..n] == text[..n];
    SubseqStep(out, done, Prose(text, idx), text, n);
  }

  lemma FedIsSubseq(m: Markers, s: State, text: string)
    requires m.Valid() && s.Valid()
    ensures IsSubseq(Fed(m, s, text).1 + Fed(m, s, text).0.buffer, s.buffer + text)
  {
    hide Drain, IsSubseq;
    if s.suppressing || text == "" {
      assert "" + s.buffer == s.buffer;
      SubseqRefl(s.buffer);
      EmptySubseq(text);
      SubseqJoin(s.buffer, s.buffer, "", text);
      assert s.buffer + "" == s.buffer;
    } else {
      EmptySubseq("");
      DrainIsSubseq(m, s.(buffer := s.buffer + text), "", "");
      assert "" + (s.buffer + text) == s.buffer + text;
    }
  }

  // Over a whole stream, what is emitted is the input with characters deleted: nothing is
  // invented, repeated or moved.
  lemma {:induction false} OutputIsSubseq(m: Markers, s: State, chunks: seq<string>)
    requires m.Valid() && s.Valid()
    ensures var (t, out) := FedAll(m, s, chunks);
            && IsSubseq(out + t.buffer, s.buffer + Concat(chunks))
            && IsSubseq(out + Finished(m, t).1, s.buffer + Concat(chunks))
    decreases |chunks|
  {
    hide Fed, IsSubseq, Finished;
    var (t, out) := FedAll(m, s, chunks);
    if chunks == [] {
      SubseqRefl(s.buffer);
      assert "" + s.buffer == s.buffer + "" == s.buffer;
    } else {
      var earlier, last := chunks[..|chunks| - 1], chunks[|chunks| - 1];
      OutputIsSubseq(m, s, earlier);
      var (u, before) := FedAll(m, s, earlier);
      FedIsSubseq(m, u, last);
      AppendFeed(before, u.buffer, s.buffer + Concat(earlier), last, Fed(m, u, last).1 + t.buffer);
      ConcatLast(earlier, last);
      assert chunks == earlier + [last];
      assert s.buffer + Concat(earlier) + last == s.buffer + Concat(chunks);
      assert before + (Fed(m, u, last).1 + t.buffer) == out + t.buffer;
    }
    FinishedIsSubseq(m, t);
    SubseqRefl(out);
    SubseqJoin(out, out, Finished(m, t).1, t.buffer);
    SubseqTransitive(out + Finished(m, t).1, out + t.buffer, s.buffer + Concat(chunks));
  }

  lemma AppendFeed(before: string, held: string, given: string, text: string, fed: string)
    requires IsSubseq(before + held, given) && IsSubseq(fed, held + text)
    ensures IsSubseq(before + fed, given + text)
  {
    hide IsSubseq;
    SubseqRefl(before);
    SubseqRefl(text);
    SubseqJoin(before, before, fed, held + text);
    SubseqJoin(before + held, given, text, text);
    assert before + (held + text) == before + held + text;
    SubseqTransitive(before + fed, before + held + text, given + text);
  }

  lemma FinishedIsSubseq(m: Markers, s: State)
    requires m.Valid()
    ensures IsSubseq(Finished(m, s).1, s.buffer)
  {
    hide PartialSuffixLen, ShouldDropTail, IsSubseq;
    EmptySubseq(s.buffer);
    SubseqRefl(s.buffer);
    var n := |s.buffer| - PartialSuffixLen(m, s.buffer);
    assert s.buffer[..|s.buffer|] == s.buffer;
    SliceSubseq(s.buffer, 0, n, |s.buffer|);
  }
}
