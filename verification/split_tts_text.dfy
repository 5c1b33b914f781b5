// The text chunker of audioutil/split_tts_text.go. A string is a sequence of code points,
// as the source's rune slices are.
module SplitTTSText {
  import opened Text

  predicate SentenceEnd(c: char) {
    c in ".!?\U{3002}\U{FF01}\U{FF1F}"
  }

  predicate ClauseEnd(c: char) {
    c in ",;:\U{FF0C}\U{FF1B}\U{FF1A}"
  }

  // ---------------------------------------------------------------------------
  // Splitting

  // The end of the white space, or of the newlines, that starts at i.
  function SpaceEnd(rs: string, i: nat): (j: nat)
    requires i <= |rs|
    ensures i <= j <= |rs| && AllSpace(rs[i..j]) && (j == |rs| || !IsSpace(rs[j]))
    ensures i < |rs| && IsSpace(rs[i]) ==> i < j
    decreases |rs| - i
  {
    if i < |rs| && IsSpace(rs[i]) then SpaceEnd(rs, i + 1) else i
  }

  predicate AllNewlines(s: string) {
    forall i :: 0 <= i < |s| ==> s[i] == '\n'
  }

  function NewlineEnd(rs: string, i: nat): (j: nat)
    requires i <= |rs|
    ensures i <= j <= |rs| && AllNewlines(rs[i..j]) && (j == |rs| || rs[j] != '\n')
    ensures i < |rs| && rs[i] == '\n' ==> i < j
    decreases |rs| - i
  {
    if i < |rs| && rs[i] == '\n' then NewlineEnd(rs, i + 1) else i
  }

  // White space after a sentence's end.
  predicate IsBreak(rs: string, i: nat) {
    0 < i < |rs| && SentenceEnd(rs[i - 1]) && IsSpace(rs[i])
  }

  // The segments of rs[start..] when no cut lies before i.
  function SentencesFrom(rs: string, start: nat, i: nat): (segs: seq<string>)
    requires start <= i <= |rs|
    decreases |rs| - i
  {
    if i == |rs| then [rs[start..]]
    else if IsBreak(rs, i) then
      var j := SpaceEnd(rs, i);
      [rs[start..i]] + SentencesFrom(rs, j, j)
    else if rs[i] == '\n' then
      var j := NewlineEnd(rs, i);
      [rs[start..i]] + SentencesFrom(rs, j, j)
    else SentencesFrom(rs, start, i + 1)
  }

  method SplitSentences(rs: string) returns (segs: seq<string>)
    ensures segs == SentencesFrom(rs, 0, 0)
  {
    hide IsBreak;
    segs := [];
    var start, i := 0, 0;
    while i < |rs|
      invariant 0 <= start <= i <= |rs|
      invariant segs + SentencesFrom(rs, start, i) == SentencesFrom(rs, 0, 0)
    {
      if IsBreak(rs, i) {
        IsBreakSpace(rs, i);
        var j := ScanSpace(rs, i);
        segs := segs + [rs[start..i]];
        start, i := j, j;
        continue;
      }
      if rs[i] == '\n' {
        var j := ScanNewlines(rs, i);
        segs := segs + [rs[start..i]];
        start, i := j, j;
        continue;
      }
      i := i + 1;
    }
    segs := segs + [rs[start..]];
  }

  lemma IsBreakSpace(rs: string, i: nat)
    requires IsBreak(rs, i)
    ensures i < |rs| && IsSpace(rs[i])
  {
  }

  method ScanSpace(rs: string, i: nat) returns (j: nat)
    requires i <= |rs|
    ensures j == SpaceEnd(rs, i)
  {
    j := i;
    while j < |rs| && IsSpace(rs[j])
      invariant i <= j <= |rs| && SpaceEnd(rs, j) == SpaceEnd(rs, i)
    {
      j := j + 1;
    }
  }

  method ScanNewlines(rs: string, i: nat) returns (j: nat)
    requires i <= |rs|
    ensures j == NewlineEnd(rs, i)
  {
    j := i;
    while j < |rs| && rs[j] == '\n'
      invariant i <= j <= |rs| && NewlineEnd(rs, j) == NewlineEnd(rs, i)
    {
      j := j + 1;
    }
  }

  function ClausesFrom(rs: string, start: nat, i: nat): (segs: seq<string>)
    requires start <= i <= |rs|
    decreases |rs| - i
  {
    if i == |rs| then [rs[start..]]
    else if ClauseEnd(rs[i]) then
      var j := SpaceEnd(rs, i + 1);
      [rs[start..i + 1]] + ClausesFrom(rs, j, j)
    else ClausesFrom(rs, start, i + 1)
  }

  method SplitClauses(rs: string) returns (segs: seq<string>)
    ensures segs == ClausesFrom(rs, 0, 0)
  {
    hide ClauseEnd, IsSpace, AllSpace, SpaceEnd;
    segs := [];
    var start, i := 0, 0;
    while i < |rs|
      invariant 0 <= start <= i <= |rs|
      invariant segs + ClausesFrom(rs, start, i) == ClausesFrom(rs, 0, 0)
    {
      if ClauseEnd(rs[i]) {
        var j := ScanSpace(rs, i + 1);
        segs := segs + [rs[start..i + 1]];
        start, i := j, j;
        continue;
      }
      i := i + 1;
    }
    segs := segs + [rs[start..]];
  }

  // No cut lies inside a sentence: no newline, and no white space after an end mark.
  predicate OneSentence(s: string) {
    '\n' !in s && forall k :: 0 <= k < |s| ==> !IsBreak(s, k)
  }

  // A clause's mark is its last character.
  predicate OneClause(s: string) {
    forall k :: 0 <= k < |s| - 1 ==> !ClauseEnd(s[k])
  }

  // Segments with the white space that was dropped between them.
  function Interleave(segs: seq<string>, gaps: seq<string>): string
    requires |segs| == |gaps| + 1
  {
    if gaps == [] then segs[0] else segs[0] + gaps[0] + Interleave(segs[1..], gaps[1..])
  }

  // A split of s at white space only, none of it left out otherwise.
  predicate IsSplit(s: string, segs: seq<string>, gaps: seq<string>) {
    |segs| == |gaps| + 1 && s == Interleave(segs, gaps) && forall k :: 0 <= k < |gaps| ==> AllSpace(gaps[k])
  }

  lemma SplitCons(head: string, gap: string, rest: string, segs: seq<string>, gaps: seq<string>)
    requires IsSplit(rest, segs, gaps) && AllSpace(gap)
    ensures IsSplit(head + gap + rest, [head] + segs, [gap] + gaps)
  {
    assert ([head] + segs)[1..] == segs && ([gap] + gaps)[1..] == gaps;
  }

  function SentenceGaps(rs: string, start: nat, i: nat): seq<string>
    requires start <= i <= |rs|
    decreases |rs| - i
  {
    if i == |rs| then []
    else if IsBreak(rs, i) then [rs[i..SpaceEnd(rs, i)]] + SentenceGaps(rs, SpaceEnd(rs, i), SpaceEnd(rs, i))
    else if rs[i] == '\n' then [rs[i..NewlineEnd(rs, i)]] + SentenceGaps(rs, NewlineEnd(rs, i), NewlineEnd(rs, i))
    else SentenceGaps(rs, start, i + 1)
  }

  lemma {:induction false} SentencesSplit(rs: string, start: nat, i: nat)
    requires start <= i <= |rs|
    ensures IsSplit(rs[start..], SentencesFrom(rs, start, i), SentenceGaps(rs, start, i))
    decreases |rs| - i
  {
    hide IsSplit, IsBreak, AllSpace, AllNewlines;
    if i == |rs| {
      SplitWhole(rs[start..]);
    } else if IsBreak(rs, i) || rs[i] == '\n' {
      var j := if IsBreak(rs, i) then SpaceEnd(rs, i) else NewlineEnd(rs, i);
      if IsBreak(rs, i) {
        IsBreakSpace(rs, i);
      } else {
        NewlinesAreSpace(rs[i..j]);
      }
      SentencesSplit(rs, j, j);
      SplitCons(rs[start..i], rs[i..j], rs[j..], SentencesFrom(rs, j, j), SentenceGaps(rs, j, j));
      assert rs[start..i] + rs[i..j] + rs[j..] == rs[start..];
    } else {
      SentencesSplit(rs, start, i + 1);
    }
  }

  lemma SplitWhole(s: string)
    ensures IsSplit(s, [s], [])
  {
  }

  lemma NewlinesAreSpace(s: string)
    requires AllNewlines(s)
    ensures AllSpace(s)
  {
  }

  // The sentences hold no cut.
  lemma {:induction false} SentencesHoldNoCut(rs: string, start: nat, i: nat)
    requires start <= i <= |rs|
    requires start == 0 || IsSpace(rs[start - 1])
    requires forall k :: start <= k < i ==> !IsBreak(rs, k) && rs[k] != '\n'
    ensures forall s :: s in SentencesFrom(rs, start, i) ==> OneSentence(s)
    decreases |rs| - i
  {
    hide OneSentence, IsBreak, SentenceEnd;
    if i == |rs| || IsBreak(rs, i) || rs[i] == '\n' {
      SliceIsOneSentence(rs, start, i);
      if i < |rs| {
        if IsBreak(rs, i) {
          IsBreakSpace(rs, i);
        }
        var j := if IsBreak(rs, i) then SpaceEnd(rs, i) else NewlineEnd(rs, i);
        assert rs[i..j][j - 1 - i] == rs[j - 1];
        SentencesHoldNoCut(rs, j, j);
      } else {
        assert rs[start..] == rs[start..i];
      }
    } else {
      SentencesHoldNoCut(rs, start, i + 1);
    }
  }

  lemma SliceIsOneSentence(rs: string, start: nat, i: nat)
    requires start <= i <= |rs|
    requires forall k :: start <= k < i ==> !IsBreak(rs, k) && rs[k] != '\n'
    ensures OneSentence(rs[start..i])
  {
    forall k | 0 <= k < i - start
      ensures !IsBreak(rs[start..i], k)
    {
      assert k > 0 ==> !IsBreak(rs, start + k);
    }
  }

  // What is cut out between two sentences: all of the white space that follows an end mark,
  // or all of the newlines in a row.
  predicate IsSentenceGap(before: string, gap: string, after: string) {
    && gap != ""
    && ((before != "" && SentenceEnd(before[|before| - 1]) && AllSpace(gap) && (after == "" || !IsSpace(after[0])))
        || (AllNewlines(gap) && (after == "" || after[0] != '\n')))
  }

  // What is cut out between two clauses: all of the white space that follows a clause mark.
  predicate IsClauseGap(before: string, gap: string, after: string) {
    before != "" && ClauseEnd(before[|before| - 1]) && AllSpace(gap) && (after == "" || !IsSpace(after[0]))
  }

  lemma {:induction false} FirstSentence(rs: string, start: nat, i: nat)
    requires start <= i <= |rs|
    ensures var segs := SentencesFrom(rs, start, i);
            segs != [] && segs[0] <= rs[start..]
    decreases |rs| - i
  {
    hide IsBreak;
    if i < |rs| && !IsBreak(rs, i) && rs[i] != '\n' {
      FirstSentence(rs, start, i + 1);
    }
  }

  // No other cut is made.
  lemma {:induction false} SentenceGapsAreCuts(rs: string, start: nat, i: nat)
    requires start <= i <= |rs| && (start == 0 || IsSpace(rs[start - 1]))
    ensures var segs, gaps := SentencesFrom(rs, start, i), SentenceGaps(rs, start, i);
            |segs| == |gaps| + 1 && forall k :: 0 <= k < |gaps| ==> IsSentenceGap(segs[k], gaps[k], segs[k + 1])
    decreases |rs| - i
  {
    hide IsSpace, SentenceEnd, AllSpace, AllNewlines, IsSentenceGap, IsBreak;
    if i < |rs| {
      if IsBreak(rs, i) || rs[i] == '\n' {
        var j := CutHere(rs, start, i);
        SentenceGapsAreCuts(rs, j, j);
        FirstSentence(rs, j, j);
        GapHere(rs, start, i, j, SentencesFrom(rs, j, j)[0]);
      } else {
        SentenceGapsAreCuts(rs, start, i + 1);
      }
    }
  }

  lemma CutHere(rs: string, start: nat, i: nat) returns (j: nat)
    requires start <= i < |rs| && (IsBreak(rs, i) || rs[i] == '\n')
    ensures i < j <= |rs| && IsSpace(rs[j - 1])
    ensures j == if IsBreak(rs, i) then SpaceEnd(rs, i) else NewlineEnd(rs, i)
    ensures SentencesFrom(rs, start, i) == [rs[start..i]] + SentencesFrom(rs, j, j)
    ensures SentenceGaps(rs, start, i) == [rs[i..j]] + SentenceGaps(rs, j, j)
  {
    j := if IsBreak(rs, i) then SpaceEnd(rs, i) else NewlineEnd(rs, i);
    assert rs[i..j][j - 1 - i] == rs[j - 1];
  }

  lemma GapHere(rs: string, start: nat, i: nat, j: nat, after: string)
    requires start <= i < j <= |rs| && (start == 0 || IsSpace(rs[start - 1])) && (IsBreak(rs, i) || rs[i] == '\n')
    requires j == if IsBreak(rs, i) then SpaceEnd(rs, i) else NewlineEnd(rs, i)
    requires after <= rs[j..]
    ensures IsSentenceGap(rs[start..i], rs[i..j], after)
  {
    hide IsSpace, SentenceEnd, AllSpace, AllNewlines;
    assert after != "" ==> after[0] == rs[j];
    if IsBreak(rs, i) {
      EndIsNoSpace(rs[i - 1]);
      assert start < i && rs[start..i][i - start - 1] == rs[i - 1];
    }
  }

  lemma EndIsNoSpace(c: char)
    ensures SentenceEnd(c) ==> !IsSpace(c)
  {
  }

  lemma {:induction false} FirstClause(rs: string, start: nat, i: nat)
    requires start <= i <= |rs|
    ensures var segs := ClausesFrom(rs, start, i);
            segs != [] && segs[0] <= rs[start..]
    decreases |rs| - i
  {
    hide ClauseEnd;
    if i < |rs| && !ClauseEnd(rs[i]) {
      FirstClause(rs, start, i + 1);
    }
  }

  lemma {:induction false} ClauseGapsAreCuts(rs: string, start: nat, i: nat)
    requires start <= i <= |rs|
    ensures var segs, gaps := ClausesFrom(rs, start, i), ClauseGaps(rs, start, i);
            |segs| == |gaps| + 1 && forall k :: 0 <= k < |gaps| ==> IsClauseGap(segs[k], gaps[k], segs[k + 1])
    decreases |rs| - i
  {
    hide IsSpace, ClauseEnd, AllSpace;
    if i < |rs| {
      if ClauseEnd(rs[i]) {
        var j := SpaceEnd(rs, i + 1);
        ClauseGapsAreCuts(rs, j, j);
        FirstClause(rs, j, j);
        var after := ClausesFrom(rs, j, j)[0];
        assert after != "" ==> after[0] == rs[j];
        assert rs[start..i + 1][i - start] == rs[i];
        assert IsClauseGap(rs[start..i + 1], rs[i + 1..j], after);
      } else {
        ClauseGapsAreCuts(rs, start, i + 1);
      }
    }
  }

  function ClauseGaps(rs: string, start: nat, i: nat): seq<string>
    requires start <= i <= |rs|
    decreases |rs| - i
  {
    if i == |rs| then []
    else if ClauseEnd(rs[i]) then
      var j := SpaceEnd(rs, i + 1);
      [rs[i + 1..j]] + ClauseGaps(rs, j, j)
    else ClauseGaps(rs, start, i + 1)
  }

  lemma {:induction false} ClausesSplit(rs: string, start: nat, i: nat)
    requires start <= i <= |rs| && forall k :: start <= k < i ==> !ClauseEnd(rs[k])
    ensures IsSplit(rs[start..], ClausesFrom(rs, start, i), ClauseGaps(rs, start, i))
    ensures forall s :: s in ClausesFrom(rs, start, i) ==> OneClause(s)
    decreases |rs| - i
  {
    hide IsSplit, ClauseEnd, AllSpace;
    if i == |rs| {
      SplitWhole(rs[start..]);
    } else if ClauseEnd(rs[i]) {
      var j := SpaceEnd(rs, i + 1);
      ClausesSplit(rs, j, j);
      SplitCons(rs[start..i + 1], rs[i + 1..j], rs[j..], ClausesFrom(rs, j, j), ClauseGaps(rs, j, j));
      assert rs[start..i + 1] + rs[i + 1..j] + rs[j..] == rs[start..];
    } else {
      ClausesSplit(rs, start, i + 1);
    }
  }

  // A split at white space keeps all ink.
  lemma {:induction false} SplitKeepsInk(s: string, segs: seq<string>, gaps: seq<string>)
    requires IsSplit(s, segs, gaps)
    ensures Ink(Concat(segs)) == Ink(s)
    decreases |gaps|
  {
    if gaps == [] {
      assert segs[1..] == [] && segs[0] + "" == segs[0];
    } else {
      var rest := Interleave(segs[1..], gaps[1..]);
      SplitKeepsInk(rest, segs[1..], gaps[1..]);
      InkJoin(segs[0], Concat(segs[1..]));
      GapHasNoInk(segs[0], gaps[0], rest);
    }
  }

  lemma GapHasNoInk(a: string, gap: string, b: string)
    requires AllSpace(gap)
    ensures Ink(a + gap + b) == Ink(a) + Ink(b)
  {
    NoInkIff(gap);
    InkJoin(a, gap);
    InkJoin(a + gap, b);
    assert Ink(a) + "" == Ink(a);
  }

  // Not empty, and ink at both ends.
  predicate Trimmed(s: string) {
    s != "" && !IsSpace(s[0]) && !IsSpace(s[|s| - 1])
  }

  lemma TrimmedStays(s: string)
    requires Trimmed(s)
    ensures TrimSpace(s) == s && Ink(s) != ""
  {
    TrimSpaceInk(s);
  }

  function KeepNonEmpty(pieces: seq<string>): (kept: seq<string>)
    decreases |pieces|
  {
    if pieces == [] then []
    else
      var t := TrimSpace(pieces[|pieces| - 1]);
      KeepNonEmpty(pieces[..|pieces| - 1]) + (if t != "" then [t] else [])
  }

  method ComputeKeepNonEmpty(pieces: seq<string>) returns (kept: seq<string>)
    ensures kept == KeepNonEmpty(pieces)
  {
    hide TrimSpace;
    kept := [];
    for i := 0 to |pieces|
      invariant kept == KeepNonEmpty(pieces[..i])
    {
      assert pieces[..i + 1][..i] == pieces[..i];
      if pieces[i] == "" {
        TrimSpaceInk("");
        continue;
      }
      var s := TrimSpace(pieces[i]);
      if s != "" {
        kept := kept + [s];
      }
    }
    assert pieces[..|pieces|] == pieces;
  }

  lemma ConcatOne(s: string)
    ensures Concat([s]) == s
  {
    assert [s][1..] == [] && s + "" == s;
  }

  lemma InkSnoc(parts: seq<string>, s: string)
    ensures Ink(Concat(parts + [s])) == Ink(Concat(parts)) + Ink(s)
  {
    ConcatLast(parts, s);
    InkJoin(Concat(parts), s);
  }

  lemma {:induction false} KeepKeepsInk(pieces: seq<string>)
    ensures Ink(Concat(KeepNonEmpty(pieces))) == Ink(Concat(pieces))
    ensures forall s :: s in KeepNonEmpty(pieces) ==> Trimmed(s)
    decreases |pieces|
  {
    hide Ink, TrimSpace, Concat;
    if pieces != [] {
      var init, last := pieces[..|pieces| - 1], pieces[|pieces| - 1];
      KeepKeepsInk(init);
      assert pieces == init + [last];
      InkSnoc(init, last);
      TrimSpaceInk(last);
      InkSnoc(KeepNonEmpty(init), TrimSpace(last));
      assert Ink(Concat(init)) + "" == Ink(Concat(init));
      assert KeepNonEmpty(init) + [] == KeepNonEmpty(init);
    }
  }

  // ---------------------------------------------------------------------------
  // Packing

  // Finished chunks and the one being filled.
  datatype Packer = Packer(chunks: seq<string>, buffer: string)

  function Flush(p: Packer): Packer {
    if p.buffer != "" then Packer(p.chunks + [TrimSpace(p.buffer)], "") else p
  }

  // A part that fits the budget.
  function Add(p: Packer, part: string, maxChars: nat): Packer {
    var candidate := if p.buffer != "" then TrimSpace(p.buffer + " " + part) else part;
    if p.buffer != "" && |candidate| > maxChars then Packer(Flush(p).chunks, part)
    else Packer(p.chunks, candidate)
  }

  // Hard cuts of a part until the rest fits.
  function Cut(p: Packer, part: string, maxChars: nat): (Packer, string)
    requires maxChars >= 1
    decreases |part|
  {
    if |part| <= maxChars then (p, part)
    else
      TrimSpaceInk(part[maxChars..]);
      Cut(Packer(Flush(p).chunks + [TrimSpace(part[..maxChars])], ""), TrimSpace(part[maxChars..]), maxChars)
  }

  function AddPart(p: Packer, part: string, maxChars: nat): Packer
    requires maxChars >= 1
  {
    var (q, rest) := Cut(p, part, maxChars);
    if rest == "" then q else Add(q, rest, maxChars)
  }

  function AddParts(p: Packer, parts: seq<string>, maxChars: nat): Packer
    requires maxChars >= 1
    decreases |parts|
  {
    if parts == [] then p
    else AddPart(AddParts(p, parts[..|parts| - 1], maxChars), parts[|parts| - 1], maxChars)
  }

  function OrWhole(parts: seq<string>, whole: string): seq<string> {
    if parts == [] then [whole] else parts
  }

  function AddSentence(p: Packer, s: string, maxChars: nat): Packer
    requires maxChars >= 1
  {
    if |s| > maxChars then
      Flush(AddParts(Flush(p), OrWhole(KeepNonEmpty(ClausesFrom(s, 0, 0)), s), maxChars))
    else Add(p, s, maxChars)
  }

  function AddSentences(p: Packer, sentences: seq<string>, maxChars: nat): Packer
    requires maxChars >= 1
    decreases |sentences|
  {
    if sentences == [] then p
    else AddSentence(AddSentences(p, sentences[..|sentences| - 1], maxChars), sentences[|sentences| - 1], maxChars)
  }

  function Sentences(text: string): seq<string> {
    OrWhole(KeepNonEmpty(SentencesFrom(text, 0, 0)), text)
  }

  function Chunks(text: string, maxChars: nat): seq<string>
    requires maxChars >= 1
  {
    var t := TrimSpace(text);
    if t == "" then []
    else OrWhole(Flush(AddSentences(Packer([], ""), Sentences(t), maxChars)).chunks, t)
  }

  method SplitTTSText(text: string, maxChars: nat) returns (chunks: seq<string>)
    requires maxChars >= 1
    ensures chunks == Chunks(text, maxChars)
  {
    hide AddSentence, TrimSpace, KeepNonEmpty, SentencesFrom;
    var trimmed := TrimSpace(text);
    if trimmed == "" {
      return [];
    }
    var segs := SplitSentences(trimmed);
    var sentences := ComputeKeepNonEmpty(segs);
    if |sentences| == 0 {
      sentences := [trimmed];
    }
    var p := Packer([], "");
    for i := 0 to |sentences|
      invariant p == AddSentences(Packer([], ""), sentences[..i], maxChars)
    {
      assert sentences[..i + 1][..i] == sentences[..i];
      p := PackSentence(p, sentences[i], maxChars);
    }
    assert sentences[..|sentences|] == sentences;
    p := Flush(p);
    chunks := p.chunks;
    if |chunks| == 0 {
      return [trimmed];
    }
  }

  // The body of the loop over sentences.
  method PackSentence(p: Packer, sentence: string, maxChars: nat) returns (q: Packer)
    requires maxChars >= 1
    ensures q == AddSentence(p, sentence, maxChars)
  {
    hide AddPart, TrimSpace, KeepNonEmpty, ClausesFrom, Add, Flush;
    if |sentence| > maxChars {
      q := Flush(p);
      var segs := SplitClauses(sentence);
      var parts := ComputeKeepNonEmpty(segs);
      if |parts| == 0 {
        parts := [sentence];
      }
      ghost var start := q;
      for i := 0 to |parts|
        invariant q == AddParts(start, parts[..i], maxChars)
      {
        assert parts[..i + 1][..i] == parts[..i];
        q := PackPart(q, parts[i], maxChars);
      }
      assert parts[..|parts|] == parts;
      return Flush(q);
    }
    return Add(p, sentence, maxChars);
  }

  method PackPart(p: Packer, part: string, maxChars: nat) returns (q: Packer)
    requires maxChars >= 1
    ensures q == AddPart(p, part, maxChars)
  {
    hide TrimSpace, Flush, Add;
    q := p;
    var pr := part;
    while |pr| > maxChars
      invariant Cut(q, pr, maxChars) == Cut(p, part, maxChars)
      decreases |pr|
    {
      TrimSpaceInk(pr[maxChars..]);
      q := Packer(Flush(q).chunks + [TrimSpace(pr[..maxChars])], "");
      pr := TrimSpace(pr[maxChars..]);
    }
    if pr == "" {
      return q;
    }
    return Add(q, pr, maxChars);
  }

  // ---------------------------------------------------------------------------
  // What packing keeps

  predicate Fits(s: string, maxChars: nat) {
    Trimmed(s) && |s| <= maxChars
  }

  // Every chunk is within the budget and trimmed, and all ink so far is there.
  predicate PackOk(p: Packer, maxChars: nat, ink: string) {
    && (forall c :: c in p.chunks ==> Fits(c, maxChars))
    && (p.buffer == "" || Fits(p.buffer, maxChars))
    && Ink(Concat(p.chunks)) + Ink(p.buffer) == ink
  }

  lemma FlushKeeps(p: Packer, maxChars: nat, ink: string)
    requires PackOk(p, maxChars, ink)
    ensures PackOk(Flush(p), maxChars, ink) && Flush(p).buffer == ""
  {
    hide Ink, TrimSpace, Concat;
    if p.buffer != "" {
      TrimmedStays(p.buffer);
      InkSnoc(p.chunks, p.buffer);
      TrimSpaceInk("");
      NoInkIff("");
      assert ink + "" == ink;
    }
  }

  lemma SpacedJoin(a: string, b: string)
    requires Trimmed(a) && Trimmed(b)
    ensures Trimmed(a + " " + b) && TrimSpace(a + " " + b) == a + " " + b
    ensures Ink(a + " " + b) == Ink(a) + Ink(b)
  {
    TrimmedStays(a + " " + b);
    GapHasNoInk(a, " ", b);
  }

  lemma AddKeeps(p: Packer, part: string, maxChars: nat, ink: string)
    requires PackOk(p, maxChars, ink) && Fits(part, maxChars)
    ensures PackOk(Add(p, part, maxChars), maxChars, ink + Ink(part))
  {
    hide Ink, TrimSpace, Concat;
    FlushKeeps(p, maxChars, ink);
    NoInkIff("");
    assert Ink(Concat(p.chunks)) + "" == Ink(Concat(p.chunks));
    assert Ink(Concat(Flush(p).chunks)) + "" == Ink(Concat(Flush(p).chunks));
    if p.buffer != "" {
      SpacedJoin(p.buffer, part);
      assert Ink(Concat(p.chunks)) + Ink(p.buffer) + Ink(part) == Ink(Concat(p.chunks)) + (Ink(p.buffer) + Ink(part));
    }
  }

  lemma InkyTrims(s: string, k: nat)
    requires k < |s| && !IsSpace(s[k])
    ensures Trimmed(TrimSpace(s)) && |TrimSpace(s)| <= |s| && Ink(TrimSpace(s)) == Ink(s)
  {
    hide TrimSpace, Ink;
    TrimSpaceInk(s);
    NoInkIff(s);
  }

  lemma InkSplit(s: string, n: nat)
    requires n <= |s|
    ensures Ink(s[..n]) + Ink(s[n..]) == Ink(s)
  {
    hide Ink;
    InkJoin(s[..n], s[n..]);
    assert s[..n] + s[n..] == s;
  }

  // One hard cut of a trimmed part.
  lemma CutOnce(part: string, maxChars: nat)
    requires Trimmed(part) && 1 <= maxChars < |part|
    ensures Fits(TrimSpace(part[..maxChars]), maxChars)
    ensures Trimmed(TrimSpace(part[maxChars..]))
    ensures Ink(TrimSpace(part[..maxChars])) + Ink(TrimSpace(part[maxChars..])) == Ink(part)
  {
    hide TrimSpace, Ink, IsSpace;
    InkyTrims(part[..maxChars], 0);
    InkyTrims(part[maxChars..], |part| - maxChars - 1);
    InkSplit(part, maxChars);
  }

  lemma {:induction false} CutKeeps(p: Packer, part: string, maxChars: nat, ink: string)
    requires maxChars >= 1 && PackOk(p, maxChars, ink) && Trimmed(part)
    ensures var (q, rest) := Cut(p, part, maxChars);
            Fits(rest, maxChars) && exists k: string :: PackOk(q, maxChars, k) && k + Ink(rest) == ink + Ink(part)
    decreases |part|
  {
    hide Ink, TrimSpace, Concat, Flush;
    if |part| > maxChars {
      var head, rest := TrimSpace(part[..maxChars]), TrimSpace(part[maxChars..]);
      CutOnce(part, maxChars);
      TrimSpaceInk(part[maxChars..]);
      FlushKeeps(p, maxChars, ink);
      ChunkKeeps(Flush(p), head, maxChars, ink);
      CutKeeps(Packer(Flush(p).chunks + [head], ""), rest, maxChars, ink + Ink(head));
      assert ink + Ink(head) + Ink(rest) == ink + (Ink(head) + Ink(rest));
    }
  }

  lemma ChunkKeeps(p: Packer, chunk: string, maxChars: nat, ink: string)
    requires PackOk(p, maxChars, ink) && p.buffer == "" && Fits(chunk, maxChars)
    ensures PackOk(Packer(p.chunks + [chunk], ""), maxChars, ink + Ink(chunk))
  {
    hide Ink, Concat;
    NoInkIff("");
    InkSnoc(p.chunks, chunk);
    assert ink + "" == ink && ink + Ink(chunk) + "" == ink + Ink(chunk);
  }

  lemma AddPartKeeps(p: Packer, part: string, maxChars: nat, ink: string)
    requires maxChars >= 1 && PackOk(p, maxChars, ink) && Trimmed(part)
    ensures PackOk(AddPart(p, part, maxChars), maxChars, ink + Ink(part))
  {
    hide PackOk, Cut, Add, Ink;
    CutKeeps(p, part, maxChars, ink);
    var (q, rest) := Cut(p, part, maxChars);
    var k: string :| PackOk(q, maxChars, k) && k + Ink(rest) == ink + Ink(part);
    AddKeeps(q, rest, maxChars, k);
  }

  lemma {:induction false} AddPartsKeep(p: Packer, parts: seq<string>, maxChars: nat, ink: string)
    requires maxChars >= 1 && PackOk(p, maxChars, ink) && forall s :: s in parts ==> Trimmed(s)
    ensures PackOk(AddParts(p, parts, maxChars), maxChars, ink + Ink(Concat(parts)))
    decreases |parts|
  {
    hide PackOk, AddPart, Ink, Concat, Trimmed;
    if parts == [] {
      NoInkConcat();
      assert ink + "" == ink;
    } else {
      var init, last := parts[..|parts| - 1], parts[|parts| - 1];
      AddPartsKeep(p, init, maxChars, ink);
      AddPartKeeps(AddParts(p, init, maxChars), last, maxChars, ink + Ink(Concat(init)));
      InkSnoc(init, last);
      assert parts == init + [last];
      assert ink + Ink(Concat(init)) + Ink(last) == ink + (Ink(Concat(init)) + Ink(last));
    }
  }

  lemma NoInkConcat()
    ensures Ink(Concat([])) == ""
  {
  }

  lemma ClausesKeepInk(s: string)
    requires Trimmed(s)
    ensures var parts := OrWhole(KeepNonEmpty(ClausesFrom(s, 0, 0)), s);
            Ink(Concat(parts)) == Ink(s) && forall part :: part in parts ==> Trimmed(part)
  {
    hide Ink, Concat, KeepNonEmpty, IsSplit, ClausesFrom;
    assert s[0..] == s;
    ClausesSplit(s, 0, 0);
    SplitKeepsInk(s, ClausesFrom(s, 0, 0), ClauseGaps(s, 0, 0));
    KeepKeepsInk(ClausesFrom(s, 0, 0));
    ConcatOne(s);
  }

  lemma SentencesKeepInk(s: string)
    requires Trimmed(s)
    ensures Ink(Concat(Sentences(s))) == Ink(s)
    ensures forall part :: part in Sentences(s) ==> Trimmed(part)
  {
    hide Ink, Concat, KeepNonEmpty, IsSplit, SentencesFrom;
    assert s[0..] == s;
    SentencesSplit(s, 0, 0);
    SplitKeepsInk(s, SentencesFrom(s, 0, 0), SentenceGaps(s, 0, 0));
    KeepKeepsInk(SentencesFrom(s, 0, 0));
    ConcatOne(s);
  }

  lemma AddSentenceKeeps(p: Packer, s: string, maxChars: nat, ink: string)
    requires maxChars >= 1 && PackOk(p, maxChars, ink) && Trimmed(s)
    ensures PackOk(AddSentence(p, s, maxChars), maxChars, ink + Ink(s))
  {
    hide PackOk, AddParts, Ink, Concat, Add, Flush, OrWhole, KeepNonEmpty;
    if |s| > maxChars {
      var parts := OrWhole(KeepNonEmpty(ClausesFrom(s, 0, 0)), s);
      FlushKeeps(p, maxChars, ink);
      ClausesKeepInk(s);
      AddPartsKeep(Flush(p), parts, maxChars, ink);
      FlushKeeps(AddParts(Flush(p), parts, maxChars), maxChars, ink + Ink(s));
    } else {
      AddKeeps(p, s, maxChars, ink);
    }
  }

  lemma {:induction false} AddSentencesKeep(p: Packer, sentences: seq<string>, maxChars: nat, ink: string)
    requires maxChars >= 1 && PackOk(p, maxChars, ink) && forall s :: s in sentences ==> Trimmed(s)
    ensures PackOk(AddSentences(p, sentences, maxChars), maxChars, ink + Ink(Concat(sentences)))
    decreases |sentences|
  {
    hide PackOk, AddSentence, Ink, Concat, Trimmed;
    if sentences == [] {
      NoInkConcat();
      assert ink + "" == ink;
    } else {
      var init, last := sentences[..|sentences| - 1], sentences[|sentences| - 1];
      AddSentencesKeep(p, init, maxChars, ink);
      AddSentenceKeeps(AddSentences(p, init, maxChars), last, maxChars, ink + Ink(Concat(init)));
      InkSnoc(init, last);
      assert sentences == init + [last];
      assert ink + Ink(Concat(init)) + Ink(last) == ink + (Ink(Concat(init)) + Ink(last));
    }
  }

  // For every text and budget: each chunk has between 1 and maxChars characters and is
  // trimmed, and the characters of all chunks that are not white space are, in order,
  // exactly those of the text.
  lemma ChunksKeepTheText(text: string, maxChars: nat)
    requires maxChars >= 1
    ensures forall c :: c in Chunks(text, maxChars) ==> 1 <= |c| <= maxChars && Trimmed(c)
    ensures Ink(Concat(Chunks(text, maxChars))) == Ink(text)
    ensures Chunks(text, maxChars) == [] <==> AllSpace(text)
  {
    hide AddSentences, Flush, Ink, Concat, TrimSpace, Sentences;
    var t := TrimSpace(text);
    TrimSpaceInk(text);
    NoInkIff(text);
    NoInkConcat();
    if t != "" {
      SentencesKeepInk(t);
      NothingPacked(maxChars);
      AddSentencesKeep(Packer([], ""), Sentences(t), maxChars, "");
      var p := AddSentences(Packer([], ""), Sentences(t), maxChars);
      assert "" + Ink(t) == Ink(t);
      FlushKeeps(p, maxChars, Ink(t));
      NoInkIff("");
      assert Ink(Concat(Flush(p).chunks)) + "" == Ink(Concat(Flush(p).chunks));
    }
  }

  lemma NothingPacked(maxChars: nat)
    ensures PackOk(Packer([], ""), maxChars, "")
  {
    assert "" + "" == "";
  }

  // ---------------------------------------------------------------------------
  // Packing is greedy and whole

  // Chunks that are groups of whole parts joined by spaces, none over the budget, and none
  // that could have taken the first part of the next one.
  ghost predicate IsPacking(groups: seq<seq<string>>, parts: seq<string>, chunks: seq<string>, maxChars: nat) {
    && |groups| == |chunks| && Flatten(groups) == parts
    && (forall k :: 0 <= k < |groups| ==> groups[k] != [] && Join(groups[k], " ") == chunks[k] && |chunks[k]| <= maxChars)
    && forall k :: 0 < k < |groups| ==> |chunks[k - 1]| + 1 + |groups[k][0]| > maxChars
  }

  function Flatten(groups: seq<seq<string>>): seq<string>
    decreases |groups|
  {
    if groups == [] then [] else Flatten(groups[..|groups| - 1]) + groups[|groups| - 1]
  }

  // The groups that packing forms.
  function Groups(parts: seq<string>, maxChars: nat): (groups: seq<seq<string>>)
    ensures parts == [] <==> groups == []
    decreases |parts|
  {
    if parts == [] then []
    else
      var n := |parts| - 1;
      var groups := Groups(parts[..n], maxChars);
      var g := |groups| - 1;
      if groups != [] && |Join(groups[g], " ")| + 1 + |parts[n]| <= maxChars then groups[..g] + [groups[g] + [parts[n]]]
      else groups + [[parts[n]]]
  }

  lemma {:induction false} JoinSnoc(parts: seq<string>, s: string)
    requires parts != []
    ensures Join(parts + [s], " ") == Join(parts, " ") + " " + s
  {
    if |parts| == 1 {
      assert (parts + [s])[1..] == [s];
    } else {
      JoinSnoc(parts[1..], s);
      assert (parts + [s])[1..] == parts[1..] + [s];
      assert parts[0] + " " + (Join(parts[1..], " ") + " " + s) == parts[0] + " " + Join(parts[1..], " ") + " " + s;
    }
  }

  lemma AddFits(p: Packer, part: string, maxChars: nat)
    requires Fits(part, maxChars) && (p.buffer == "" || Trimmed(p.buffer))
    ensures Add(p, part, maxChars) ==
              if p.buffer != "" && |p.buffer| + 1 + |part| > maxChars then Packer(p.chunks + [p.buffer], part)
              else Packer(p.chunks, if p.buffer == "" then part else p.buffer + " " + part)
    ensures Trimmed(Add(p, part, maxChars).buffer)
  {
    hide TrimSpace;
    if p.buffer != "" {
      SpacedJoin(p.buffer, part);
      TrimmedStays(p.buffer);
    }
  }

  // A part that fits joins the last group.
  lemma GroupGrows(groups: seq<seq<string>>, parts: seq<string>, chunks: seq<string>, part: string, maxChars: nat)
    requires IsPacking(groups, parts, chunks, maxChars) && groups != []
    requires |chunks[|groups| - 1]| + 1 + |part| <= maxChars
    ensures var g := |groups| - 1;
            IsPacking(groups[..g] + [groups[g] + [part]], parts + [part], chunks[..g] + [chunks[g] + " " + part], maxChars)
  {
    hide Join;
    var g := |groups| - 1;
    JoinSnoc(groups[g], part);
    assert (groups[..g] + [groups[g] + [part]])[..g] == groups[..g];
    assert Flatten(groups[..g]) + (groups[g] + [part]) == Flatten(groups[..g]) + groups[g] + [part];
  }

  // Any other part starts a new one.
  lemma GroupStarts(groups: seq<seq<string>>, parts: seq<string>, chunks: seq<string>, part: string, maxChars: nat)
    requires IsPacking(groups, parts, chunks, maxChars) && groups != [] && |part| <= maxChars
    requires |chunks[|groups| - 1]| + 1 + |part| > maxChars
    ensures IsPacking(groups + [[part]], parts + [part], chunks + [part], maxChars)
  {
    hide Flatten;
    FlattenSnoc(groups, [part]);
    JoinOne(part);
    hide Join;
  }

  lemma FlattenSnoc(groups: seq<seq<string>>, group: seq<string>)
    ensures Flatten(groups + [group]) == Flatten(groups) + group
  {
    assert (groups + [group])[..|groups|] == groups;
  }

  lemma JoinOne(part: string)
    ensures Join([part], " ") == part
  {
  }

  lemma FirstGroup(part: string, maxChars: nat)
    requires |part| <= maxChars
    ensures IsPacking([[part]], [part], [part], maxChars)
  {
    assert [[part]][..0] == [];
  }

  // What packing has made of the parts so far.
  ghost predicate IsPacked(p: Packer, parts: seq<string>, maxChars: nat) {
    if parts == [] then p == Packer([], "")
    else Trimmed(p.buffer) && IsPacking(Groups(parts, maxChars), parts, p.chunks + [p.buffer], maxChars)
  }

  lemma PackFirst(part: string, maxChars: nat)
    requires Fits(part, maxChars)
    ensures IsPacked(Add(Packer([], ""), part, maxChars), [part], maxChars)
  {
    FirstGroup(part, maxChars);
    assert [part][..0] == [] && [] + [part] == [part];
    assert [] + [[part]] == [[part]];
  }

  lemma PackNext(p: Packer, parts: seq<string>, part: string, maxChars: nat)
    requires parts != [] && IsPacked(p, parts, maxChars) && Fits(part, maxChars)
    ensures IsPacked(Add(p, part, maxChars), parts + [part], maxChars)
  {
    hide IsPacking, Add, Join, Trimmed;
    var groups := Groups(parts, maxChars);
    TrimmedNotEmpty(p.buffer);
    AddFits(p, part, maxChars);
    LastChunk(groups, parts, p, maxChars);
    if |p.buffer| + 1 + |part| <= maxChars {
      GroupGrows(groups, parts, p.chunks + [p.buffer], part, maxChars);
    } else {
      GroupStarts(groups, parts, p.chunks + [p.buffer], part, maxChars);
    }
    assert (parts + [part])[..|parts|] == parts;
    assert (p.chunks + [p.buffer])[..|groups| - 1] == p.chunks;
  }

  lemma FittingPart(p: Packer, part: string, maxChars: nat)
    requires maxChars >= 1 && Fits(part, maxChars)
    ensures AddPart(p, part, maxChars) == Add(p, part, maxChars) == AddSentence(p, part, maxChars)
  {
  }

  // When every part fits the budget no part is cut, and each chunk takes as many whole
  // parts as it can.
  lemma {:induction false} PackingIsGreedy(parts: seq<string>, maxChars: nat)
    requires maxChars >= 1 && forall part :: part in parts ==> Fits(part, maxChars)
    ensures IsPacked(AddParts(Packer([], ""), parts, maxChars), parts, maxChars)
    decreases |parts|
  {
    hide Fits, IsPacked, Add, AddPart;
    if parts == [] {
      EmptyPacking(maxChars);
    } else {
      var init, part := parts[..|parts| - 1], parts[|parts| - 1];
      PackingIsGreedy(init, maxChars);
      assert parts == init + [part];
      FittingPart(AddParts(Packer([], ""), init, maxChars), part, maxChars);
      if init == [] {
        assert parts == [part];
        PackFirst(part, maxChars);
      } else {
        PackNext(AddParts(Packer([], ""), init, maxChars), init, part, maxChars);
      }
    }
  }

  lemma {:induction false} SamePacking(parts: seq<string>, maxChars: nat)
    requires maxChars >= 1 && forall part :: part in parts ==> Fits(part, maxChars)
    ensures AddParts(Packer([], ""), parts, maxChars) == AddSentences(Packer([], ""), parts, maxChars)
    decreases |parts|
  {
    hide Fits, Add, AddPart, AddSentence;
    if parts != [] {
      SamePacking(parts[..|parts| - 1], maxChars);
      FittingPart(AddParts(Packer([], ""), parts[..|parts| - 1], maxChars), parts[|parts| - 1], maxChars);
    }
  }

  lemma EmptyPacking(maxChars: nat)
    ensures IsPacked(Packer([], ""), [], maxChars)
  {
  }

  lemma TrimmedNotEmpty(s: string)
    requires Trimmed(s)
    ensures s != ""
  {
  }

  lemma LastChunk(groups: seq<seq<string>>, parts: seq<string>, p: Packer, maxChars: nat)
    requires IsPacking(groups, parts, p.chunks + [p.buffer], maxChars)
    ensures |groups| == |p.chunks| + 1 && Join(groups[|groups| - 1], " ") == p.buffer
  {
  }

  // A text all of whose sentences fit the budget: no sentence is cut, and each chunk takes
  // as many whole sentences as fit.
  lemma WholeSentences(text: string, maxChars: nat)
    requires maxChars >= 1 && TrimSpace(text) != ""
    requires forall s :: s in Sentences(TrimSpace(text)) ==> |s| <= maxChars
    ensures IsPacking(Groups(Sentences(TrimSpace(text)), maxChars), Sentences(TrimSpace(text)), Chunks(text, maxChars), maxChars)
  {
    hide IsPacking, Groups, TrimSpace, KeepNonEmpty, AddSentences, AddParts;
    var t := TrimSpace(text);
    TrimSpaceInk(text);
    SentencesKeepInk(t);
    PackingIsGreedy(Sentences(t), maxChars);
    SamePacking(Sentences(t), maxChars);
    var p := AddSentences(Packer([], ""), Sentences(t), maxChars);
    TrimmedStays(p.buffer);
  }

  // A sentence over the budget whose clauses fit: no clause is cut.
  lemma WholeClauses(s: string, maxChars: nat)
    requires Trimmed(s) && 1 <= maxChars < |s|
    requires forall c :: c in OrWhole(KeepNonEmpty(ClausesFrom(s, 0, 0)), s) ==> |c| <= maxChars
    ensures var clauses := OrWhole(KeepNonEmpty(ClausesFrom(s, 0, 0)), s);
            IsPacking(Groups(clauses, maxChars), clauses, AddSentence(Packer([], ""), s, maxChars).chunks, maxChars)
  {
    hide IsPacking, Groups, TrimSpace, KeepNonEmpty, AddParts;
    var clauses := OrWhole(KeepNonEmpty(ClausesFrom(s, 0, 0)), s);
    ClausesKeepInk(s);
    PackingIsGreedy(clauses, maxChars);
    var p := AddParts(Packer([], ""), clauses, maxChars);
    TrimmedStays(p.buffer);
  }

  // ---------------------------------------------------------------------------
  // Long sentences and long words

  function Behind(chunks: seq<string>, p: Packer): Packer {
    Packer(chunks + p.chunks, p.buffer)
  }

  lemma AddBehind(chunks: seq<string>, p: Packer, part: string, maxChars: nat)
    ensures Add(Behind(chunks, p), part, maxChars) == Behind(chunks, Add(p, part, maxChars))
  {
    hide TrimSpace;
    assert chunks + p.chunks + [TrimSpace(p.buffer)] == chunks + (p.chunks + [TrimSpace(p.buffer)]);
  }

  lemma {:induction false} CutBehind(chunks: seq<string>, p: Packer, part: string, maxChars: nat)
    requires maxChars >= 1
    ensures Cut(Behind(chunks, p), part, maxChars) == (Behind(chunks, Cut(p, part, maxChars).0), Cut(p, part, maxChars).1)
    decreases |part|
  {
    hide TrimSpace;
    if |part| > maxChars {
      var head := TrimSpace(part[..maxChars]);
      TrimSpaceInk(part[maxChars..]);
      CutBehind(chunks, Packer(Flush(p).chunks + [head], ""), TrimSpace(part[maxChars..]), maxChars);
      assert chunks + p.chunks + [TrimSpace(p.buffer)] == chunks + (p.chunks + [TrimSpace(p.buffer)]);
      assert Flush(Behind(chunks, p)).chunks + [head] == chunks + (Flush(p).chunks + [head]);
    }
  }

  lemma {:induction false} PartsBehind(chunks: seq<string>, p: Packer, parts: seq<string>, maxChars: nat)
    requires maxChars >= 1
    ensures AddParts(Behind(chunks, p), parts, maxChars) == Behind(chunks, AddParts(p, parts, maxChars))
    decreases |parts|
  {
    hide Add, Cut;
    if parts != [] {
      var n := |parts| - 1;
      PartsBehind(chunks, p, parts[..n], maxChars);
      var q := AddParts(p, parts[..n], maxChars);
      CutBehind(chunks, q, parts[n], maxChars);
      AddBehind(chunks, Cut(q, parts[n], maxChars).0, Cut(q, parts[n], maxChars).1, maxChars);
    }
  }

  // A sentence over the budget shares no chunk with others: what came before it is flushed,
  // and after it nothing is carried over.
  lemma LongSentenceStandsAlone(p: Packer, s: string, maxChars: nat)
    requires 1 <= maxChars < |s|
    ensures AddSentence(p, s, maxChars)
         == Packer(Flush(p).chunks + AddSentence(Packer([], ""), s, maxChars).chunks, "")
  {
    hide AddParts, TrimSpace, KeepNonEmpty, ClausesFrom;
    var parts := OrWhole(KeepNonEmpty(ClausesFrom(s, 0, 0)), s);
    var before := Flush(p).chunks;
    PartsBehind(before, Packer([], ""), parts, maxChars);
    assert before + [] == before;
    var q := AddParts(Packer([], ""), parts, maxChars);
    assert before + q.chunks + [TrimSpace(q.buffer)] == before + (q.chunks + [TrimSpace(q.buffer)]);
  }

  predicate AllInk(s: string) {
    forall i :: 0 <= i < |s| ==> !IsSpace(s[i])
  }

  // A part without white space is cut into pieces of exactly the budget, in order, and the
  // rest, which is not empty.
  lemma {:induction false} CutIsExact(chunks: seq<string>, part: string, maxChars: nat) returns (pieces: seq<string>)
    requires maxChars >= 1 && part != "" && AllInk(part)
    ensures Cut(Packer(chunks, ""), part, maxChars).0 == Packer(chunks + pieces, "")
    ensures var rest := Cut(Packer(chunks, ""), part, maxChars).1;
            Concat(pieces) + rest == part && 0 < |rest| <= maxChars
    ensures forall piece :: piece in pieces ==> |piece| == maxChars
    decreases |part|
  {
    if |part| <= maxChars {
      pieces := [];
      assert chunks + [] == chunks && "" + part == part;
    } else {
      hide IsSpace, AllInk, Cut;
      var head, tail := part[..maxChars], part[maxChars..];
      InkIsTrimmed(part, maxChars);
      CutTurn(chunks, part, maxChars);
      var more := CutIsExact(chunks + [head], tail, maxChars);
      pieces := [head] + more;
      assert chunks + [head] + more == chunks + pieces;
      assert pieces[1..] == more;
      Associative(head, Concat(more), Cut(Packer(chunks + [head], ""), tail, maxChars).1);
      assert head + tail == part;
    }
  }

  lemma CutTurn(chunks: seq<string>, part: string, maxChars: nat)
    requires 1 <= maxChars < |part|
    requires TrimSpace(part[..maxChars]) == part[..maxChars] && TrimSpace(part[maxChars..]) == part[maxChars..]
    ensures Cut(Packer(chunks, ""), part, maxChars) == Cut(Packer(chunks + [part[..maxChars]], ""), part[maxChars..], maxChars)
  {
    hide TrimSpace;
  }

  lemma InkIsTrimmed(part: string, n: nat)
    requires AllInk(part) && 0 < n < |part|
    ensures TrimSpace(part[..n]) == part[..n] && TrimSpace(part[n..]) == part[n..] && AllInk(part[n..])
  {
    hide IsSpace, TrimSpace;
    TrimmedStays(part[..n]);
    TrimmedStays(part[n..]);
  }
}
