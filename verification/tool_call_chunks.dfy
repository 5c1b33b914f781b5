module ToolCallChunks {
  // When the tool-call filter of api/tool_call_stream_filter.go does not depend on how its
  // stream is cut into chunks.

  import opened Text
  import opened ToolCallFilter
  import opened ToolCallHold
  import opened ToolCallProse
  import opened ToolCallStream
  import opened Wrappers

  // ---------------------------------------------------------------------------
  // Markers and streams for which it does not

  // Only the first character is a "<", and only the last a ">".
  predicate TagLike(o: string) {
    && |o| >= 2 && o[0] == '<' && o[|o| - 1] == '>'
    && forall j :: 0 < j < |o| ==> o[j] != '<' && (j < |o| - 1 ==> o[j] != '>')
  }

  predicate IsRegular(p: Pair) {
    TagLike(p.open) && |p.open| <= KEEP_CAP + 1 && p.close != "" && p.close != SUPPRESS_PERMANENTLY
  }

  // Every marker comes with a close marker and looks like a tag of at most KEEP_CAP + 1
  // characters; the built-in one does.
  predicate Regular(m: Markers) {
    m.suppressAfter == [] && forall i :: 0 <= i < |m.pairs| ==> IsRegular(m.pairs[i])
  }

  lemma RegularIsValid(m: Markers)
    requires Regular(m)
    ensures m.Valid()
  {
  }

  lemma BuiltinIsRegular(markerStart: string, markerEnd: string)
    requires IsRegular(Pair(markerStart, markerEnd)) || markerStart == ""
    ensures Regular(NewMarkers(markerStart, markerEnd))
  {
    assert IsRegular(Pair("<tool_call>", "</tool_call>"));
  }

  // Nowhere in the stream is there a whole bracket prefix, or more than KEEP_CAP characters
  // of an unfinished namespaced tag.
  ghost predicate Ordinary(stream: string) {
    && (forall p: string, k: int :: IsControl(p) ==> !Occurs(stream, p, k))
    && forall k :: 0 <= k <= |stream| ==> NamespacedTail(stream[..k]) <= KEEP_CAP
  }

  lemma OrdinaryPrefix(stream: string, n: nat)
    requires Ordinary(stream) && n <= |stream|
    ensures Ordinary(stream[..n])
  {
    hide NamespacedTail, IsControl;
    forall p: string, k: int | IsControl(p)
      ensures !Occurs(stream[..n], p, k)
    {
      if Occurs(stream[..n], p, k) {
        assert stream == "" + stream[..n] + stream[n..];
        OccursWider("", stream[..n], stream[n..], p, k);
      }
    }
    assert forall k :: 0 <= k <= n ==> stream[..n][..k] == stream[..k];
  }

  // An occurrence stays one between other texts.
  lemma OccursWider(a: string, b: string, c: string, p: string, k: int)
    requires Occurs(b, p, k)
    ensures Occurs(a + b + c, p, |a| + k)
  {
    var s := a + b + c;
    assert s[|a| + k..|a| + k + |p|] == b[k..k + |p|];
  }

  lemma OrdinarySuffix(stream: string, n: nat)
    requires Ordinary(stream) && n <= |stream|
    ensures Ordinary(stream[n..])
  {
    hide NamespacedTail, IsControl;
    forall p: string, k: int | IsControl(p)
      ensures !Occurs(stream[n..], p, k)
    {
      if k >= 0 {
        ShiftedOccurrence(stream, n, p, k);
      }
    }
    forall k | 0 <= k <= |stream[n..]|
      ensures NamespacedTail(stream[n..][..k]) <= KEEP_CAP
    {
      assert stream[n..][..k] == stream[..n + k][n..];
      TailOfSuffix(stream[..n + k], n);
    }
  }

  lemma TagShifts(s: string, d: nat, later: string, name: string, k: nat)
    requires d <= |s|
    ensures TagAt(s[d..] + later, name, k) <==> TagAt(s + later, name, d + k)
  {
    hide IsName, Occurs;
    assert (s + later)[d..] == s[d..] + later;
    ShiftedOccurrence(s + later, d, Tag(name), k);
  }

  // The partial tag of a suffix is the partial tag of the text, or none.
  lemma TailOfSuffix(s: string, d: nat)
    requires d <= |s|
    ensures NamespacedTail(s[d..]) == 0 || NamespacedTail(s[d..]) == NamespacedTail(s)
    ensures NamespacedTail(s) <= |s| - d ==> NamespacedTail(s[d..]) == NamespacedTail(s)
  {
    hide NamespacedTail, TagAt;
    var v := s[d..];
    if NamespacedTail(v) > 0 {
      var later, name := TagCompletes(v);
      TagShifts(s, d, later, name, |v| - NamespacedTail(v));
      TagStraddles(s, later, name, |s| - NamespacedTail(v));
    } else if 0 < NamespacedTail(s) <= |s| - d {
      var later, name := TagCompletes(s);
      var k := |s| - NamespacedTail(s);
      TagShifts(s, d, later, name, k - d);
      TagStraddles(v, later, name, k - d);
    }
  }

  lemma NoControl(s: string)
    requires Ordinary(s)
    ensures Index(s, CALLING_TOOL) == -1 && Index(s, TOOL_CALL) == -1
    ensures FirstBracket(s).None? && OpenBracket(s) == 0
  {
    assert IsControl(CALLING_TOOL) && IsControl(TOOL_CALL);
    hide Occurs, Index, LastIndex;
    assert LastIndex(s, CALLING_TOOL) == -1;
    assert LastIndex(s, TOOL_CALL) == -1;
    assert Index(s, CALLING_TOOL) == -1;
    assert Index(s, TOOL_CALL) == -1;
  }

  lemma ProseIsPlain(buffer: string, idx: nat)
    requires Ordinary(buffer) && idx <= |buffer|
    ensures Prose(buffer, idx) == buffer[..idx]
  {
    hide Ordinary, FirstBracket, Sanitized;
    OrdinaryPrefix(buffer, idx);
    NoControl(buffer[..idx]);
    SanitizedStep(buffer[..idx]);
  }

  // ---------------------------------------------------------------------------
  // Envelopes in such a stream

  lemma OrdinaryStarts(m: Markers, s: string)
    requires Regular(m) && Ordinary(s)
    ensures AllStarts(m, s) == PairStarts(s, m.pairs) + NamespacedStarts(s)
  {
    hide Index, PairStarts, NamespacedStarts, BracketStarts, Ordinary;
    NoControl(s);
    assert s[0..] == s;
    BracketStep(s, CALLING_TOOL, 0);
    BracketStep(s, TOOL_CALL, 0);
    assert AfterStarts(s, m.suppressAfter) == [];
    var x, y := PairStarts(s, m.pairs), NamespacedStarts(s);
    assert x + y + [] + [] + [] == x + y;
  }

  lemma TagIsTagLike(name: string)
    requires IsName(name)
    ensures TagLike(Tag(name))
  {
    NonEmptyName(name);
    hide IsName;
    var tag := Tag(name);
    assert forall j :: 1 <= j < 1 + |name| ==> tag[j] == name[j - 1];
    assert forall j :: 1 + |name| <= j < |tag| ==> tag[j] == NAMESPACE_END[j - 1 - |name|];
  }

  // An opening at the envelope found.
  ghost predicate OpensAt(s: string, start: Start) {
    exists o: string :: TagLike(o) && Occurs(s, o, start.idx) && |o| == start.consumeLen
  }

  lemma {:induction false} PairsOpen(s: string, pairs: seq<Pair>)
    requires forall i :: 0 <= i < |pairs| ==> IsRegular(pairs[i])
    ensures forall start :: start in PairStarts(s, pairs) ==>
              OpensAt(s, start) && start.hasClose && start.closeMarker != SUPPRESS_PERMANENTLY
  {
    hide Index, Occurs, TagLike;
    if pairs != [] {
      PairsOpen(s, pairs[1..]);
      assert IsRegular(pairs[0]);
      var i := Index(s, pairs[0].open);
      if i >= 0 {
        assert Occurs(s, pairs[0].open, i);
        assert OpensAt(s, Start(i, |pairs[0].open|, pairs[0].close, true));
      }
    }
  }

  lemma TagOpensAt(s: string)
    ensures forall start :: start in NamespacedStarts(s) ==>
              OpensAt(s, start) && start.hasClose && start.closeMarker != SUPPRESS_PERMANENTLY
  {
    hide FindNamespaced, IsName, TagLike, Occurs;
    var found := FindNamespaced(s);
    if found.Some? {
      FoundTag(s);
      var name := found.value.name;
      TagIsTagLike(name);
      var start := Start(found.value.idx, |Tag(name)|, "</" + name + NAMESPACE_END, true);
      assert OpensAt(s, start);
      assert start.closeMarker[0] == '<' != SUPPRESS_PERMANENTLY[0];
      assert NamespacedStarts(s) == [start];
    }
  }

  lemma FoundOpens(m: Markers, s: string)
    requires Regular(m) && Ordinary(s) && FindStart(m, s).Some?
    ensures var start := FindStart(m, s).value;
            OpensAt(s, start) && start.hasClose && start.closeMarker != SUPPRESS_PERMANENTLY
  {
    hide PairStarts, NamespacedStarts, BracketStarts, AfterStarts, OpensAt, Ordinary;
    OrdinaryStarts(m, s);
    PairsOpen(s, m.pairs);
    TagOpensAt(s);
  }

  lemma OccursMeet(s: string, a: string, i: nat, b: string, k: nat, j: nat)
    requires Occurs(s, a, i) && Occurs(s, b, k) && i <= j < i + |a| && k <= j < k + |b|
    ensures a[j - i] == b[j - k]
  {
    assert s[i..i + |a|][j - i] == s[j] == s[k..k + |b|][j - k];
  }

  // Of two openings neither starts inside the other, and at one place there is one.
  lemma TagLikeApart(s: string, a: string, i: nat, b: string, k: nat)
    requires TagLike(a) && TagLike(b) && Occurs(s, a, i) && Occurs(s, b, k)
    ensures k < i ==> k + |b| <= i
    ensures k == i ==> a == b
  {
    hide Occurs;
    if k < i < k + |b| {
      OccursMeet(s, a, i, b, k, i);
    }
    if k == i {
      if |a| < |b| {
        OccursMeet(s, a, i, b, k, i + |a| - 1);
      } else if |b| < |a| {
        OccursMeet(s, a, i, b, k, i + |b| - 1);
      } else {
        assert Occurs(s, a, i) && Occurs(s, b, i);
        SameOccurrence(s, a, b, i);
      }
    }
  }

  lemma SameOccurrence(s: string, a: string, b: string, i: nat)
    requires Occurs(s, a, i) && Occurs(s, b, i) && |a| == |b|
    ensures a == b
  {
  }

  // ---------------------------------------------------------------------------
  // More text after an envelope that was found

  // An opening that is not in b but in b + y comes after the envelope found in b.
  lemma OpensLater(b: string, y: string, start: Start, o: string, k: nat)
    requires OpensAt(b, start) && TagLike(o) && Occurs(b + y, o, k) && k + |o| > |b|
    ensures k > start.idx
  {
    hide Occurs;
    var a: string :| TagLike(a) && Occurs(b, a, start.idx) && |a| == start.consumeLen;
    OccursWider("", b, y, a, start.idx);
    assert "" + b + y == b + y;
    TagLikeApart(b + y, a, start.idx, o, k);
    OccursFits(b, a, start.idx);
  }

  lemma OccursFits(s: string, p: string, k: int)
    requires Occurs(s, p, k)
    ensures 0 <= k && k + |p| <= |s|
  {
  }

  lemma IndexStays(b: string, y: string, o: string)
    requires Index(b, o) >= 0
    ensures Index(b + y, o) == Index(b, o)
  {
    hide Index;
    var i := Index(b, o);
    OccursWider("", b, y, o, i);
    assert "" + b + y == b + y;
    IndexIsFirst(b + y, o, i);
    var k := Index(b + y, o);
    if k < i {
      OccursBefore(b, y, o, k);
      IndexIsFirst(b, o, k);
    }
  }

  lemma IndexComes(b: string, y: string, start: Start, o: string)
    requires OpensAt(b, start) && TagLike(o) && Index(b, o) < 0 && Index(b + y, o) >= 0
    ensures Index(b + y, o) > start.idx
  {
    hide Index, OpensAt, TagLike;
    var k := Index(b + y, o);
    if k + |o| <= |b| {
      OccursBefore(b, y, o, k);
      IndexIsFirst(b, o, k);
      assert false;
    }
    OpensLater(b, y, start, o, k);
  }

  // The candidates that start at i or before.
  function UpTo(starts: seq<Start>, i: nat): (r: seq<Start>) {
    if starts == [] then []
    else (if starts[0].idx <= i then [starts[0]] else []) + UpTo(starts[1..], i)
  }

  lemma {:induction false} UpToJoin(a: seq<Start>, b: seq<Start>, i: nat)
    ensures UpTo(a + b, i) == UpTo(a, i) + UpTo(b, i)
  {
    if a == [] {
      assert a + b == b;
    } else {
      assert (a + b)[1..] == a[1..] + b;
      UpToJoin(a[1..], b, i);
    }
  }

  lemma {:induction false} UpToKeeps(starts: seq<Start>, i: nat)
    ensures forall x :: x in UpTo(starts, i) <==> x in starts && x.idx <= i
  {
    if starts != [] {
      UpToKeeps(starts[1..], i);
    }
  }

  // The earliest candidate is the earliest of those up to it.
  lemma {:induction false} EarliestUpTo(starts: seq<Start>, i: nat)
    requires UpTo(starts, i) != []
    ensures starts != [] && Earliest(starts) == Earliest(UpTo(starts, i))
    decreases |starts|
  {
    hide Earliest;
    var init, last := starts[..|starts| - 1], starts[|starts| - 1];
    assert starts == init + [last];
    UpToJoin(init, [last], i);
    assert UpTo([last], i) == if last.idx <= i then [last] else [];
    UpToKeeps(init, i);
    if UpTo(init, i) == [] {
      OneUpTo(starts, last, i);
    } else {
      EarliestUpTo(init, i);
      var kept := UpTo(init, i);
      EarliestSnoc(init, last);
      EarliestSnoc(kept, last);
      assert Earliest(kept) in kept;
      assert kept + [] == kept;
    }
  }

  lemma EarliestOne(x: Start)
    ensures Earliest([x]) == x
  {
  }

  lemma EarliestSnoc(starts: seq<Start>, last: Start)
    requires starts != []
    ensures Earliest(starts + [last]) == if last.idx < Earliest(starts).idx then last else Earliest(starts)
  {
    assert (starts + [last])[..|starts|] == starts;
  }

  lemma OneUpTo(starts: seq<Start>, last: Start, i: nat)
    requires starts != [] && last == starts[|starts| - 1] && last.idx <= i
    requires UpTo(starts[..|starts| - 1], i) == []
    ensures Earliest(starts) == last == Earliest([last])
  {
    var init := starts[..|starts| - 1];
    UpToKeeps(init, i);
    if init != [] {
      assert starts == init + [last];
      EarliestSnoc(init, last);
      assert Earliest(init) in init;
    }
  }

  lemma {:induction false} PairsUpTo(b: string, y: string, pairs: seq<Pair>, start: Start)
    requires OpensAt(b, start) && forall j :: 0 <= j < |pairs| ==> IsRegular(pairs[j])
    ensures UpTo(PairStarts(b + y, pairs), start.idx) == UpTo(PairStarts(b, pairs), start.idx)
  {
    hide Index, OpensAt, TagLike, UpTo;
    if pairs != [] {
      assert IsRegular(pairs[0]);
      PairsUpTo(b, y, pairs[1..], start);
      var o := pairs[0].open;
      var before, after := FirstPair(b, pairs[0]), FirstPair(b + y, pairs[0]);
      UpToJoin(before, PairStarts(b, pairs[1..]), start.idx);
      UpToJoin(after, PairStarts(b + y, pairs[1..]), start.idx);
      if Index(b, o) >= 0 {
        IndexStays(b, y, o);
      } else if Index(b + y, o) >= 0 {
        IndexComes(b, y, start, o);
        NoneUpTo(after[0], start.idx);
      }
    }
  }

  function FirstPair(s: string, p: Pair): seq<Start> {
    var i := Index(s, p.open);
    if i >= 0 then [Start(i, |p.open|, p.close, true)] else []
  }

  lemma NoneUpTo(x: Start, i: nat)
    requires x.idx > i
    ensures UpTo([x], i) == UpTo([], i)
  {
  }

  lemma TagStays(b: string, y: string, start: Start)
    requires OpensAt(b, start)
    ensures UpTo(NamespacedStarts(b + y), start.idx) == UpTo(NamespacedStarts(b), start.idx)
  {
    hide FindNamespaced, OpensAt, TagLike, IsName, UpTo;
    var w := b + y;
    if FindNamespaced(w).Some? {
      FoundTag(w);
      var found := FindNamespaced(w).value;
      TagIsTagLike(found.name);
      if found.idx + |Tag(found.name)| <= |b| {
        OccursBefore(b, y, Tag(found.name), found.idx);
        TagIsFound(b, found.name, found.idx);
      }
    }
    if FindNamespaced(b).Some? {
      FoundTag(b);
      SameTag(b, y);
    } else if FindNamespaced(w).Some? {
      var found := FindNamespaced(w).value;
      OpensLater(b, y, start, Tag(found.name), found.idx);
      NoneUpTo(NamespacedStarts(w)[0], start.idx);
    }
  }

  lemma SameTag(b: string, y: string)
    requires FindNamespaced(b).Some?
    ensures FindNamespaced(b + y) == FindNamespaced(b)
  {
    hide FindNamespaced, TagLike, IsName, Occurs;
    FoundTag(b);
    var here, w := FindNamespaced(b).value, b + y;
    var tag := Tag(here.name);
    OccursWider("", b, y, tag, here.idx);
    assert "" + b + y == w;
    TagIsFound(w, here.name, here.idx);
    FoundTag(w);
    var there := FindNamespaced(w).value;
    TagIsTagLike(here.name);
    TagIsTagLike(there.name);
    TagLikeApart(w, tag, here.idx, Tag(there.name), there.idx);
    OccursFits(b, tag, here.idx);
    if there.idx < here.idx {
      OccursBefore(b, y, Tag(there.name), there.idx);
      TagIsFound(b, there.name, there.idx);
    }
    TagNames(here.name, there.name);
  }

  lemma TagNames(a: string, b: string)
    ensures Tag(a) == Tag(b) ==> a == b
  {
    assert |Tag(a)| == |a| + 1 + |NAMESPACE_END| && |Tag(b)| == |b| + 1 + |NAMESPACE_END|;
    assert Tag(a)[1..1 + |a|] == a && Tag(b)[1..1 + |b|] == b;
  }

  // So the envelope found stays the one found.
  lemma FoundStays(m: Markers, b: string, y: string)
    requires Regular(m) && Ordinary(b + y) && FindStart(m, b).Some?
    ensures FindStart(m, b + y) == FindStart(m, b)
  {
    hide PairStarts, NamespacedStarts, BracketStarts, AfterStarts, OpensAt, Ordinary, Earliest, UpTo;
    var w := b + y;
    assert w[..|b|] == b;
    OrdinaryPrefix(w, |b|);
    OrdinaryStarts(m, b);
    OrdinaryStarts(m, w);
    FoundOpens(m, b);
    var start := FindStart(m, b).value;
    PairsUpTo(b, y, m.pairs, start);
    TagStays(b, y, start);
    UpToJoin(PairStarts(b, m.pairs), NamespacedStarts(b), start.idx);
    UpToJoin(PairStarts(w, m.pairs), NamespacedStarts(w), start.idx);
    UpToKeeps(AllStarts(m, b), start.idx);
    assert start in UpTo(AllStarts(m, b), start.idx);
    EarliestUpTo(AllStarts(m, b), start.idx);
    EarliestUpTo(AllStarts(m, w), start.idx);
  }

  // ---------------------------------------------------------------------------
  // More text after a tail that was held back

  function Shift(starts: seq<Start>, d: nat): (r: seq<Start>)
    ensures |r| == |starts|
  {
    seq(|starts|, i requires 0 <= i < |starts| => starts[i].(idx := starts[i].idx + d))
  }

  lemma {:induction false} EarliestShift(starts: seq<Start>, d: nat)
    requires starts != []
    ensures Earliest(Shift(starts, d)) == Earliest(starts).(idx := Earliest(starts).idx + d)
    decreases |starts|
  {
    hide Earliest;
    var init, last := starts[..|starts| - 1], starts[|starts| - 1];
    var moved := last.(idx := last.idx + d);
    assert starts == init + [last];
    assert Shift(starts, d) == Shift(init, d) + [moved];
    if init == [] {
      assert starts == [last] && Shift(starts, d) == [moved];
      EarliestOne(last);
      EarliestOne(moved);
    } else {
      EarliestShift(init, d);
      EarliestSnoc(init, last);
      EarliestSnoc(Shift(init, d), moved);
    }
  }

  // No opening starts in the first d characters.
  ghost predicate NoneBefore(m: Markers, w: string, d: nat) {
    && (forall i: nat, k: int :: i < |m.pairs| && Occurs(w, m.pairs[i].open, k) ==> d <= k)
    && forall name: string, k: nat :: TagAt(w, name, k) ==> d <= k
  }

  lemma {:induction false} PairsShift(w: string, d: nat, pairs: seq<Pair>)
    requires d <= |w|
    requires forall i: nat, k: int :: i < |pairs| && Occurs(w, pairs[i].open, k) ==> d <= k
    ensures PairStarts(w, pairs) == Shift(PairStarts(w[d..], pairs), d)
  {
    hide Index, Occurs, FirstPair;
    if pairs != [] {
      forall i: nat, k: int | i < |pairs[1..]| && Occurs(w, pairs[1..][i].open, k)
        ensures d <= k
      {
        assert pairs[1..][i] == pairs[i + 1];
      }
      PairsShift(w, d, pairs[1..]);
      FirstPairShifts(w, d, pairs[0]);
      ShiftJoin(FirstPair(w[d..], pairs[0]), PairStarts(w[d..], pairs[1..]), d);
      FirstPairFirst(w, pairs);
      FirstPairFirst(w[d..], pairs);
    }
  }

  lemma FirstPairFirst(s: string, pairs: seq<Pair>)
    requires pairs != []
    ensures PairStarts(s, pairs) == FirstPair(s, pairs[0]) + PairStarts(s, pairs[1..])
  {
    hide Index;
  }

  lemma FirstPairShifts(w: string, d: nat, p: Pair)
    requires d <= |w| && forall k: int :: Occurs(w, p.open, k) ==> d <= k
    ensures FirstPair(w, p) == Shift(FirstPair(w[d..], p), d)
  {
    hide Index, Occurs;
    DropFindsMarker(w, d, p.open);
  }

  lemma ShiftJoin(a: seq<Start>, b: seq<Start>, d: nat)
    ensures Shift(a + b, d) == Shift(a, d) + Shift(b, d)
  {
  }

  lemma TagShift(m: Markers, w: string, d: nat)
    requires d <= |w| && NoneBefore(m, w, d)
    ensures NamespacedStarts(w) == Shift(NamespacedStarts(w[d..]), d)
  {
    hide FindNamespaced, IsName, TagLike, Occurs;
    var v := w[d..];
    if FindNamespaced(w).Some? {
      FoundTag(w);
      var found := FindNamespaced(w).value;
      ShiftedOccurrence(w, d, Tag(found.name), found.idx - d);
      TagIsFound(v, found.name, found.idx - d);
    }
    if FindNamespaced(v).Some? {
      FoundTag(v);
      var found := FindNamespaced(v).value;
      ShiftedOccurrence(w, d, Tag(found.name), found.idx);
      TagIsFound(w, found.name, d + found.idx);
      var other := FindNamespaced(w).value;
      assert other.idx == d + found.idx;
      TagIsTagLike(found.name);
      TagIsTagLike(other.name);
      TagLikeApart(w, Tag(found.name), other.idx, Tag(other.name), other.idx);
      TagNames(found.name, other.name);
    }
  }

  // Where the envelope is, seen from d on.
  function Moved(start: Option<Start>, d: nat): Option<Start> {
    if start.None? then None else Some(start.value.(idx := start.value.idx + d))
  }

  lemma FindShifts(m: Markers, w: string, d: nat)
    requires Regular(m) && Ordinary(w) && d <= |w| && NoneBefore(m, w, d)
    ensures FindStart(m, w) == Moved(FindStart(m, w[d..]), d)
  {
    hide PairStarts, NamespacedStarts, BracketStarts, AfterStarts, Ordinary, Earliest;
    OrdinarySuffix(w, d);
    OrdinaryStarts(m, w);
    OrdinaryStarts(m, w[d..]);
    PairsShift(w, d, m.pairs);
    TagShift(m, w, d);
    var a, b := PairStarts(w[d..], m.pairs), NamespacedStarts(w[d..]);
    ShiftJoin(a, b, d);
    if a + b != [] {
      EarliestShift(a + b, d);
    }
  }

  // What is emitted of b holds the start of no opening, however b goes on.
  lemma HeldFromStart(m: Markers, b: string, y: string)
    requires Regular(m) && m.Valid() && Ordinary(b) && FindStart(m, b).None?
    ensures NoneBefore(m, b + y, |b| - PartialSuffixLen(m, b))
  {
    hide FindStart, PartialSuffixLen, NamespacedTail, Occurs, IsName;
    var d := |b| - PartialSuffixLen(m, b);
    forall i: nat, k: int | i < |m.pairs| && Occurs(b + y, m.pairs[i].open, k)
      ensures d <= k
    {
      OccursFits(b + y, m.pairs[i].open, k);
      assert m.Opens()[i] == m.pairs[i].open;
      assert IsRegular(m.pairs[i]);
      if k < |b| {
        NoMarkerSlips(m, b, y, i, k);
      }
    }
    forall name: string, k: nat | TagAt(b + y, name, k)
      ensures d <= k
    {
      if k < |b| {
        TagHeldIff(m, b, y, name, k);
        TagWithin(m, b, y, name, k);
      }
    }
  }

  lemma TagWithin(m: Markers, b: string, y: string, name: string, k: nat)
    requires m.Valid() && Ordinary(b) && FindStart(m, b).None? && TagAt(b + y, name, k) && k < |b|
    ensures |b| - k <= KEEP_CAP
  {
    hide FindStart, NamespacedTail, IsName, Occurs;
    NoTagComplete(m, b, name, k);
    if k + |Tag(name)| <= |b| {
      OccursBefore(b, y, Tag(name), k);
      assert false;
    }
    TagStraddles(b, y, name, k);
    assert b[..|b|] == b;
  }

  lemma PartialOfSuffix(before: string, text: string, marker: string, d: nat)
    requires marker != "" && d <= |before| && PartialPrefixLen(before, marker) <= |before| - d
    ensures PartialPrefixLen((before + text)[d..], marker) == PartialPrefixLen(before + text, marker)
  {
    hide PartialPrefixLen, EndsWithPrefix;
    var stream := before + text;
    var n, k := PartialPrefixLen(stream, marker), PartialPrefixLen(stream[d..], marker);
    KeptIs(before, marker);
    LatePartial(before, text, marker, n);
    SuffixPartial(stream, d, marker, n);
    PartialPrefixIsLongest(stream[d..], marker, n);
    SuffixPartial(stream, d, marker, k);
    PartialPrefixIsLongest(stream, marker, k);
  }

  lemma {:induction false} MaxOfSuffix(before: string, text: string, markers: seq<string>, d: nat)
    requires forall i :: 0 <= i < |markers| ==> markers[i] != ""
    requires d <= |before| && MaxPartial(before, markers) <= |before| - d
    ensures MaxPartial((before + text)[d..], markers) == MaxPartial(before + text, markers)
    decreases |markers|
  {
    hide PartialPrefixLen;
    if markers != [] {
      var n := |markers| - 1;
      MaxOfSuffix(before, text, markers[..n], d);
      PartialOfSuffix(before, text, markers[n], d);
    }
  }

  lemma {:induction false} MaxWithin(text: string, markers: seq<string>)
    requires forall i :: 0 <= i < |markers| ==> 0 < |markers[i]| <= KEEP_CAP + 1
    ensures MaxPartial(text, markers) <= KEEP_CAP
    decreases |markers|
  {
    hide PartialPrefixLen;
    if markers != [] {
      MaxWithin(text, markers[..|markers| - 1]);
    }
  }

  // In such a stream nothing caps the hold-back.
  lemma HoldIs(m: Markers, s: string)
    requires Regular(m) && m.Valid() && Ordinary(s)
    ensures PartialSuffixLen(m, s) == Max(MaxPartial(s, m.Opens()), NamespacedTail(s))
  {
    hide MaxPartial, NamespacedTail, OpenBracket;
    NoControl(s);
    assert s[..|s|] == s;
    forall i | 0 <= i < |m.Opens()|
      ensures 0 < |m.Opens()[i]| <= KEEP_CAP + 1
    {
      if i < |m.pairs| {
        assert IsRegular(m.pairs[i]);
      }
    }
    MaxWithin(s, m.Opens());
  }

  // The tail held back is the same whether the emitted part is there or not.
  lemma HoldOfSuffix(m: Markers, b: string, y: string)
    requires Regular(m) && m.Valid() && Ordinary(b + y)
    ensures var d := |b| - PartialSuffixLen(m, b);
            PartialSuffixLen(m, (b + y)[d..]) == PartialSuffixLen(m, b + y)
  {
    hide MaxPartial, NamespacedTail, PartialSuffixLen, Ordinary;
    var d, w := |b| - PartialSuffixLen(m, b), b + y;
    assert w[..|b|] == b;
    OrdinaryPrefix(w, |b|);
    OrdinarySuffix(w, d);
    HoldIs(m, b);
    HoldIs(m, w);
    HoldIs(m, w[d..]);
    MaxOfSuffix(b, y, m.Opens(), d);
    TailWithin(b, y, d);
    TailOfSuffix(w, d);
  }

  lemma TailWithin(b: string, y: string, d: nat)
    requires d <= |b| && NamespacedTail(b) <= |b| - d
    ensures NamespacedTail(b + y) <= |b + y| - d
  {
    hide NamespacedTail, TagAt;
    var w := b + y;
    var k := |w| - NamespacedTail(w);
    if NamespacedTail(w) > 0 && k < |b| {
      var later, name := TagCompletes(w);
      assert w + later == b + (y + later);
      TagStraddles(b, y + later, name, k);
    }
  }

  // ---------------------------------------------------------------------------
  // Two feeds are one

  // Draining b and then y after what is left of b.
  predicate Resumed(m: Markers, s: State, y: string)
    requires m.Valid() && s.Valid()
  {
    DrainValid(m, s, "");
    var (t, out) := Drain(m, s, "");
    var (u, more) := Drain(m, t.(buffer := t.buffer + y), "");
    !t.suppressing && Drain(m, s.(buffer := s.buffer + y), "") == (u, out + more)
  }

  lemma ResumedHeld(m: Markers, s: State, y: string)
    requires Regular(m) && m.Valid() && s.Valid() && !s.suppressing && s.until.None?
    requires s.buffer != "" && y != "" && Ordinary(s.buffer + y) && FindStart(m, s.buffer).None?
    ensures Resumed(m, s, y)
  {
    hide FindStart, PartialSuffixLen, Drain, Ordinary, Prose;
    var b, w := s.buffer, s.buffer + y;
    DrainStep(m, s, "");
    var d := |b| - PartialSuffixLen(m, b);
    var v := w[d..];
    assert "" + b[..d] == b[..d] && b[d..] + y == v;
    assert w[..|b|] == b;
    OrdinaryPrefix(w, |b|);
    HeldFromStart(m, b, y);
    FindShifts(m, w, d);
    DrainStep(m, s.(buffer := w), "");
    DrainStep(m, s.(buffer := v), "");
    if FindStart(m, v).None? {
      HoldOfSuffix(m, b, y);
      var keep := PartialSuffixLen(m, v);
      assert w[|w| - keep..] == v[|v| - keep..];
      assert "" + w[..|w| - keep] == b[..d] + ("" + v[..|v| - keep]);
    } else {
      ResumedEnvelope(m, s, b, y, d);
    }
  }

  lemma ResumedEnvelope(m: Markers, s: State, b: string, y: string, d: nat)
    requires Regular(m) && m.Valid() && !s.suppressing && s.until.None?
    requires d <= |b| && y != "" && Ordinary(b + y)
    requires FindStart(m, (b + y)[d..]).Some? && FindStart(m, b + y) == Moved(FindStart(m, (b + y)[d..]), d)
    ensures var w := s.(buffer := b + y);
            var v := s.(buffer := (b + y)[d..]);
            Drain(m, w, "") == (Drain(m, v, "").0, b[..d] + Drain(m, v, "").1)
  {
    hide FindStart, Drain, Ordinary, Prose;
    var w, v := b + y, (b + y)[d..];
    DrainStep(m, s.(buffer := w), "");
    DrainStep(m, s.(buffer := v), "");
    var start, moved := FindStart(m, v).value, FindStart(m, w).value;
    assert w[moved.idx + moved.consumeLen..] == v[start.idx + start.consumeLen..];
    var next := Opened(s.(buffer := v), start);
    assert next == Opened(s.(buffer := w), moved);
    OrdinarySuffix(w, d);
    ProseIsPlain(w, moved.idx);
    ProseIsPlain(v, start.idx);
    assert "" + w[..moved.idx] == b[..d] + ("" + v[..start.idx]);
    DrainPrepends(m, next, b[..d], "" + v[..start.idx]);
  }

  lemma ResumedDropping(m: Markers, s: State, y: string)
    requires m.Valid() && s.Valid() && !s.suppressing
    requires s.until.Some? && s.until != Some(SUPPRESS_PERMANENTLY)
    requires s.buffer != "" && y != "" && Index(s.buffer, s.until.value) < 0
    ensures Resumed(m, s, y)
  {
    hide Index, Drain, PartialPrefixLen, Kept;
    var b, close := s.buffer, s.until.value;
    var w, d := b + y, Kept(b, close);
    DrainStep(m, s, "");
    KeptIs(b, close);
    assert b[d..] + y == w[d..];
    TailFindsMarker(b, y, close);
    SamePartial(b, y, close);
    DrainStep(m, s.(buffer := w), "");
    DrainStep(m, s.(buffer := w[d..]), "");
    KeptIs(w, close);
    KeptIs(w[d..], close);
    var end := Index(w[d..], close);
    if end < 0 {
      assert w[d..][Kept(w[d..], close)..] == w[Kept(w, close)..];
    } else {
      assert w[d..][end + |close|..] == w[d + end + |close|..];
    }
    assert forall out: string :: "" + out == out;
  }

  lemma {:induction false} DrainSplits(m: Markers, s: State, y: string)
    requires Regular(m) && m.Valid() && s.Valid() && !s.suppressing && s.until != Some(SUPPRESS_PERMANENTLY)
    requires y != "" && Ordinary(s.buffer + y)
    ensures Resumed(m, s, y)
    decreases |s.buffer|
  {
    hide Drain, Index, FindStart, Prose, Ordinary, Resumed, Regular, Opened;
    var b := s.buffer;
    if b == "" {
      NothingDrained(m, s, y);
    } else if s.until.Some? {
      var close := s.until.value;
      if Index(b, close) < 0 {
        ResumedDropping(m, s, y);
      } else {
        var n := Index(b, close) + |close|;
        LaterIsOrdinary(b, y, n);
        DrainSplits(m, s.(buffer := b[n..], until := None), y);
        ResumedAfterClose(m, s, y);
      }
    } else if FindStart(m, b).None? {
      ResumedHeld(m, s, y);
    } else {
      OpenedIsReady(m, s, y);
      DrainSplits(m, Opened(s, FindStart(m, b).value), y);
      ResumedAfterOpen(m, s, y);
    }
  }

  lemma OpenedIsReady(m: Markers, s: State, y: string)
    requires Regular(m) && m.Valid() && !s.suppressing && Ordinary(s.buffer + y) && FindStart(m, s.buffer).Some?
    ensures Within(FindStart(m, s.buffer).value, s.buffer)
    ensures var next := Opened(s, FindStart(m, s.buffer).value);
            && next.Valid() && !next.suppressing && next.until != Some(SUPPRESS_PERMANENTLY)
            && |next.buffer| < |s.buffer| && Ordinary(next.buffer + y)
  {
    hide FindStart, Ordinary, Regular, OpensAt;
    FindStartWithin(m, s.buffer);
    BeforeIsOrdinary(s.buffer, y);
    FoundOpens(m, s.buffer);
    var start := FindStart(m, s.buffer).value;
    LaterIsOrdinary(s.buffer, y, start.idx + start.consumeLen);
  }

  lemma BeforeIsOrdinary(b: string, y: string)
    requires Ordinary(b + y)
    ensures Ordinary(b)
  {
    hide Ordinary;
    OrdinaryPrefix(b + y, |b|);
    assert (b + y)[..|b|] == b;
  }

  lemma LaterIsOrdinary(b: string, y: string, n: nat)
    requires Ordinary(b + y) && n <= |b|
    ensures Ordinary(b[n..] + y)
  {
    hide Ordinary;
    OrdinarySuffix(b + y, n);
    assert (b + y)[n..] == b[n..] + y;
  }

  lemma NothingDrained(m: Markers, s: State, y: string)
    requires m.Valid() && s.Valid() && !s.suppressing && s.buffer == ""
    ensures Resumed(m, s, y)
  {
    hide Drain;
    DrainNothing(m, s, "");
    assert forall out: string :: "" + out == out;
  }

  lemma ResumedAfterClose(m: Markers, s: State, y: string)
    requires m.Valid() && s.Valid() && !s.suppressing && s.buffer != ""
    requires s.until.Some? && s.until != Some(SUPPRESS_PERMANENTLY) && Index(s.buffer, s.until.value) >= 0
    requires var close := s.until.value;
             Resumed(m, s.(buffer := s.buffer[Index(s.buffer, close) + |close|..], until := None), y)
    ensures Resumed(m, s, y)
  {
    hide Drain, Index;
    var b, close := s.buffer, s.until.value;
    var n := Index(b, close) + |close|;
    IndexStays(b, y, close);
    DrainStep(m, s, "");
    DrainStep(m, s.(buffer := b + y), "");
    assert (b + y)[n..] == b[n..] + y;
  }

  lemma ResumedAfterOpen(m: Markers, s: State, y: string)
    requires Regular(m) && m.Valid() && s.Valid() && !s.suppressing && s.buffer != "" && s.until.None?
    requires Ordinary(s.buffer + y) && FindStart(m, s.buffer).Some? && Within(FindStart(m, s.buffer).value, s.buffer)
    requires Resumed(m, Opened(s, FindStart(m, s.buffer).value), y)
    ensures Resumed(m, s, y)
  {
    hide Drain, FindStart, Ordinary, Prose;
    var b, start := s.buffer, FindStart(m, s.buffer).value;
    FoundStays(m, b, y);
    BeforeIsOrdinary(b, y);
    ProseIsPlain(b, start.idx);
    ProseIsPlain(b + y, start.idx);
    assert (b + y)[..start.idx] == b[..start.idx];
    DrainStep(m, s, "");
    DrainStep(m, s.(buffer := b + y), "");
    var n := start.idx + start.consumeLen;
    assert (b + y)[n..] == b[n..] + y;
    var prose, next := b[..start.idx], Opened(s, start);
    assert "" + prose == prose + "";
    DrainPrepends(m, next, prose, "");
    DrainPrepends(m, next.(buffer := next.buffer + y), prose, "");
    DrainValid(m, next, "");
    var (t, out) := Drain(m, next, "");
    var more := Drain(m, t.(buffer := t.buffer + y), "").1;
    assert prose + (out + more) == prose + out + more;
  }

  // For such markers, however such a stream is cut into chunks: what is emitted and the
  // state after it, and so what Finish adds, are those of feeding it whole.
  lemma {:induction false} ChunkInvariance(m: Markers, chunks: seq<string>)
    requires Regular(m) && m.Valid() && Ordinary(Concat(chunks))
    ensures FedAll(m, State("", None, false), chunks) == Fed(m, State("", None, false), Concat(chunks))
    decreases |chunks|
  {
    hide Drain, Ordinary, Regular;
    var s := State("", None, false);
    if chunks != [] {
      var earlier, last := chunks[..|chunks| - 1], chunks[|chunks| - 1];
      assert chunks == earlier + [last];
      ConcatLast(earlier, last);
      var text := Concat(earlier);
      BeforeIsOrdinary(text, last);
      ChunkInvariance(m, earlier);
      assert "" + text == text && "" + (text + last) == text + last;
      if last == "" {
        assert text + last == text && Fed(m, s, text).1 + "" == Fed(m, s, text).1;
      } else if text == "" {
        assert text + last == last && "" + Fed(m, s, last).1 == Fed(m, s, last).1;
      } else {
        DrainSplits(m, State(text, None, false), last);
      }
    }
  }
}
