// The streaming tool-call filter of api/tool_call_stream_filter.go. Strings stand for the
// source's byte strings; its three regular expressions are written out as functions.
module ToolCallFilter {
  import opened Text
  import opened Wrappers

  const SUPPRESS_PERMANENTLY: string := "__suppress_permanently__"

  const CALLING_TOOL: string := "[Calling tool:"
  const TOOL_CALL: string := "[Tool call:"

  const KEEP_CAP: nat := 128

  datatype Pair = Pair(open: string, close: string)

  datatype Markers = Markers(pairs: seq<Pair>, suppressAfter: seq<string>)
  {
    predicate Valid() {
      && (forall i :: 0 <= i < |pairs| ==> pairs[i].open != "" && pairs[i].close != "")
      && forall i :: 0 <= i < |suppressAfter| ==> suppressAfter[i] != ""
    }

    // Every open marker the filter holds back for.
    function Opens(): seq<string> {
      seq(|pairs|, i requires 0 <= i < |pairs| => pairs[i].open) + suppressAfter + [CALLING_TOOL, TOOL_CALL]
    }
  }

  function NewMarkers(markerStart: string, markerEnd: string): (m: Markers)
    ensures m.Valid() && Pair("<tool_call>", "</tool_call>") in m.pairs
    ensures markerStart != "" && markerEnd != "" ==> Pair(markerStart, markerEnd) in m.pairs
    ensures markerStart != "" && markerEnd == "" ==> markerStart in m.suppressAfter
  {
    var builtin := Pair("<tool_call>", "</tool_call>");
    if markerStart == "" then Markers([builtin], [])
    else if markerEnd == "" then Markers([builtin], [markerStart])
    else Markers([Pair(markerStart, markerEnd), builtin], [])
  }

  // ---------------------------------------------------------------------------
  // The regular expressions

  predicate NameStart(c: char) {
    'A' <= c <= 'Z' || 'a' <= c <= 'z' || c == '_'
  }

  predicate NameChar(c: char) {
    NameStart(c) || '0' <= c <= '9' || c == '.' || c == '-'
  }

  function NameTail(s: string): (n: nat)
    ensures n <= |s|
  {
    if s != "" && NameChar(s[0]) then 1 + NameTail(s[1..]) else 0
  }

  // The length of the name at the start of s, 0 when there is none.
  function NameLen(s: string): (n: nat)
    ensures n <= |s|
  {
    if s != "" && NameStart(s[0]) then 1 + NameTail(s[1..]) else 0
  }

  predicate IsName(s: string) {
    s != "" && NameLen(s) == |s|
  }

  datatype Namespaced = Namespaced(idx: nat, name: string)

  const NAMESPACE_END: string := ":tool_call>"

  // The leftmost <name:tool_call> in s.
  function FindNamespaced(s: string): (m: Option<Namespaced>)
    ensures m.Some? ==> m.value.idx + 1 + |m.value.name| + |NAMESPACE_END| <= |s|
    decreases |s|
  {
    if s == "" then None
    else
      var n := NameLen(s[1..]);
      if s[0] == '<' && n > 0 && NAMESPACE_END <= s[1 + n..] then
        assert |s[1 + n..]| >= |NAMESPACE_END|;
        Some(Namespaced(0, s[1..1 + n]))
      else
        var m := FindNamespaced(s[1..]);
        if m.None? then None else Some(Namespaced(m.value.idx + 1, m.value.name))
  }

  // RE2's \\s
  predicate RegexSpace(c: char) {
    c == '\t' || c == '\n' || c == 12 as char || c == '\r' || c == ' '
  }

  function SpaceLen(s: string): (n: nat)
    ensures n <= |s|
  {
    if s != "" && RegexSpace(s[0]) then 1 + SpaceLen(s[1..]) else 0
  }

  // The length of the bracket call s starts with: a prefix, white space, a name, an
  // optional ({...}) group closed by the first "})]", and the bracket.
  function BracketLen(s: string): (n: Option<nat>)
    ensures n.Some? ==> 0 < n.value <= |s|
  {
    var p := if CALLING_TOOL <= s then |CALLING_TOOL| else if TOOL_CALL <= s then |TOOL_CALL| else 0;
    if p == 0 then None
    else
      var i := p + SpaceLen(s[p..]);
      var j := i + NameLen(s[i..]);
      if j == i then None
      else if "]" <= s[j..] then Some(j + 1)
      else if "({" <= s[j..] then
        var k := Index(s[j + 2..], "})]");
        if k < 0 then None else Some(j + 2 + k + 3)
      else None
  }

  // ---------------------------------------------------------------------------
  // The earliest opening envelope

  datatype Start = Start(idx: nat, consumeLen: nat, closeMarker: string, hasClose: bool)

  // The envelope candidates in s, in the source's order.
  function PairStarts(s: string, pairs: seq<Pair>): seq<Start> {
    if pairs == [] then []
    else
      var i := Index(s, pairs[0].open);
      (if i >= 0 then [Start(i, |pairs[0].open|, pairs[0].close, true)] else []) + PairStarts(s, pairs[1..])
  }

  function NamespacedStarts(s: string): seq<Start> {
    var m := FindNamespaced(s);
    if m.None? then []
    else [Start(m.value.idx, 1 + |m.value.name| + |NAMESPACE_END|, "</" + m.value.name + NAMESPACE_END, true)]
  }

  // The bracket calls that start with `prefix` at position `from` or after.
  function BracketStarts(s: string, prefix: string, from: nat): seq<Start>
    requires from <= |s|
    decreases |s| - from
  {
    var i := Index(s[from..], prefix);
    if i < 0 || from + i >= |s| then []
    else
      var n := BracketLen(s[from + i..]);
      (if n.Some? then [Start(from + i, n.value, "", false)] else []) + BracketStarts(s, prefix, from + i + 1)
  }

  function AfterStarts(s: string, markers: seq<string>): seq<Start> {
    if markers == [] then []
    else
      var i := Index(s, markers[0]);
      (if i >= 0 then [Start(i, |s| - i, SUPPRESS_PERMANENTLY, true)] else []) + AfterStarts(s, markers[1..])
  }

  function AllStarts(m: Markers, s: string): seq<Start> {
    PairStarts(s, m.pairs) + NamespacedStarts(s)
    + BracketStarts(s, CALLING_TOOL, 0) + BracketStarts(s, TOOL_CALL, 0)
    + AfterStarts(s, m.suppressAfter)
  }

  // The first of the earliest candidates.
  function Earliest(starts: seq<Start>): (best: Start)
    requires starts != []
    ensures best in starts
    ensures forall i :: 0 <= i < |starts| ==> best.idx <= starts[i].idx
    decreases |starts|
  {
    if |starts| == 1 then starts[0]
    else
      var best := Earliest(starts[..|starts| - 1]);
      var last := starts[|starts| - 1];
      if last.idx < best.idx then last else best
  }

  function FindStart(m: Markers, s: string): Option<Start> {
    if AllStarts(m, s) == [] then None else Some(Earliest(AllStarts(m, s)))
  }

  // An envelope lies within the text and consumes some of it.
  predicate Within(start: Start, s: string) {
    && 0 < start.consumeLen && start.idx + start.consumeLen <= |s|
    && (start.hasClose ==> start.closeMarker != "")
  }

  lemma {:induction false} PairStartsWithin(s: string, pairs: seq<Pair>)
    requires forall i :: 0 <= i < |pairs| ==> pairs[i].open != "" && pairs[i].close != ""
    ensures forall start :: start in PairStarts(s, pairs) ==> Within(start, s)
    ensures PairStarts(s, pairs) == [] ==> forall i :: 0 <= i < |pairs| ==> Index(s, pairs[i].open) < 0
  {
    if pairs != [] {
      PairStartsWithin(s, pairs[1..]);
      forall i | 0 <= i < |pairs| && PairStarts(s, pairs) == []
        ensures Index(s, pairs[i].open) < 0
      {
        assert i > 0 ==> pairs[i] == pairs[1..][i - 1];
      }
    }
  }

  lemma {:induction false} BracketStartsWithin(s: string, prefix: string, from: nat)
    requires from <= |s|
    ensures forall start :: start in BracketStarts(s, prefix, from) ==> Within(start, s)
    decreases |s| - from
  {
    hide Index, BracketLen;
    var i := Index(s[from..], prefix);
    if i >= 0 && from + i < |s| {
      BracketStartsWithin(s, prefix, from + i + 1);
    }
  }

  lemma {:induction false} AfterStartsWithin(s: string, markers: seq<string>)
    requires forall i :: 0 <= i < |markers| ==> markers[i] != ""
    ensures forall start :: start in AfterStarts(s, markers) ==> Within(start, s)
    ensures AfterStarts(s, markers) == [] ==> forall i :: 0 <= i < |markers| ==> Index(s, markers[i]) < 0
  {
    if markers != [] {
      AfterStartsWithin(s, markers[1..]);
      forall i | 0 <= i < |markers| && AfterStarts(s, markers) == []
        ensures Index(s, markers[i]) < 0
      {
        assert i > 0 ==> markers[i] == markers[1..][i - 1];
      }
    }
  }

  lemma FindStartWithin(m: Markers, s: string)
    requires m.Valid()
    ensures FindStart(m, s).Some? ==> Within(FindStart(m, s).value, s)
    ensures FindStart(m, s).None? ==>
              && (forall i :: 0 <= i < |m.pairs| ==> Index(s, m.pairs[i].open) < 0)
              && (forall i :: 0 <= i < |m.suppressAfter| ==> Index(s, m.suppressAfter[i]) < 0)
  {
    PairStartsWithin(s, m.pairs);
    BracketStartsWithin(s, CALLING_TOOL, 0);
    BracketStartsWithin(s, TOOL_CALL, 0);
    AfterStartsWithin(s, m.suppressAfter);
  }

  lemma {:induction false} PairStartsHave(s: string, pairs: seq<Pair>, i: nat)
    requires i < |pairs| && Index(s, pairs[i].open) >= 0
    ensures exists start :: start in PairStarts(s, pairs) && start.idx == Index(s, pairs[i].open)
  {
    hide Index;
    if i == 0 {
      assert PairStarts(s, pairs)[0].idx == Index(s, pairs[0].open);
    } else {
      PairStartsHave(s, pairs[1..], i - 1);
      var start :| start in PairStarts(s, pairs[1..]) && start.idx == Index(s, pairs[i].open);
      assert start in PairStarts(s, pairs);
    }
  }

  lemma {:induction false} AfterStartsHave(s: string, markers: seq<string>, i: nat)
    requires i < |markers| && Index(s, markers[i]) >= 0
    ensures exists start :: start in AfterStarts(s, markers) && start.idx == Index(s, markers[i])
  {
    hide Index;
    if i == 0 {
      assert AfterStarts(s, markers)[0].idx == Index(s, markers[0]);
    } else {
      AfterStartsHave(s, markers[1..], i - 1);
      var start :| start in AfterStarts(s, markers[1..]) && start.idx == Index(s, markers[i]);
      assert start in AfterStarts(s, markers);
    }
  }

  lemma EarliestBefore(starts: seq<Start>, start: Start)
    requires start in starts
    ensures Earliest(starts).idx <= start.idx
  {
    var j :| 0 <= j < |starts| && starts[j] == start;
    assert Earliest(starts).idx <= starts[j].idx;
  }

  // No registered marker occurs in the text ahead of the envelope: the prose that is let
  // through holds the start of none.
  lemma NoMarkerAhead(m: Markers, s: string, i: nat, k: nat)
    requires m.Valid() && FindStart(m, s).Some? && i < |m.Opens()| - 2
    requires Occurs(s, m.Opens()[i], k)
    ensures FindStart(m, s).value.idx <= k
  {
    hide PairStarts, NamespacedStarts, BracketStarts, AfterStarts, Earliest, Index, Occurs;
    var marker := m.Opens()[i];
    IndexIsFirst(s, marker, k);
    if i < |m.pairs| {
      PairStartsHave(s, m.pairs, i);
      var start :| start in PairStarts(s, m.pairs) && start.idx == Index(s, marker);
      EarliestBefore(AllStarts(m, s), start);
    } else {
      AfterStartsHave(s, m.suppressAfter, i - |m.pairs|);
      var start :| start in AfterStarts(s, m.suppressAfter) && start.idx == Index(s, marker);
      EarliestBefore(AllStarts(m, s), start);
    }
  }

  method FindStartEnvelope(m: Markers, text: string) returns (start: Option<Start>)
    ensures start == FindStart(m, text)
  {
    hide PairStarts, NamespacedStarts, BracketStarts, AfterStarts, FindNamespaced, BracketLen, Index, Occurs;
    var starts := PairCandidates(m.pairs, text);
    starts := starts + NamespacedStarts(text);
    var brackets := BracketCalls(text, CALLING_TOOL);
    starts := starts + brackets;
    brackets := BracketCalls(text, TOOL_CALL);
    starts := starts + brackets;
    var after := AfterCandidates(m.suppressAfter, text);
    starts := starts + after;
    if |starts| == 0 {
      return None;
    }
    var best := SelectEarliest(starts);
    return Some(best);
  }

  // The loop of findStartEnvelope that picks a candidate.
  method SelectEarliest(starts: seq<Start>) returns (best: Start)
    requires starts != []
    ensures best == Earliest(starts)
  {
    best := starts[0];
    for i := 1 to |starts|
      invariant best == Earliest(starts[..i])
    {
      assert starts[..i + 1][..i] == starts[..i];
      if starts[i].idx < best.idx {
        best := starts[i];
      }
    }
    assert starts[..|starts|] == starts;
  }

  // The four loops of findStartEnvelope that collect candidates.
  method PairCandidates(pairs: seq<Pair>, text: string) returns (starts: seq<Start>)
    ensures starts == PairStarts(text, pairs)
  {
    hide Index;
    starts := [];
    for i := 0 to |pairs|
      invariant starts + PairStarts(text, pairs[i..]) == PairStarts(text, pairs)
    {
      assert pairs[i..][0] == pairs[i] && pairs[i..][1..] == pairs[i + 1..];
      var idx := Index(text, pairs[i].open);
      if idx >= 0 {
        starts := starts + [Start(idx, |pairs[i].open|, pairs[i].close, true)];
      }
    }
  }

  method AfterCandidates(markers: seq<string>, text: string) returns (starts: seq<Start>)
    ensures starts == AfterStarts(text, markers)
  {
    hide Index;
    starts := [];
    for i := 0 to |markers|
      invariant starts + AfterStarts(text, markers[i..]) == AfterStarts(text, markers)
    {
      assert markers[i..][0] == markers[i] && markers[i..][1..] == markers[i + 1..];
      var idx := Index(text, markers[i]);
      if idx >= 0 {
        starts := starts + [Start(idx, |text| - idx, SUPPRESS_PERMANENTLY, true)];
      }
    }
  }

  lemma BracketStep(text: string, prefix: string, from: nat)
    requires from <= |text| && prefix != ""
    ensures var i := Index(text[from..], prefix);
            if i < 0 then BracketStarts(text, prefix, from) == []
            else
              && from + i < |text|
              && var n := BracketLen(text[from + i..]);
              BracketStarts(text, prefix, from)
                == (if n.Some? then [Start(from + i, n.value, "", false)] else [])
                   + BracketStarts(text, prefix, from + i + 1)
  {
    hide Index, BracketLen;
  }

  method BracketCalls(text: string, prefix: string) returns (starts: seq<Start>)
    requires prefix != ""
    ensures starts == BracketStarts(text, prefix, 0)
  {
    hide Index, BracketLen, BracketStarts, Occurs;
    starts := [];
    var from: nat := 0;
    assert text[0..] == text;
    var idx := Index(text, prefix);
    while idx >= 0
      invariant from <= |text| && idx == Index(text[from..], prefix)
      invariant starts + BracketStarts(text, prefix, from) == BracketStarts(text, prefix, 0)
      decreases |text| - from
    {
      BracketStep(text, prefix, from);
      var n := BracketLen(text[from + idx..]);
      if n.Some? {
        starts := starts + [Start(from + idx, n.value, "", false)];
      }
      from := from + idx + 1;
      idx := Index(text[from..], prefix);
    }
    BracketStep(text, prefix, from);
  }

  // ---------------------------------------------------------------------------
  // What must be held back

  // The last n characters of text are the first n of marker.
  predicate EndsWithPrefix(text: string, marker: string, n: nat)
    requires n <= |text| && n <= |marker|
  {
    text[|text| - n..] == marker[..n]
  }

  // The longest suffix of text, of length at most n, that is a prefix of marker.
  function PartialUpTo(text: string, marker: string, n: nat): (k: nat)
    requires n <= |text| && n <= |marker|
    ensures k <= n && EndsWithPrefix(text, marker, k)
  {
    if n == 0 || EndsWithPrefix(text, marker, n) then n else PartialUpTo(text, marker, n - 1)
  }

  lemma {:induction false} PartialIsLongest(text: string, marker: string, n: nat, j: nat)
    requires n <= |text| && n <= |marker| && j <= n
    requires EndsWithPrefix(text, marker, j)
    ensures j <= PartialUpTo(text, marker, n)
  {
    hide EndsWithPrefix;
    if n > 0 && j < n {
      PartialIsLongest(text, marker, n - 1, j);
    }
  }

  // partialPrefixLen: the longest suffix of text that is a proper prefix of marker.
  function PartialPrefixLen(text: string, marker: string): (k: nat)
    requires marker != ""
    ensures k <= |text| && k < |marker| && EndsWithPrefix(text, marker, k)
  {
    PartialUpTo(text, marker, if |marker| - 1 < |text| then |marker| - 1 else |text|)
  }

  lemma PartialPrefixIsLongest(text: string, marker: string, n: nat)
    requires n <= |text| && n < |marker| && EndsWithPrefix(text, marker, n)
    ensures n <= PartialPrefixLen(text, marker)
  {
    PartialIsLongest(text, marker, if |marker| - 1 < |text| then |marker| - 1 else |text|, n);
  }

  method ComputePartialPrefixLen(text: string, marker: string) returns (k: nat)
    requires marker != ""
    ensures k == PartialPrefixLen(text, marker)
  {
    hide EndsWithPrefix;
    var maxLen := |text|;
    if |marker| - 1 < maxLen {
      maxLen := |marker| - 1;
    }
    var n := maxLen;
    while n > 0
      invariant 0 <= n <= maxLen
      invariant PartialUpTo(text, marker, n) == PartialUpTo(text, marker, maxLen)
    {
      if EndsWithPrefix(text, marker, n) {
        return n;
      }
      n := n - 1;
    }
    return 0;
  }

  function Max(a: nat, b: nat): nat {
    if a > b then a else b
  }

  function MaxPartial(text: string, markers: seq<string>): (k: nat)
    requires forall i :: 0 <= i < |markers| ==> markers[i] != ""
    ensures k <= |text|
    ensures forall i :: 0 <= i < |markers| ==> PartialPrefixLen(text, markers[i]) <= k
    decreases |markers|
  {
    if markers == [] then 0
    else
      var n := |markers| - 1;
      Max(MaxPartial(text, markers[..n]), PartialPrefixLen(text, markers[n]))
  }

  // strings.LastIndex
  function LastIndex(s: string, marker: string): (i: int)
    requires marker != ""
    ensures -1 <= i && (i >= 0 ==> Occurs(s, marker, i))
    decreases |s|
  {
    if |s| < |marker| then -1
    else if s[|s| - |marker|..] == marker then |s| - |marker|
    else LastIndex(s[..|s| - 1], marker)
  }

  predicate CouldBePartialNamespacedOpen(candidate: string) {
    if !("<" <= candidate) || '>' in candidate then false
    else
      var body := candidate[1..];
      if body == "" then true
      else if body[0] == '/' then false
      else if ':' !in body then IsName(body)
      else
        var colon := Index(body, ":");
        colon >= 0 && IsName(body[..colon]) && body[colon + 1..] <= "tool_call"
  }

  // The tail that could still become a namespaced open.
  function NamespacedTail(text: string): (k: nat)
    ensures k <= |text|
  {
    var i := LastIndex(text, "<");
    if i >= 0 && CouldBePartialNamespacedOpen(text[i..]) then |text| - i else 0
  }

  // The tail from the last bracket prefix on, unless a "]" follows it.
  function OpenBracket(text: string): (k: nat)
    ensures k <= |text|
  {
    var a, b := LastIndex(text, CALLING_TOOL), LastIndex(text, TOOL_CALL);
    var i := if b > a then b else a;
    if i >= 0 && ']' !in text[i..] then |text| - i else 0
  }

  function PartialSuffixLen(m: Markers, text: string): (keep: nat)
    requires m.Valid()
    ensures keep <= |text|
  {
    var keep := Max(MaxPartial(text, m.Opens()), NamespacedTail(text));
    if OpenBracket(text) > 0 then Max(keep, OpenBracket(text))
    else if keep > KEEP_CAP then KEEP_CAP
    else keep
  }

  lemma {:induction false} MaxPartialJoin(text: string, a: seq<string>, b: seq<string>)
    requires forall i :: 0 <= i < |a| ==> a[i] != ""
    requires forall i :: 0 <= i < |b| ==> b[i] != ""
    ensures MaxPartial(text, a + b) == Max(MaxPartial(text, a), MaxPartial(text, b))
    decreases |b|
  {
    if b == [] {
      assert a + b == a;
    } else {
      var n := |b| - 1;
      assert (a + b)[..|a + b| - 1] == a + b[..n];
      MaxPartialJoin(text, a, b[..n]);
    }
  }

  // The loops of partialSuffixLen over one list of markers.
  method MaxOver(text: string, markers: seq<string>, least: nat) returns (keep: nat)
    requires forall i :: 0 <= i < |markers| ==> markers[i] != ""
    ensures keep == Max(least, MaxPartial(text, markers))
  {
    keep := least;
    for i := 0 to |markers|
      invariant keep == Max(least, MaxPartial(text, markers[..i]))
    {
      assert markers[..i + 1][..i] == markers[..i];
      var n := ComputePartialPrefixLen(text, markers[i]);
      if n > keep {
        keep := n;
      }
    }
    assert markers[..|markers|] == markers;
  }

  method ComputePartialSuffixLen(m: Markers, text: string) returns (keep: nat)
    requires m.Valid()
    ensures keep == PartialSuffixLen(m, text)
  {
    hide MaxPartial, NamespacedTail, OpenBracket;
    keep := LongestPartial(m, text);
    var unresolved := UnresolvedBracket(text);
    if unresolved > 0 {
      if unresolved > keep {
        keep := unresolved;
      }
      return;
    }
    if keep > KEEP_CAP {
      keep := KEEP_CAP;
    }
  }

  // The part of partialSuffixLen that looks for partial markers and a partial namespaced tag.
  method LongestPartial(m: Markers, text: string) returns (keep: nat)
    requires m.Valid()
    ensures keep == Max(MaxPartial(text, m.Opens()), NamespacedTail(text))
  {
    hide MaxPartial, PartialPrefixLen, CouldBePartialNamespacedOpen, LastIndex;
    var opens := seq(|m.pairs|, i requires 0 <= i < |m.pairs| => m.pairs[i].open);
    keep := MaxOver(text, opens, 0);
    var lastLt := LastIndex(text, "<");
    if lastLt >= 0 {
      var candidate := text[lastLt..];
      if CouldBePartialNamespacedOpen(candidate) && |candidate| > keep {
        keep := |candidate|;
      }
    }
    keep := MaxOver(text, [CALLING_TOOL, TOOL_CALL], keep);
    keep := MaxOver(text, m.suppressAfter, keep);
    MaxPartialJoin(text, opens, m.suppressAfter);
    MaxPartialJoin(text, opens + m.suppressAfter, [CALLING_TOOL, TOOL_CALL]);
  }

  // The length of the last bracket prefix's tail when no "]" has come after it.
  method UnresolvedBracket(text: string) returns (n: nat)
    ensures n == OpenBracket(text)
  {
    hide LastIndex;
    var bracketIdx := -1;
    var idx := LastIndex(text, CALLING_TOOL);
    if idx > bracketIdx {
      bracketIdx := idx;
    }
    idx := LastIndex(text, TOOL_CALL);
    if idx > bracketIdx {
      bracketIdx := idx;
    }
    if bracketIdx >= 0 {
      var bracketCandidate := text[bracketIdx..];
      if ']' !in bracketCandidate {
        return |bracketCandidate|;
      }
    }
    return 0;
  }

  // ---------------------------------------------------------------------------
  // The hold-back

  // A marker occurrence that starts in text and runs past its end puts a proper prefix of
  // the marker at the end of text.
  lemma StraddlesEnd(text: string, later: string, marker: string, k: nat)
    requires marker != "" && Occurs(text + later, marker, k) && k < |text| < k + |marker|
    ensures |text| - k <= PartialPrefixLen(text, marker)
  {
    var n := |text| - k;
    assert (text + later)[k..k + |marker|][..n] == text[|text| - n..];
    assert text[|text| - n..] == marker[..n];
    PartialPrefixIsLongest(text, marker, n);
  }

  // Some later text completes an occurrence of marker that starts in the first `emitted`
  // characters of text.
  ghost predicate Completable(text: string, marker: string, emitted: nat) {
    exists later: string, k: nat :: k < emitted && |text| < k + |marker| && Occurs(text + later, marker, k)
  }

  // The rest of a marker completes the partial one at the end of text.
  lemma RestCompletes(text: string, marker: string, n: nat)
    requires n <= |text| && n <= |marker| && EndsWithPrefix(text, marker, n)
    ensures Occurs(text + marker[n..], marker, |text| - n)
  {
    var whole, k := text + marker[n..], |text| - n;
    assert whole[k..] == text[k..] + marker[n..];
    assert marker[..n] + marker[n..] == marker;
    assert whole[k..k + |marker|] == whole[k..];
  }

  lemma CompletableIff(text: string, marker: string, emitted: nat)
    requires marker != "" && emitted <= |text|
    ensures Completable(text, marker, emitted) <==> PartialPrefixLen(text, marker) > |text| - emitted
  {
    hide PartialPrefixLen, Occurs, EndsWithPrefix;
    if Completable(text, marker, emitted) {
      var later: string, k: nat :| k < emitted && |text| < k + |marker| && Occurs(text + later, marker, k);
      StraddlesEnd(text, later, marker, k);
    }
    var n := PartialPrefixLen(text, marker);
    if n > |text| - emitted {
      RestCompletes(text, marker, n);
    }
  }

  // When no envelope is found, emitting all but the kept tail gives away the start of a
  // marker exactly when more than KEEP_CAP characters of it are already there and no
  // unresolved bracket call lifts the cap. So it never does for a marker of at most
  // KEEP_CAP + 1 characters.
  lemma HoldBackIsExact(m: Markers, text: string, i: nat)
    requires m.Valid() && i < |m.Opens()|
    ensures m.Opens()[i] != ""
    ensures Completable(text, m.Opens()[i], |text| - PartialSuffixLen(m, text))
       <==> PartialPrefixLen(text, m.Opens()[i]) > KEEP_CAP && OpenBracket(text) == 0
    ensures |m.Opens()[i]| <= KEEP_CAP + 1 ==>
              !Completable(text, m.Opens()[i], |text| - PartialSuffixLen(m, text))
  {
    CompletableIff(text, m.Opens()[i], |text| - PartialSuffixLen(m, text));
  }

  // And a marker that is complete in the text, other than a bracket prefix, is an envelope.
  // So one that starts in a text in which no envelope is found, and is completed later, is
  // held back exactly when at most KEEP_CAP characters of it are there or an unresolved
  // bracket call lifts the cap.
  lemma NoMarkerSlips(m: Markers, text: string, later: string, i: nat, k: nat)
    requires m.Valid() && FindStart(m, text).None?
    requires i < |m.Opens()| - 2
    requires Occurs(text + later, m.Opens()[i], k) && k < |text|
    ensures |text| - PartialSuffixLen(m, text) <= k <==> |text| - k <= KEEP_CAP || OpenBracket(text) > 0
    ensures |m.Opens()[i]| <= KEEP_CAP + 1 ==> |text| - PartialSuffixLen(m, text) <= k
  {
    hide Index, PartialPrefixLen, FindStart, OpenBracket, NamespacedTail;
    var marker := m.Opens()[i];
    NotComplete(m, text, i);
    if k + |marker| <= |text| {
      assert text[k..k + |marker|] == (text + later)[k..k + |marker|];
      IndexIsFirst(text, marker, k);
      assert false;
    }
    StraddlesEnd(text, later, marker, k);
  }

  lemma NotComplete(m: Markers, text: string, i: nat)
    requires m.Valid() && FindStart(m, text).None? && i < |m.Opens()| - 2
    ensures Index(text, m.Opens()[i]) < 0
  {
    hide Index, FindStart;
    FindStartWithin(m, text);
    assert i < |m.pairs| ==> m.Opens()[i] == m.pairs[i].open;
    assert i >= |m.pairs| ==> m.Opens()[i] == m.suppressAfter[i - |m.pairs|];
  }

  // ---------------------------------------------------------------------------
  // Prose ahead of an envelope

  // The first bracket prefix in text, and its length.
  function FirstBracket(text: string): (f: Option<(nat, nat)>)
    ensures f.Some? ==> 0 < f.value.1 && f.value.0 + f.value.1 <= |text|
  {
    var a, b := Index(text, CALLING_TOOL), Index(text, TOOL_CALL);
    if a < 0 && b < 0 then None
    else if b < 0 || 0 <= a <= b then Some((a, |CALLING_TOOL|))
    else Some((b, |TOOL_CALL|))
  }

  // Appends to `clean` the prose with every bracket prefix that no "]" follows dropped.
  function Sanitized(clean: string, text: string): string
    decreases |text|
  {
    var f := FirstBracket(text);
    if f.None? then clean + text
    else
      var (i, n) := f.value;
      var close := Index(text[i + n..], "]");
      if close < 0 then Sanitized(clean + text[..i], text[i + n..])
      else Sanitized(clean + text[..i] + text[i..i + n + close + 1], text[i + n + close + 1..])
  }

  method SanitizePrefixBeforeSuppression(text: string) returns (clean: string)
    ensures clean == Sanitized("", text)
  {
    hide Index, FirstBracket;
    clean := "";
    var cursor: nat := 0;
    assert text[0..] == text;
    while cursor < |text|
      invariant cursor <= |text|
      invariant Sanitized(clean, text[cursor..]) == Sanitized("", text)
    {
      ghost var here := text[cursor..];
      var bracket := FirstBracket(text[cursor..]);
      if bracket.None? {
        clean := clean + text[cursor..];
        return;
      }
      var (i, n) := bracket.value;
      var afterPrefix := cursor + i + n;
      assert here[i + n..] == text[afterPrefix..] && here[..i] == text[cursor..cursor + i];
      var rel := Index(text[afterPrefix..], "]");
      if rel < 0 {
        clean := clean + text[cursor..cursor + i];
        cursor := afterPrefix;
        continue;
      }
      var closeIdx := afterPrefix + rel;
      assert here[i..i + n + rel + 1] == text[cursor + i..closeIdx + 1];
      assert here[i + n + rel + 1..] == text[closeIdx + 1..];
      clean := clean + text[cursor..cursor + i] + text[cursor + i..closeIdx + 1];
      cursor := closeIdx + 1;
    }
    NothingToSanitize(clean);
    assert text[cursor..] == "";
  }

  lemma NothingToSanitize(clean: string)
    ensures Sanitized(clean, "") == clean
  {
    assert clean + "" == clean;
  }

  // ---------------------------------------------------------------------------
  // Feeding

  datatype State = State(buffer: string, until: Option<string>, suppressing: bool)
  {
    predicate Valid() {
      until.Some? ==> until.value != ""
    }
  }

  // The loop of Feed: the state it ends in, and what it has emitted after `out`.
  function Drain(m: Markers, s: State, out: string): (State, string)
    requires m.Valid() && s.Valid()
    decreases |s.buffer|
  {
    if s.buffer == "" then (s, out)
    else if s.until == Some(SUPPRESS_PERMANENTLY) then (State("", None, true), out)
    else if s.until.Some? then
      var close := s.until.value;
      var end := Index(s.buffer, close);
      if end < 0 then (s.(buffer := s.buffer[|s.buffer| - PartialPrefixLen(s.buffer, close)..]), out)
      else Drain(m, s.(buffer := s.buffer[end + |close|..], until := None), out)
    else
      FindStartWithin(m, s.buffer);
      var start := FindStart(m, s.buffer);
      if start.Some? then
        Drain(m, Opened(s, start.value), out + Prose(s.buffer, start.value.idx))
      else
        var keep := PartialSuffixLen(m, s.buffer);
        (s.(buffer := s.buffer[|s.buffer| - keep..]), out + s.buffer[..|s.buffer| - keep])
  }

  // The state once an envelope's opening is consumed, and the prose ahead of it.
  function Opened(s: State, start: Start): State
    requires Within(start, s.buffer)
  {
    s.(buffer := s.buffer[start.idx + start.consumeLen..],
       until := if start.hasClose then Some(start.closeMarker) else None)
  }

  function Prose(buffer: string, idx: nat): string
    requires idx <= |buffer|
  {
    if idx > 0 then Sanitized("", buffer[..idx]) else ""
  }

  function Fed(m: Markers, s: State, text: string): (State, string)
    requires m.Valid() && s.Valid()
  {
    if s.suppressing || text == "" then (s, "")
    else Drain(m, s.(buffer := s.buffer + text), "")
  }

  function Finished(m: Markers, s: State): (State, string)
    requires m.Valid()
  {
    if s.suppressing || s.until.Some? then (s.(buffer := "", until := None), "")
    else
      var keep := PartialSuffixLen(m, s.buffer);
      var tail := if keep >= |s.buffer| then (if ShouldDropTail(m, s.buffer) then "" else s.buffer)
                  else s.buffer[..|s.buffer| - keep];
      (s.(buffer := ""), tail)
  }

  predicate ShouldDropTail(m: Markers, tail: string) {
    if tail == "" then false
    else if exists i :: 0 <= i < |m.pairs| && tail <= m.pairs[i].open then true
    else if CALLING_TOOL <= tail || TOOL_CALL <= tail then true
    else if exists i :: 0 <= i < |m.suppressAfter| && (tail <= m.suppressAfter[i] || m.suppressAfter[i] <= tail) then true
    else if !("<" <= tail) || '>' in tail then false
    else
      var body := tail[1..];
      if body == "" then true
      else if body[0] == '/' || ':' !in body then false
      else
        var colon := Index(body, ":");
        colon >= 0 && IsName(body[..colon]) && body[colon + 1..] <= "tool_call"
  }

  lemma {:induction false} DrainValid(m: Markers, s: State, out: string)
    requires m.Valid() && s.Valid()
    ensures Drain(m, s, out).0.Valid()
    decreases |s.buffer|
  {
    hide Index, FindStart, PartialSuffixLen, PartialPrefixLen, Sanitized;
    FindStartWithin(m, s.buffer);
    if s.buffer != "" && s.until != Some(SUPPRESS_PERMANENTLY) {
      if s.until.Some? {
        var end := Index(s.buffer, s.until.value);
        if end >= 0 {
          DrainValid(m, s.(buffer := s.buffer[end + |s.until.value|..], until := None), out);
        }
      } else {
        var start := FindStart(m, s.buffer);
        if start.Some? {
          DrainValid(m, Opened(s, start.value), out + Prose(s.buffer, start.value.idx));
        }
      }
    }
  }

  lemma DrainNothing(m: Markers, s: State, out: string)
    requires m.Valid() && s.Valid() && s.buffer == ""
    ensures Drain(m, s, out) == (s, out)
  {
  }

  // One turn of the loop.
  lemma DrainStep(m: Markers, s: State, out: string)
    requires m.Valid() && s.Valid() && s.buffer != ""
    ensures s.until == Some(SUPPRESS_PERMANENTLY) ==> Drain(m, s, out) == (State("", None, true), out)
    ensures s.until.Some? && s.until != Some(SUPPRESS_PERMANENTLY) ==>
              var end := Index(s.buffer, s.until.value);
              Drain(m, s, out) ==
                if end < 0 then
                  (s.(buffer := s.buffer[|s.buffer| - PartialPrefixLen(s.buffer, s.until.value)..]), out)
                else Drain(m, s.(buffer := s.buffer[end + |s.until.value|..], until := None), out)
    ensures s.until.None? && FindStart(m, s.buffer).Some? ==>
              && Within(FindStart(m, s.buffer).value, s.buffer)
              && var start := FindStart(m, s.buffer).value;
              Drain(m, s, out) == Drain(m, Opened(s, start), out + Prose(s.buffer, start.idx))
    ensures s.until.None? && FindStart(m, s.buffer).None? ==>
              var keep := PartialSuffixLen(m, s.buffer);
              Drain(m, s, out) ==
                (s.(buffer := s.buffer[|s.buffer| - keep..]), out + s.buffer[..|s.buffer| - keep])
  {
    hide Index, FindStart, PartialSuffixLen, PartialPrefixLen, Prose;
    FindStartWithin(m, s.buffer);
  }

  class ToolCallStreamFilter {
    const markers: Markers
    var buffer: string
    var suppressingUntil: string
    var hasSuppressUntil: bool
    var suppressing: bool

    constructor (markerStart: string, markerEnd: string)
      ensures Valid() && markers == NewMarkers(markerStart, markerEnd)
      ensures Current() == State("", None, false)
    {
      markers := NewMarkers(markerStart, markerEnd);
      buffer, suppressingUntil, hasSuppressUntil, suppressing := "", "", false, false;
    }

    ghost predicate Valid()
      reads this
    {
      markers.Valid() && Current().Valid()
    }

    ghost function Current(): State
      reads this
    {
      State(buffer, if hasSuppressUntil then Some(suppressingUntil) else None, suppressing)
    }

    method Feed(text: string) returns (out: string)
      requires Valid()
      modifies this
      ensures Valid()
      ensures (Current(), out) == Fed(markers, old(Current()), text)
    {
      hide Index, FindStart, PartialSuffixLen, PartialPrefixLen, Sanitized, Drain;
      if suppressing || text == "" {
        return "";
      }
      buffer := buffer + text;
      out := "";
      ghost var start := Current();
      DrainValid(markers, start, "");
      while buffer != ""
        invariant Valid() && !suppressing
        invariant Drain(markers, Current(), out) == Drain(markers, start, "")
        decreases |buffer|
      {
        DrainStep(markers, Current(), out);
        if hasSuppressUntil && suppressingUntil == SUPPRESS_PERMANENTLY {
          suppressing, hasSuppressUntil, suppressingUntil, buffer := true, false, "", "";
          return;
        }
        if hasSuppressUntil {
          var endIdx := Index(buffer, suppressingUntil);
          if endIdx < 0 {
            var keep := ComputePartialPrefixLen(buffer, suppressingUntil);
            if keep > 0 {
              buffer := buffer[|buffer| - keep..];
            } else {
              assert buffer[|buffer| - keep..] == "";
              buffer := "";
            }
            return;
          }
          buffer := buffer[endIdx + |suppressingUntil|..];
          hasSuppressUntil, suppressingUntil := false, "";
          continue;
        }
        var envelope := FindStartEnvelope(markers, buffer);
        FindStartWithin(markers, buffer);
        if envelope.Some? {
          var e := envelope.value;
          if e.idx > 0 {
            var prose := SanitizePrefixBeforeSuppression(buffer[..e.idx]);
            out := out + prose;
          } else {
            assert out + "" == out;
          }
          buffer := buffer[e.idx + e.consumeLen..];
          if e.hasClose {
            suppressingUntil := e.closeMarker;
            hasSuppressUntil := true;
          }
          continue;
        }
        var keep := ComputePartialSuffixLen(markers, buffer);
        if keep == 0 {
          assert buffer[..|buffer| - keep] == buffer && buffer[|buffer| - keep..] == "";
          out := out + buffer;
          buffer := "";
          return;
        }
        if |buffer| > keep {
          out := out + buffer[..|buffer| - keep];
          buffer := buffer[|buffer| - keep..];
        } else {
          assert out + buffer[..|buffer| - keep] == out && buffer[|buffer| - keep..] == buffer;
        }
        return;
      }
      DrainNothing(markers, Current(), out);
    }

    method Finish() returns (out: string)
      requires Valid()
      modifies this
      ensures Valid()
      ensures (Current(), out) == Finished(markers, old(Current()))
    {
      hide PartialSuffixLen, ShouldDropTail;
      if suppressing || hasSuppressUntil {
        buffer, hasSuppressUntil, suppressingUntil := "", false, "";
        return "";
      }
      var keep := ComputePartialSuffixLen(markers, buffer);
      if keep >= |buffer| {
        var tail := buffer;
        buffer := "";
        if ShouldDropTail(markers, tail) {
          return "";
        }
        return tail;
      }
      assert buffer[..|buffer|] == buffer;
      out := if keep > 0 then buffer[..|buffer| - keep] else buffer;
      buffer := "";
    }
  }
}
