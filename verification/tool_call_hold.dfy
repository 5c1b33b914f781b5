// What the filter's hold-back keeps of bracket calls and of namespaced tags
// (api/tool_call_stream_filter.go). The markers of fixed text are in ToolCallFilter.
module ToolCallHold {
  import opened Text
  import opened ToolCallFilter
  import opened ToolCallProse
  import opened Wrappers

  // ---------------------------------------------------------------------------
  // Searching from the end

  lemma {:induction false} LastIndexIsLast(s: string, marker: string, k: int)
    requires marker != "" && Occurs(s, marker, k)
    ensures k <= LastIndex(s, marker)
    decreases |s|
  {
    if s[|s| - |marker|..] != marker {
      assert k + |marker| < |s|;
      assert s[..|s| - 1][k..k + |marker|] == s[k..k + |marker|];
      LastIndexIsLast(s[..|s| - 1], marker, k);
    }
  }

  lemma OccursChar1(s: string, c: char, i: int)
    ensures Occurs(s, [c], i) <==> 0 <= i < |s| && s[i] == c
  {
    if 0 <= i < |s| {
      assert s[i..i + 1] == [s[i]];
    }
  }

  lemma LastLess(s: string, i: nat)
    requires i < |s| && s[i] == '<' && '<' !in s[i + 1..]
    ensures LastIndex(s, "<") == i
  {
    hide LastIndex;
    OccursChar1(s, '<', i);
    LastIndexIsLast(s, "<", i);
    OccursChar1(s, '<', LastIndex(s, "<"));
    assert forall t :: i < t < |s| ==> s[t] == s[i + 1..][t - i - 1];
  }

  lemma NoLess(s: string)
    requires '<' !in s
    ensures LastIndex(s, "<") == -1
  {
    OccursChar1(s, '<', LastIndex(s, "<"));
  }

  lemma {:induction false} SomePartial(text: string, markers: seq<string>, n: nat)
    requires forall i :: 0 <= i < |markers| ==> markers[i] != ""
    requires 0 < n <= MaxPartial(text, markers)
    ensures exists i :: 0 <= i < |markers| && PartialPrefixLen(text, markers[i]) >= n
    decreases |markers|
  {
    hide PartialPrefixLen;
    var last := |markers| - 1;
    if PartialPrefixLen(text, markers[last]) < n {
      SomePartial(text, markers[..last], n);
      var i :| 0 <= i < last && PartialPrefixLen(text, markers[..last][i]) >= n;
      assert markers[..last][i] == markers[i];
    }
  }

  // ---------------------------------------------------------------------------
  // Characters of a tag

  lemma {:induction false} NameTailChars(s: string)
    ensures forall j :: 0 <= j < NameTail(s) ==> NameChar(s[j])
    ensures NameTail(s) < |s| ==> !NameChar(s[NameTail(s)])
  {
    if s != "" && NameChar(s[0]) {
      NameTailChars(s[1..]);
      assert forall j :: 0 < j < |s| ==> s[j] == s[1..][j - 1];
    }
  }

  lemma {:induction false} NameTailIs(s: string, n: nat)
    requires n <= |s| && (forall j :: 0 <= j < n ==> NameChar(s[j])) && (n < |s| ==> !NameChar(s[n]))
    ensures NameTail(s) == n
  {
    NameTailChars(s);
  }

  predicate AllNameChars(s: string) {
    forall j :: 0 <= j < |s| ==> NameChar(s[j])
  }

  lemma IsNameIff(s: string)
    ensures IsName(s) <==> s != "" && NameStart(s[0]) && AllNameChars(s)
  {
    if s != "" {
      NameTailChars(s[1..]);
      assert forall j :: 0 < j < |s| ==> s[j] == s[1..][j - 1];
      if AllNameChars(s) {
        NameTailIs(s[1..], |s| - 1);
      }
    }
  }

  // The name that a text starts with, when a character follows that cannot be in one.
  lemma NameLenIs(name: string, rest: string)
    requires IsName(name) && rest != "" && !NameChar(rest[0])
    ensures NameLen(name + rest) == |name|
  {
    IsNameIff(name);
    var s := name + rest;
    assert s[1..] == name[1..] + rest;
    NameTailIs(s[1..], |name| - 1);
  }

  predicate TagChar(c: char) {
    NameChar(c) || c == ':'
  }

  lemma ColonFirst(body: string, k: nat)
    requires k < |body| && body[k] == ':'
    ensures 0 <= Index(body, ":") <= k
  {
    assert body[k..k + 1] == ":";
    IndexIsFirst(body, ":", k);
  }

  lemma FoundColon(body: string)
    requires ':' in body
    ensures var colon := Index(body, ":");
            0 <= colon < |body| && body[colon] == ':' && ':' !in body[..colon]
  {
    var k: nat :| k < |body| && body[k] == ':';
    ColonFirst(body, k);
    var colon := Index(body, ":");
    assert body[colon] == body[colon..colon + 1][0] == ':';
    hide Index;
    forall j | 0 <= j < colon
      ensures body[..colon][j] != ':'
    {
      if body[j] == ':' {
        ColonFirst(body, j);
      }
    }
  }

  // What may become a tag: "<" and the start of a name, or a whole name and the start of
  // what ends a tag.
  predicate Opening(body: string) {
    || body == "" || IsName(body)
    || exists n :: 0 < n < |body| && IsName(body[..n]) && Ending(body[n..])
  }

  predicate Ending(s: string) {
    s != "" && |s| < |NAMESPACE_END| && s <= NAMESPACE_END
  }

  lemma EndingIff(s: string)
    ensures Ending(s) <==> s != "" && s[0] == ':' && s[1..] <= "tool_call"
  {
    if s != "" {
      assert NAMESPACE_END == ":" + "tool_call" + ">";
      assert s == [s[0]] + s[1..];
    }
  }

  lemma ColonIs(body: string, n: nat)
    requires n < |body| && body[n] == ':' && ':' !in body[..n]
    ensures Index(body, ":") == n
  {
    assert body == body[..n] + (":" + body[n + 1..]);
    IndexAfter(body[..n], ":", body[n + 1..]);
  }

  lemma CouldBeIff(candidate: string)
    ensures CouldBePartialNamespacedOpen(candidate) <==> "<" <= candidate && Opening(candidate[1..])
  {
    hide Index, IsName;
    if "<" <= candidate {
      var body := candidate[1..];
      if CouldBePartialNamespacedOpen(candidate) {
        CouldBeOpens(candidate);
      }
      if Opening(body) {
        OpensCouldBe(candidate);
      }
    }
  }

  lemma CouldBeOpens(candidate: string)
    requires CouldBePartialNamespacedOpen(candidate)
    ensures Opening(candidate[1..])
  {
    hide Index, IsName;
    var body := candidate[1..];
    if body != "" && ':' in body {
      FoundColon(body);
      var colon := Index(body, ":");
      assert body[colon..][0] == ':' && body[colon..][1..] == body[colon + 1..];
      EndingIff(body[colon..]);
      NonEmptyName(body[..colon]);
      assert IsName(body[..colon]) && Ending(body[colon..]);
    }
  }

  lemma NonEmptyName(s: string)
    requires IsName(s)
    ensures s != "" && s[0] != '/' && ':' !in s && '>' !in s && '<' !in s && '[' !in s
  {
    IsNameIff(s);
  }

  lemma OpensCouldBe(candidate: string)
    requires "<" <= candidate && Opening(candidate[1..])
    ensures CouldBePartialNamespacedOpen(candidate)
  {
    hide Index, IsName, Ending;
    var body := candidate[1..];
    assert candidate == "<" + body;
    if IsName(body) {
      NonEmptyName(body);
    } else if body != "" {
      var n :| 0 < n < |body| && IsName(body[..n]) && Ending(body[n..]);
      TagOpens(candidate, n);
    }
  }

  lemma TagOpens(candidate: string, n: nat)
    requires "<" <= candidate && 0 < n < |candidate[1..]|
    requires IsName(candidate[1..][..n]) && Ending(candidate[1..][n..])
    ensures CouldBePartialNamespacedOpen(candidate)
  {
    hide Index, IsName, Ending;
    var body := candidate[1..];
    NonEmptyName(body[..n]);
    EndingIff(body[n..]);
    EndingChars(body[n..]);
    assert candidate == "<" + (body[..n] + body[n..]);
    assert body[0] == body[..n][0];
    assert body[n] == body[n..][0] == ':' && body[n..][1..] == body[n + 1..];
    ColonIs(body, n);
  }

  lemma EndingChars(s: string)
    requires Ending(s)
    ensures '>' !in s && '<' !in s && '[' !in s
  {
    assert forall j :: 0 <= j < |s| ==> s[j] == NAMESPACE_END[j];
  }

  lemma OpeningChars(body: string)
    requires Opening(body)
    ensures '>' !in body && '<' !in body && '[' !in body
  {
    hide IsName, Ending;
    if IsName(body) {
      NonEmptyName(body);
    } else if body != "" {
      var n :| 0 < n < |body| && IsName(body[..n]) && Ending(body[n..]);
      NonEmptyName(body[..n]);
      EndingChars(body[n..]);
      assert body == body[..n] + body[n..];
    }
  }

  // ---------------------------------------------------------------------------
  // Bracket calls

  // A bracket call that starts at k is still open: no "]" and no further bracket prefix has
  // come after its start.
  ghost predicate Pending(text: string, k: nat) {
    k <= |text| && ']' !in text[k..] && forall p: string, j: nat :: IsControl(p) && Occurs(text, p, j) ==> j <= k
  }

  // A registered marker that is partial at the end of text reaches back to k.
  predicate Covered(m: Markers, text: string, k: nat)
    requires m.Valid()
  {
    && (|text| - k <= KEEP_CAP || OpenBracket(text) > 0)
    && exists i :: 0 <= i < |m.Opens()| - 2 && PartialPrefixLen(text, m.Opens()[i]) >= |text| - k
  }

  lemma ControlChars(p: string)
    requires IsControl(p)
    ensures 2 <= |p| <= KEEP_CAP && p[0] == '[' && ']' !in p && forall j :: 0 < j < |p| ==> p[j] != '['
  {
  }

  lemma ControlsDiffer(p: string, q: string)
    requires IsControl(p) && IsControl(q) && p[1] == q[1]
    ensures p == q
  {
  }

  // No tag reaches back across a "[".
  lemma TagTailIsShort(text: string, k: nat)
    requires k < |text| && text[k] == '['
    ensures NamespacedTail(text) < |text| - k
  {
    hide CouldBePartialNamespacedOpen, Opening;
    var i := LastIndex(text, "<");
    if i >= 0 && CouldBePartialNamespacedOpen(text[i..]) && i <= k {
      CouldBeIff(text[i..]);
      OpeningChars(text[i..][1..]);
    }
  }

  // Nor does another bracket prefix that is partial at the end.
  lemma ControlTailIsShort(text: string, p: string, k: nat, q: string)
    requires IsControl(p) && IsControl(q) && Occurs(text, p, k)
    ensures PartialPrefixLen(text, q) < |text| - k
  {
    hide IsControl, PartialPrefixLen;
    ControlChars(p);
    ControlChars(q);
    var n := PartialPrefixLen(text, q);
    if n >= |text| - k {
      var a := |text| - n;
      assert forall j :: 0 <= j < n ==> text[a + j] == text[a..][j] == q[j];
      assert forall j :: 0 <= j < |p| ==> text[k + j] == text[k..k + |p|][j] == p[j];
      assert text[a + (k - a)] == q[k - a] && text[k] == p[0];
      assert a == k;
      assert p[1] == text[k + 1] == q[1];
      ControlsDiffer(p, q);
    }
  }

  // The start of a call of which not even the prefix is complete.
  lemma PartialIsPending(text: string, p: string, k: nat)
    requires IsControl(p) && k < |text| < k + |p| && text[k..] == p[..|text| - k]
    ensures Pending(text, k)
  {
    hide IsControl;
    ControlChars(p);
    assert forall t :: k < t < |text| ==> text[t] == text[k..][t - k] == p[t - k];
    forall q: string, j: nat | IsControl(q) && Occurs(text, q, j)
      ensures j <= k
    {
      ControlChars(q);
      assert text[j..j + |q|][0] == text[j];
    }
  }

  // Its bracket prefix complete, the hold is to the last bracket prefix, unless a "]" has
  // come since.
  lemma OpenBracketIs(text: string, p: string, k: nat)
    requires IsControl(p) && Occurs(text, p, k)
    ensures OpenBracket(text) == |text| - k <==> Pending(text, k)
    ensures OpenBracket(text) <= |text| - k
  {
    hide LastIndex, Occurs;
    var a, b := LastIndex(text, CALLING_TOOL), LastIndex(text, TOOL_CALL);
    var last := if b > a then b else a;
    LastIndexIsLast(text, p, k);
    assert last >= k;
    assert k < |text| by {
      assert Occurs(text, p, k);
      ControlFits(text, p, k);
    }
    if Pending(text, k) {
      assert last == k;
    }
    if last == k && ']' !in text[k..] {
      forall q: string, j: nat | IsControl(q) && Occurs(text, q, j)
        ensures j <= k
      {
        LastIndexIsLast(text, q, j);
      }
    }
  }

  lemma ControlFits(text: string, p: string, k: nat)
    requires IsControl(p) && Occurs(text, p, k)
    ensures k + 2 <= |text| && text[k] == '['
  {
    assert text[k..k + |p|][0] == text[k];
  }

  lemma OccursAt(text: string, p: string, k: nat)
    requires k + |p| <= |text| && text[k..k + |p|] == p
    ensures Occurs(text, p, k)
  {
  }

  lemma CallStarts(s: string)
    requires BracketLen(s).Some?
    ensures CALLING_TOOL <= s || TOOL_CALL <= s
  {
  }

  // For every text, and every bracket call that starts in it and that later text makes
  // whole: its start is held back exactly when neither a "]" nor a further bracket prefix
  // has come after it, or a registered marker happens to reach back to it; and none does
  // that holds no "[".
  lemma BracketHeldIff(m: Markers, text: string, later: string, k: nat)
    requires m.Valid() && k < |text| && BracketLen((text + later)[k..]).Some?
    ensures |text| - PartialSuffixLen(m, text) <= k <==> Pending(text, k) || Covered(m, text, k)
    ensures (forall i :: 0 <= i < |m.Opens()| - 2 ==> '[' !in m.Opens()[i]) ==> !Covered(m, text, k)
  {
    hide BracketLen, PartialPrefixLen, PartialSuffixLen, OpenBracket, Occurs;
    var whole := text + later;
    CallStarts(whole[k..]);
    var p := if CALLING_TOOL <= whole[k..] then CALLING_TOOL else TOOL_CALL;
    assert whole[k] == p[0];
    assert text[k] == '[';
    var n := |text| - k;
    if n < |p| {
      assert text[k..] == whole[k..][..n] == p[..n];
      PartialIsPending(text, p, k);
      PartialHeld(m, text, p, n);
    } else {
      assert text[k..k + |p|] == whole[k..][..|p|];
      assert Occurs(text, p, k) by {
        OccursAt(text, p, k);
      }
      WholeHeldIff(m, text, p, k);
    }
    if Covered(m, text, k) {
      var i :| 0 <= i < |m.Opens()| - 2 && PartialPrefixLen(text, m.Opens()[i]) >= n;
      var marker := m.Opens()[i];
      var q := PartialPrefixLen(text, marker);
      assert marker[..q][q - n] == text[|text| - q..][q - n] == text[k];
    }
  }

  lemma PartialHeld(m: Markers, text: string, p: string, n: nat)
    requires m.Valid() && IsControl(p) && n <= |text| && n < |p| && text[|text| - n..] == p[..n]
    ensures n <= PartialSuffixLen(m, text)
  {
    hide PartialPrefixLen, OpenBracket, NamespacedTail, MaxPartial;
    var i := if p == CALLING_TOOL then |m.Opens()| - 2 else |m.Opens()| - 1;
    assert m.Opens()[i] == p;
    PartialPrefixIsLongest(text, p, n);
    assert n <= MaxPartial(text, m.Opens());
  }

  lemma WholeHeldIff(m: Markers, text: string, p: string, k: nat)
    requires m.Valid() && IsControl(p) && Occurs(text, p, k)
    ensures |text| - PartialSuffixLen(m, text) <= k <==> Pending(text, k) || Covered(m, text, k)
  {
    hide PartialPrefixLen, OpenBracket, NamespacedTail, MaxPartial, Pending, IsControl, Occurs;
    OpenBracketIs(text, p, k);
    ControlFits(text, p, k);
    TagTailIsShort(text, k);
    var n := |text| - k;
    if MaxPartial(text, m.Opens()) >= n {
      SomePartial(text, m.Opens(), n);
      var i :| 0 <= i < |m.Opens()| && PartialPrefixLen(text, m.Opens()[i]) >= n;
      OnlyRegistered(m, text, p, k, i);
    }
  }

  lemma OnlyRegistered(m: Markers, text: string, p: string, k: nat, i: nat)
    requires m.Valid() && IsControl(p) && Occurs(text, p, k)
    requires i < |m.Opens()| && PartialPrefixLen(text, m.Opens()[i]) >= |text| - k
    ensures i < |m.Opens()| - 2
  {
    hide PartialPrefixLen, Occurs;
    ControlTailIsShort(text, p, k, CALLING_TOOL);
    ControlTailIsShort(text, p, k, TOOL_CALL);
  }

  // The registered case of the source's own markers: nothing reaches back over a "[".
  lemma BuiltinsHoldNoBracket(m: Markers)
    requires m == NewMarkers("", "")
    ensures |m.Opens()| == 3 && forall i :: 0 <= i < |m.Opens()| - 2 ==> '[' !in m.Opens()[i]
  {
  }

  lemma EndChar(text: string, marker: string, n: nat)
    requires 0 < n <= |text| && n <= |marker| && EndsWithPrefix(text, marker, n)
    ensures text[|text| - 1] in marker
  {
    assert text[|text| - n..][n - 1] == marker[..n][n - 1];
  }

  lemma NoPartialAtEnd(text: string, marker: string)
    requires marker != "" && text != "" && text[|text| - 1] !in marker
    ensures PartialPrefixLen(text, marker) == 0
  {
    hide PartialPrefixLen;
    var n := PartialPrefixLen(text, marker);
    if n > 0 {
      EndChar(text, marker, n);
    }
  }

  lemma ClosedBracket(text: string)
    requires text != "" && text[|text| - 1] == ']'
    ensures OpenBracket(text) == 0
  {
    hide LastIndex;
    assert forall j :: 0 <= j < |text| ==> text[j..][|text| - 1 - j] == ']';
  }

  // A "]" at the end of the text ends every hold.
  lemma NothingHeld(m: Markers, text: string)
    requires m == NewMarkers("", "")
    requires text != "" && text[|text| - 1] == ']' && '<' !in text
    ensures PartialSuffixLen(m, text) == 0
  {
    hide PartialPrefixLen, MaxPartial, LastIndex, OpenBracket;
    NoLess(text);
    ClosedBracket(text);
    var opens := m.Opens();
    assert opens == ["<tool_call>", CALLING_TOOL, TOOL_CALL];
    forall i | 0 <= i < |opens|
      ensures PartialPrefixLen(text, opens[i]) == 0
    {
      NoPartialAtEnd(text, opens[i]);
    }
    if MaxPartial(text, opens) > 0 {
      SomePartial(text, opens, 1);
    }
  }

  // A call whose arguments hold an array, cut after the array's bracket: both halves are
  // emitted as they are, although the call is suppressed when it comes in one piece.
  lemma CallWithArrayLeaks(m: Markers)
    requires m == NewMarkers("", "")
    ensures var s, a, b := State("", None, false), CALLING_TOOL + "f({1]", "})]";
            Fed(m, s, a) == (s, a) && Fed(m, s, b) == (s, b) && Fed(m, s, a + b) == (s, "")
  {
    hide Fed;
    FirstHalf(m);
    SecondHalf(m);
    CallSuppressed(m, CALLING_TOOL + "f({1]" + "})]");
  }

  lemma FirstHalf(m: Markers)
    requires m == NewMarkers("", "")
    ensures Fed(m, State("", None, false), CALLING_TOOL + "f({1]") == (State("", None, false), CALLING_TOOL + "f({1]")
  {
    hide Fed, FindStart;
    NotYetACall(m);
    EmittedCall(m, "f({1]");
  }

  lemma EmittedCall(m: Markers, rest: string)
    requires m == NewMarkers("", "") && rest != "" && rest[|rest| - 1] == ']' && '<' !in rest
    requires FindStart(m, CALLING_TOOL + rest).None?
    ensures Fed(m, State("", None, false), CALLING_TOOL + rest) == (State("", None, false), CALLING_TOOL + rest)
  {
    hide Fed, FindStart;
    EmittedWhole(m, CALLING_TOOL + rest);
  }

  lemma SecondHalf(m: Markers)
    requires m == NewMarkers("", "")
    ensures Fed(m, State("", None, false), "})]") == (State("", None, false), "})]")
  {
    hide Fed;
    NoEnvelope(m, "})]");
    EmittedWhole(m, "})]");
  }

  lemma CallSuppressed(m: Markers, text: string)
    requires m == NewMarkers("", "") && text == CALLING_TOOL + "f({1]" + "})]"
    ensures Fed(m, State("", None, false), text) == (State("", None, false), "")
  {
    hide FindStart, Drain;
    NowACall(m, text);
    assert "" + text == text;
    var s := State(text, None, false);
    DrainStep(m, s, "");
    assert text[|text|..] == "" && "" + "" == "";
    assert Opened(s, Start(0, |text|, "", false)) == State("", None, false) && Prose(text, 0) == "";
    DrainNothing(m, State("", None, false), "");
  }

  lemma EmittedWhole(m: Markers, text: string)
    requires m == NewMarkers("", "")
    requires text != "" && text[|text| - 1] == ']' && '<' !in text
    requires FindStart(m, text).None?
    ensures Fed(m, State("", None, false), text) == (State("", None, false), text)
  {
    hide FindStart, Drain, PartialSuffixLen;
    NothingHeld(m, text);
    assert "" + text == text;
    DrainStep(m, State(text, None, false), "");
    assert text[|text|..] == "" && "" + text[..|text|] == text;
  }

  lemma {:induction false} NoTagWithoutLess(s: string)
    requires '<' !in s
    ensures FindNamespaced(s).None?
  {
    if s != "" {
      NoTagWithoutLess(s[1..]);
    }
  }

  // Without a "<" only bracket calls are envelopes.
  lemma OnlyBrackets(m: Markers, s: string)
    requires m == NewMarkers("", "") && '<' !in s
    ensures AllStarts(m, s) == BracketStarts(s, CALLING_TOOL, 0) + BracketStarts(s, TOOL_CALL, 0)
  {
    hide FindNamespaced, BracketStarts, Index;
    NotContained(s, "<tool_call>");
    NoTagWithoutLess(s);
    assert m.pairs[1..] == [] && PairStarts(s, []) == [];
    assert PairStarts(s, m.pairs) == [];
  }

  lemma NoEnvelope(m: Markers, s: string)
    requires m == NewMarkers("", "") && '<' !in s && '[' !in s
    ensures FindStart(m, s).None?
  {
    hide AllStarts, Index;
    OnlyBrackets(m, s);
    assert s[0..] == s;
    NotContained(s, CALLING_TOOL);
    NotContained(s, TOOL_CALL);
    BracketStep(s, CALLING_TOOL, 0);
    BracketStep(s, TOOL_CALL, 0);
  }

  // The bracket calls in a text of which only the first character is a "[".
  lemma OneBracket(m: Markers, s: string, rest: string)
    requires m == NewMarkers("", "") && s == CALLING_TOOL + rest && '<' !in rest && '[' !in rest
    ensures AllStarts(m, s) == if BracketLen(s).Some? then [Start(0, BracketLen(s).value, "", false)] else []
  {
    hide AllStarts, BracketLen, Index, BracketStarts;
    OnlyBrackets(m, s);
    assert s[0..] == s && s[1..] == CALLING_TOOL[1..] + rest;
    NotContained(s[1..], CALLING_TOOL);
    NotContained(s[1..], TOOL_CALL);
    FirstIndex(s);
    BracketStep(s, CALLING_TOOL, 0);
    BracketStep(s, CALLING_TOOL, 1);
    BracketStep(s, TOOL_CALL, 0);
  }

  lemma FirstIndex(s: string)
    requires CALLING_TOOL <= s && Index(s[1..], TOOL_CALL) == -1
    ensures Index(s, CALLING_TOOL) == 0 && Index(s, TOOL_CALL) == -1
  {
    assert s[1] == CALLING_TOOL[1];
  }

  // The text of a call to "f" with arguments that start with "({".
  lemma CallToF(s: string, rest: string)
    requires s == CALLING_TOOL + ("f({" + rest)
    ensures BracketLen(s) ==
              var k := Index(rest, "})]");
              if k < 0 then None else Some(|CALLING_TOOL| + 3 + k + 3)
  {
    hide Index;
    var call := "f({" + rest;
    var p := |CALLING_TOOL|;
    assert s[p..] == call && call[1..] == "({" + rest;
    assert CALLING_TOOL <= s;
    assert NameTail(call[1..]) == 0;
    assert SpaceLen(s[p..]) == 0 && NameLen(s[p + 0..]) == 1;
    assert s[p + 1..] == "({" + rest;
    assert s[p + 1 + 2..] == rest;
  }

  lemma NotYetACall(m: Markers)
    requires m == NewMarkers("", "")
    ensures FindStart(m, CALLING_TOOL + "f({1]").None?
  {
    hide AllStarts, BracketLen;
    OneBracket(m, CALLING_TOOL + "f({1]", "f({1]");
    assert "f({" + "1]" == "f({1]";
    CallToF(CALLING_TOOL + "f({1]", "1]");
    NotContained("1]", "})]");
  }

  lemma NowACall(m: Markers, s: string)
    requires m == NewMarkers("", "") && s == CALLING_TOOL + "f({1]" + "})]"
    ensures FindStart(m, s) == Some(Start(0, |s|, "", false))
  {
    hide AllStarts, BracketLen;
    assert "f({" + "1]})]" == "f({1]})]" && "f({1]" + "})]" == "f({1]})]";
    Associative(CALLING_TOOL, "f({1]", "})]");
    OneBracket(m, s, "f({1]})]");
    CallToF(s, "1]})]");
    IndexAfter("1]", "})]", "");
    assert "1]" + ("})]" + "") == "1]})]";
  }

  // ---------------------------------------------------------------------------
  // Namespaced tags

  function Tag(name: string): string {
    "<" + name + NAMESPACE_END
  }

  predicate TagAt(s: string, name: string, k: nat) {
    IsName(name) && Occurs(s, Tag(name), k)
  }

  lemma NamePart(s: string)
    requires NameLen(s) > 0
    ensures IsName(s[..NameLen(s)])
  {
    NameTailChars(s[1..]);
    var name := s[..NameLen(s)];
    assert forall j :: 0 < j < |name| ==> name[j] == s[1..][j - 1];
    IsNameIff(name);
  }

  // What is found is a tag, and no tag starts earlier.
  lemma {:induction false} FoundTag(s: string)
    requires FindNamespaced(s).Some?
    ensures TagAt(s, FindNamespaced(s).value.name, FindNamespaced(s).value.idx)
  {
    hide NameLen, TagAt;
    var n := NameLen(s[1..]);
    if s[0] == '<' && n > 0 && NAMESPACE_END <= s[1 + n..] {
      NamedTag(s, n);
    } else {
      FoundTag(s[1..]);
      var found := FindNamespaced(s[1..]).value;
      TagLater(s, found.name, found.idx);
    }
  }

  lemma NamedTag(s: string, n: nat)
    requires s != "" && s[0] == '<' && n == NameLen(s[1..]) > 0 && NAMESPACE_END <= s[1 + n..]
    ensures TagAt(s, s[1..1 + n], 0)
  {
    NamePart(s[1..]);
    assert s[1..][..n] == s[1..1 + n];
    hide IsName;
    var rest := s[1 + n..];
    assert s == "<" + s[1..1 + n] + rest;
    assert rest == NAMESPACE_END + rest[|NAMESPACE_END|..];
    assert s[0..n + 1] == "<" + s[1..1 + n];
  }

  lemma TagLater(s: string, name: string, k: nat)
    requires s != "" && TagAt(s[1..], name, k)
    ensures TagAt(s, name, k + 1)
  {
    hide IsName;
    var tag := Tag(name);
    assert s[1..][k..k + |tag|] == s[k + 1..k + 1 + |tag|];
  }

  lemma TagStarts(s: string, name: string)
    requires TagAt(s, name, 0)
    ensures s != "" && s[0] == '<' && NameLen(s[1..]) == |name| > 0 && NAMESPACE_END <= s[1 + |name|..]
  {
    var rest := s[|Tag(name)|..];
    assert s == Tag(name) + rest;
    assert s[1..] == name + (NAMESPACE_END + rest);
    NameLenIs(name, NAMESPACE_END + rest);
    assert s[1 + |name|..] == NAMESPACE_END + rest;
  }

  lemma {:induction false} TagIsFound(s: string, name: string, k: nat)
    requires TagAt(s, name, k)
    ensures FindNamespaced(s).Some? && FindNamespaced(s).value.idx <= k
  {
    hide NameLen, IsName;
    if k == 0 {
      TagStarts(s, name);
    } else {
      assert s[1..][k - 1..k - 1 + |Tag(name)|] == s[k..k + |Tag(name)|];
      TagIsFound(s[1..], name, k - 1);
    }
  }

  // The start of a tag, cut anywhere.
  lemma CutTagOpens(name: string, n: nat)
    requires IsName(name) && 0 < n < |Tag(name)|
    ensures CouldBePartialNamespacedOpen(Tag(name)[..n])
  {
    hide IsName, Ending;
    var body := Tag(name)[..n][1..];
    IsNameIff(name);
    if n > 1 {
      if n - 1 <= |name| {
        assert body == name[..n - 1];
        IsNameIff(body);
      } else {
        var end := NAMESPACE_END[..n - 1 - |name|];
        assert body == name + end;
        assert body[..|name|] == name && body[|name|..] == end;
        EndingStarts(n - 1 - |name|);
      }
    }
    CouldBeIff(Tag(name)[..n]);
  }

  lemma EndingStarts(n: nat)
    requires 0 < n < |NAMESPACE_END|
    ensures Ending(NAMESPACE_END[..n])
  {
  }

  lemma TagHasOneLess(name: string, n: nat)
    requires IsName(name) && 0 < n <= |Tag(name)|
    ensures Tag(name)[..n][0] == '<' && '<' !in Tag(name)[..n][1..]
  {
    NonEmptyName(name);
    var s := Tag(name)[..n][1..];
    assert forall j :: 0 <= j < |s| ==> s[j] == Tag(name)[j + 1] == (name + NAMESPACE_END)[j];
  }

  // A tag that starts in text and runs past its end is its whole partial tag.
  lemma TagStraddles(text: string, later: string, name: string, k: nat)
    requires TagAt(text + later, name, k) && k < |text| < k + |Tag(name)|
    ensures NamespacedTail(text) == |text| - k
  {
    hide IsName, CouldBePartialNamespacedOpen, LastIndex;
    var n := |text| - k;
    var tag := Tag(name);
    assert text[k..] == (text + later)[k..k + |tag|][..n] == tag[..n];
    CutTagOpens(name, n);
    TagHasOneLess(name, n);
    assert text[k] == text[k..][0] && text[k + 1..] == text[k..][1..];
    LastLess(text, k);
  }

  // And every partial tag can be made whole.
  lemma TagCompletes(text: string) returns (later: string, name: string)
    requires NamespacedTail(text) > 0
    ensures TagAt(text + later, name, |text| - NamespacedTail(text))
    ensures NamespacedTail(text) < |Tag(name)|
  {
    hide IsName, CouldBePartialNamespacedOpen, LastIndex, Ending, Opening;
    var k := |text| - NamespacedTail(text);
    var candidate := text[k..];
    CouldBeIff(candidate);
    assert candidate == "<" + candidate[1..];
    later, name := OpeningCompletes(candidate[1..]);
    assert text + later == text[..k] + ("<" + (candidate[1..] + later));
    assert Tag(name) == "<" + (candidate[1..] + later);
    assert (text + later)[k..k + |Tag(name)|] == Tag(name);
  }

  lemma OpeningCompletes(body: string) returns (later: string, name: string)
    requires Opening(body)
    ensures IsName(name) && later != "" && body + later == name + NAMESPACE_END
  {
    hide IsName, Ending;
    if body == "" {
      later, name := "a" + NAMESPACE_END, "a";
      IsNameIff("a");
    } else if IsName(body) {
      later, name := NAMESPACE_END, body;
    } else {
      var n :| 0 < n < |body| && IsName(body[..n]) && Ending(body[n..]);
      EndingCompletes(body[n..]);
      later, name := NAMESPACE_END[|body| - n..], body[..n];
      assert body == body[..n] + body[n..];
    }
  }

  lemma EndingCompletes(s: string)
    requires Ending(s)
    ensures |s| < |NAMESPACE_END| && s + NAMESPACE_END[|s|..] == NAMESPACE_END
  {
  }

  lemma NoTagComplete(m: Markers, text: string, name: string, k: nat)
    requires m.Valid() && FindStart(m, text).None?
    ensures !TagAt(text, name, k)
  {
    hide PairStarts, BracketStarts, AfterStarts, IsName, FindNamespaced;
    if TagAt(text, name, k) {
      TagIsFound(text, name, k);
    }
  }

  // A namespaced tag that starts in a text in which no envelope is found, and is completed
  // later, is held back exactly when at most KEEP_CAP characters of it are there or an
  // unresolved bracket call lifts the cap.
  lemma TagHeldIff(m: Markers, text: string, later: string, name: string, k: nat)
    requires m.Valid() && FindStart(m, text).None? && TagAt(text + later, name, k) && k < |text|
    ensures |text| - PartialSuffixLen(m, text) <= k <==> |text| - k <= KEEP_CAP || OpenBracket(text) > 0
  {
    hide FindStart, MaxPartial, NamespacedTail, OpenBracket, IsName;
    NoTagComplete(m, text, name, k);
    if k + |Tag(name)| <= |text| {
      OccursBefore(text, later, Tag(name), k);
      assert false;
    }
    TagStraddles(text, later, name, k);
  }

  // Some later text completes a tag that starts in the first `emitted` characters of text.
  ghost predicate TagCompletable(text: string, emitted: nat) {
    exists later: string, name: string, k: nat ::
      k < emitted && |text| < k + |Tag(name)| && TagAt(text + later, name, k)
  }

  // So emitting all but the kept tail gives away the start of a tag exactly when more than
  // KEEP_CAP characters of one are already there and no bracket call is unresolved.
  lemma TagHoldIsExact(m: Markers, text: string)
    requires m.Valid()
    ensures TagCompletable(text, |text| - PartialSuffixLen(m, text))
       <==> NamespacedTail(text) > KEEP_CAP && OpenBracket(text) == 0
  {
    hide MaxPartial, NamespacedTail, OpenBracket, TagAt;
    var emitted := |text| - PartialSuffixLen(m, text);
    if TagCompletable(text, emitted) {
      var later: string, name: string, k: nat :|
        k < emitted && |text| < k + |Tag(name)| && TagAt(text + later, name, k);
      TagStraddles(text, later, name, k);
    }
    if NamespacedTail(text) > KEEP_CAP && OpenBracket(text) == 0 {
      var later, name := TagCompletes(text);
    }
  }

  // ---------------------------------------------------------------------------
  // Nothing else is held

  // Later text completes the tag that the last n characters start.
  predicate GoesOn(text: string, later: string, name: string, n: nat) {
    n <= |text| && TagAt(text + later, name, |text| - n)
  }

  // Why the last n characters of text are held back: they start a marker, or a tag, or they
  // are an unresolved bracket call, or a longer start of a marker or tag is cut to the cap.
  ghost predicate IsReason(m: Markers, text: string, n: nat)
    requires n <= |text|
  {
    || (exists i :: 0 <= i < |m.Opens()| && n < |m.Opens()[i]| && text[|text| - n..] == m.Opens()[i][..n])
    || (exists later: string, name: string :: GoesOn(text, later, name, n))
    || (']' !in text[|text| - n..] && exists p: string :: IsControl(p) && Occurs(text, p, |text| - n))
  }

  lemma HoldsOnlyStarts(m: Markers, text: string)
    requires m.Valid() && PartialSuffixLen(m, text) > 0
    ensures var n := PartialSuffixLen(m, text);
            IsReason(m, text, n) || (n == KEEP_CAP && exists k :: n < k <= |text| && IsReason(m, text, k))
  {
    hide MaxPartial, NamespacedTail, OpenBracket, IsReason;
    var n := PartialSuffixLen(m, text);
    var a, b, c := MaxPartial(text, m.Opens()), NamespacedTail(text), OpenBracket(text);
    if a > 0 {
      MarkerReason(m, text, a);
    }
    if b > 0 {
      TagReason(m, text);
    }
    if c > 0 {
      BracketReason(m, text);
    }
  }

  lemma MarkerReason(m: Markers, text: string, n: nat)
    requires m.Valid() && 0 < n <= |text| && n == MaxPartial(text, m.Opens())
    ensures IsReason(m, text, n)
  {
    hide PartialPrefixLen, MaxPartial, GoesOn;
    SomePartial(text, m.Opens(), n);
    var i :| 0 <= i < |m.Opens()| && PartialPrefixLen(text, m.Opens()[i]) >= n;
    assert PartialPrefixLen(text, m.Opens()[i]) == n;
  }

  lemma TagReason(m: Markers, text: string)
    requires NamespacedTail(text) > 0
    ensures IsReason(m, text, NamespacedTail(text))
  {
    hide NamespacedTail, TagAt;
    var later, name := TagCompletes(text);
    assert GoesOn(text, later, name, NamespacedTail(text));
  }

  lemma BracketReason(m: Markers, text: string)
    requires OpenBracket(text) > 0
    ensures IsReason(m, text, OpenBracket(text))
  {
    hide LastIndex, GoesOn;
    var a, b := LastIndex(text, CALLING_TOOL), LastIndex(text, TOOL_CALL);
    var p := if b > a then TOOL_CALL else CALLING_TOOL;
    assert IsControl(p) && Occurs(text, p, |text| - OpenBracket(text));
  }
}
