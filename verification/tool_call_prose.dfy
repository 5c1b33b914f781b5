// What the filter's sanitizing of prose keeps, and when it lets an unresolved bracket
// prefix through (api/tool_call_stream_filter.go).
module ToolCallProse {
  import opened Text
  import opened ToolCallFilter
  import opened Wrappers

  lemma {:induction false} SanitizedIsSubseq(clean: string, done: string, text: string)
    requires IsSubseq(clean, done)
    ensures IsSubseq(Sanitized(clean, text), done + text)
    decreases |text|
  {
    hide Index, FirstBracket, IsSubseq;
    var f := FirstBracket(text);
    if f.None? {
      SubseqRefl(text);
      SubseqJoin(clean, done, text, text);
    } else {
      var (i, n) := f.value;
      var close := Index(text[i + n..], "]");
      if close < 0 {
        SliceSubseq(text, 0, i, i + n);
        SubseqStep(clean, done, text[..i], text, i + n);
        SanitizedIsSubseq(clean + text[..i], done + text[..i + n], text[i + n..]);
      } else {
        var end := i + n + close + 1;
        SliceSubseq(text, 0, end, end);
        SubseqStep(clean, done, text[..end], text, end);
        assert clean + text[..i] + text[i..end] == clean + text[..end];
        SanitizedIsSubseq(clean + text[..end], done + text[..end], text[end..]);
      }
    }
  }

  lemma ProseIsSubseq(buffer: string, idx: nat)
    requires idx <= |buffer|
    ensures IsSubseq(Prose(buffer, idx), buffer[..idx])
  {
    hide Sanitized, IsSubseq;
    EmptySubseq("");
    EmptySubseq(buffer[..idx]);
    SanitizedIsSubseq("", "", buffer[..idx]);
    assert "" + buffer[..idx] == buffer[..idx];
  }

  // ---------------------------------------------------------------------------
  // What sanitizing achieves

  predicate IsControl(p: string) {
    p == CALLING_TOOL || p == TOOL_CALL
  }

  // A bracket prefix that no "]" follows.
  ghost predicate Unresolved(s: string) {
    exists p: string, k: nat :: UnresolvedAt(s, p, k)
  }

  predicate UnresolvedAt(s: string, p: string, k: nat) {
    IsControl(p) && Occurs(s, p, k) && ']' !in s[k..]
  }

  // a ends with the first j characters of p, and b starts with the others.
  predicate Splits(p: string, j: nat, a: string, b: string) {
    IsControl(p) && 0 < j < |p| && j <= |a| && a[|a| - j..] == p[..j] && p[j..] <= b
  }

  ghost predicate Bridges(a: string, b: string) {
    exists p: string, j: nat :: Splits(p, j, a, b)
  }

  // Without its bracket prefixes, rest starts with need.
  predicate Completes(need: string, rest: string)
    decreases |rest|
  {
    var f := FirstBracket(rest);
    if f.None? then need <= rest
    else
      var (i, n) := f.value;
      if |need| <= i then need <= rest[..i]
      else rest[..i] <= need && Completes(need[i..], rest[i + n..])
  }

  // a ends with the first j characters of p, and rest without its bracket prefixes starts
  // with the others.
  predicate Halves(p: string, j: nat, a: string, rest: string) {
    IsControl(p) && 0 < j < |p| && j <= |a| && a[|a| - j..] == p[..j] && Completes(p[j..], rest)
  }

  ghost predicate Rejoins(a: string, rest: string) {
    exists p: string, j: nat :: Halves(p, j, a, rest)
  }

  // Some prefix that no "]" follows stands inside another one: what is before it and what
  // comes after it, without further prefixes, make up a bracket prefix.
  ghost predicate Spliced(text: string)
    decreases |text|
  {
    var f := FirstBracket(text);
    if f.None? then false
    else
      var (i, n) := f.value;
      var close := Index(text[i + n..], "]");
      if close < 0 then Rejoins(text[..i], text[i + n..]) || Spliced(text[i + n..])
      else Spliced(text[i + n + close + 1..])
  }

  // Some dropped prefix comes right after the start of a bracket prefix.
  ghost predicate DropsAfterStart(text: string)
    decreases |text|
  {
    var f := FirstBracket(text);
    if f.None? then false
    else
      var (i, n) := f.value;
      var close := Index(text[i + n..], "]");
      if close < 0 then EndsInStart(text[..i]) || DropsAfterStart(text[i + n..])
      else DropsAfterStart(text[i + n + close + 1..])
  }

  ghost predicate EndsInStart(a: string) {
    exists p: string, j: nat :: Splits(p, j, a, if j <= |p| then p[j..] else "")
  }

  lemma FirstBracketIsFirst(text: string, p: string, k: nat)
    requires IsControl(p) && Occurs(text, p, k)
    ensures FirstBracket(text).Some? && FirstBracket(text).value.0 <= k
  {
    hide Index, Occurs;
    IndexIsFirst(text, p, k);
  }

  // What is already clean does not change the scan.
  lemma {:induction false} SanitizedPrepends(x: string, clean: string, text: string)
    ensures Sanitized(x + clean, text) == x + Sanitized(clean, text)
    decreases |text|
  {
    hide Index, FirstBracket;
    var f := FirstBracket(text);
    if f.None? {
      assert x + clean + text == x + (clean + text);
    } else {
      var (i, n) := f.value;
      var close := Index(text[i + n..], "]");
      if close < 0 {
        assert x + clean + text[..i] == x + (clean + text[..i]);
        SanitizedPrepends(x, clean + text[..i], text[i + n..]);
      } else {
        var kept := text[i..i + n + close + 1];
        assert x + clean + text[..i] + kept == x + (clean + text[..i] + kept);
        SanitizedPrepends(x, clean + text[..i] + kept, text[i + n + close + 1..]);
      }
    }
  }

  // One turn of the scan: a dropped prefix, and one that is kept.
  lemma DropTurn(clean: string, text: string, i: nat, n: nat)
    requires FirstBracket(text) == Some((i, n)) && Index(text[i + n..], "]") < 0
    ensures Sanitized(clean, text) == Sanitized(clean + text[..i], text[i + n..])
  {
    hide Index, FirstBracket;
  }

  lemma KeepTurn(clean: string, text: string, i: nat, n: nat, close: nat)
    requires FirstBracket(text) == Some((i, n)) && Index(text[i + n..], "]") == close
    requires i + n + close + 1 <= |text|
    ensures Sanitized(clean, text) == Sanitized(clean + text[..i] + text[i..i + n + close + 1], text[i + n + close + 1..])
  {
    hide Index, FirstBracket;
  }

  lemma LastTurn(clean: string, text: string)
    requires FirstBracket(text).None?
    ensures Sanitized(clean, text) == clean + text
  {
    hide FirstBracket;
  }

  // A turn, in front of what the rest of the scan leaves.
  lemma SanitizedStep(text: string)
    ensures var f := FirstBracket(text);
            if f.None? then Sanitized("", text) == text
            else
              var (i, n) := f.value;
              var close := Index(text[i + n..], "]");
              Sanitized("", text)
                == if close < 0 then text[..i] + Sanitized("", text[i + n..])
                   else text[..i + n + close + 1] + Sanitized("", text[i + n + close + 1..])
  {
    hide Index, FirstBracket, Sanitized;
    var f := FirstBracket(text);
    if f.None? {
      LastTurn("", text);
      assert "" + text == text;
    } else {
      var (i, n) := f.value;
      var close := Index(text[i + n..], "]");
      if close < 0 {
        DropTurn("", text, i, n);
        MovesOut(text[..i], text[i + n..]);
      } else {
        KeepTurn("", text, i, n, close);
        MovesOutTwice(text, i, i + n + close + 1);
      }
    }
  }

  lemma MovesOut(piece: string, rest: string)
    ensures Sanitized("" + piece, rest) == piece + Sanitized("", rest)
  {
    hide Sanitized;
    assert "" + piece == piece + "";
    SanitizedPrepends(piece, "", rest);
  }

  lemma MovesOutTwice(text: string, i: nat, m: nat)
    requires i <= m <= |text|
    ensures Sanitized("" + text[..i] + text[i..m], text[m..]) == text[..m] + Sanitized("", text[m..])
  {
    hide Sanitized;
    assert "" + text[..i] + text[i..m] == "" + text[..m];
    MovesOut(text[..m], text[m..]);
  }

  // An occurrence in a + b lies in a, in b, or across.
  lemma OccursBefore(a: string, b: string, p: string, k: nat)
    requires Occurs(a + b, p, k) && k + |p| <= |a|
    ensures Occurs(a, p, k)
  {
    assert a[k..k + |p|] == (a + b)[k..k + |p|];
  }

  lemma OccursAfter(a: string, b: string, p: string, k: nat)
    requires Occurs(a + b, p, k) && k >= |a|
    ensures Occurs(b, p, k - |a|) && (a + b)[k..] == b[k - |a|..]
  {
    assert b[k - |a|..k - |a| + |p|] == (a + b)[k..k + |p|];
  }

  lemma OccursAcross(a: string, b: string, p: string, k: nat)
    requires Occurs(a + b, p, k) && k < |a| < k + |p|
    ensures a[k..] == p[..|a| - k] && p[|a| - k..] <= b
  {
    var j, slice := |a| - k, (a + b)[k..k + |p|];
    assert slice == p;
    assert a[k..] == slice[..j];
    assert b[..|p| - j] == slice[j..];
  }

  lemma JoinOccurs(a: string, b: string, p: string, j: nat)
    requires j <= |a| && j <= |p| && a[|a| - j..] == p[..j] && p[j..] <= b
    ensures Occurs(a + b, p, |a| - j)
    ensures (a + b)[|a| - j..] == p[..j] + b
  {
    var k := |a| - j;
    assert (a + b)[k..] == p[..j] + b;
    assert p == p[..j] + p[j..];
    assert (a + b)[k..][..|p|] == p;
    assert (a + b)[k..k + |p|] == (a + b)[k..][..|p|];
  }

  lemma BridgeUnresolved(a: string, b: string, p: string, j: nat)
    requires Splits(p, j, a, b) && ']' !in b
    ensures Unresolved(a + b)
  {
    JoinOccurs(a, b, p, j);
    assert ']' !in p;
    hide Occurs;
    assert ']' !in p[..j];
    assert UnresolvedAt(a + b, p, |a| - j);
  }

  // A text in front that holds no whole bracket prefix.
  lemma UnresolvedAfterPlain(a: string, b: string)
    requires ']' !in b && forall p: string, k: nat :: IsControl(p) ==> !Occurs(a, p, k)
    ensures Unresolved(a + b) <==> Bridges(a, b) || Unresolved(b)
  {
    if Unresolved(a + b) {
      var p: string, k: nat :| UnresolvedAt(a + b, p, k);
      FromPlain(a, b, p, k);
    }
    if Bridges(a, b) {
      var p: string, j: nat :| Splits(p, j, a, b);
      BridgeUnresolved(a, b, p, j);
    }
    if Unresolved(b) {
      UnresolvedLater(a, b);
    }
  }

  lemma FromPlain(a: string, b: string, p: string, k: nat)
    requires UnresolvedAt(a + b, p, k) && !Occurs(a, p, k)
    ensures Bridges(a, b) || Unresolved(b)
  {
    hide Occurs, IsControl;
    if k >= |a| {
      OccursAfter(a, b, p, k);
      assert UnresolvedAt(b, p, k - |a|);
    } else if k + |p| <= |a| {
      OccursBefore(a, b, p, k);
    } else {
      OccursAcross(a, b, p, k);
      assert Splits(p, |a| - k, a, b);
    }
  }

  lemma UnresolvedLater(a: string, b: string)
    requires Unresolved(b)
    ensures Unresolved(a + b)
  {
    var p: string, k: nat :| UnresolvedAt(b, p, k);
    assert (a + b)[|a| + k..] == b[k..];
    assert (a + b)[|a| + k..|a| + k + |p|] == b[k..k + |p|];
    assert UnresolvedAt(a + b, p, |a| + k);
  }

  // A text in front that ends with a "]".
  lemma UnresolvedAfterBracket(a: string, b: string)
    requires a != "" && a[|a| - 1] == ']'
    ensures Unresolved(a + b) <==> Unresolved(b)
  {
    if Unresolved(a + b) {
      var p: string, k: nat :| UnresolvedAt(a + b, p, k);
      PastBracket(a, b, k);
      OccursAfter(a, b, p, k);
      assert UnresolvedAt(b, p, k - |a|);
    }
    if Unresolved(b) {
      UnresolvedLater(a, b);
    }
  }

  lemma PastBracket(a: string, b: string, k: nat)
    requires a != "" && a[|a| - 1] == ']' && k <= |a + b|
    ensures ']' !in (a + b)[k..] ==> k >= |a|
  {
    if k < |a| {
      assert (a + b)[k..][|a| - 1 - k] == ']';
    }
  }

  lemma {:induction false} SubseqOf(a: string, b: string, c: char)
    requires IsSubseq(a, b) && c !in b
    ensures c !in a
    decreases |b|
  {
    if b != "" {
      if IsSubseq(a, b[1..]) {
        SubseqOf(a, b[1..], c);
      } else {
        SubseqOf(a[1..], b[1..], c);
        assert a == [a[0]] + a[1..];
      }
    }
  }

  lemma NoBracketLeft(text: string)
    requires Index(text, "]") < 0
    ensures ']' !in Sanitized("", text)
  {
    hide Sanitized, IsSubseq;
    NoBracketIff(text);
    EmptySubseq("");
    SanitizedIsSubseq("", "", text);
    assert "" + text == text;
    SubseqOf(Sanitized("", text), text, ']');
  }

  lemma NothingAhead(text: string, i: nat)
    requires FirstBracket(text).Some? && FirstBracket(text).value.0 == i
    ensures forall p: string, k: nat :: IsControl(p) ==> !Occurs(text[..i], p, k)
  {
    hide FirstBracket;
    forall p: string, k: nat | IsControl(p)
      ensures !Occurs(text[..i], p, k)
    {
      if Occurs(text[..i], p, k) {
        assert text[k..k + |p|] == text[..i][k..k + |p|];
        FirstBracketIsFirst(text, p, k);
      }
    }
  }

  lemma BracketFound(text: string, k: nat)
    requires k < |text| && text[k] == ']'
    ensures Index(text, "]") >= 0
  {
    assert text[k..k + 1] == "]";
    IndexIsFirst(text, "]", k);
  }

  lemma NoBracketIff(text: string)
    ensures Index(text, "]") < 0 <==> ']' !in text
  {
    hide Index;
    forall k | 0 <= k < |text|
      ensures text[k] == ']' ==> Index(text, "]") >= 0
    {
      if text[k] == ']' {
        BracketFound(text, k);
      }
    }
    var k := Index(text, "]");
    assert k >= 0 ==> text[k..k + 1][0] == text[k];
  }

  lemma NoBracketAfter(text: string, from: nat)
    requires Index(text, "]") < 0 && from <= |text|
    ensures Index(text[from..], "]") < 0
  {
    hide Index;
    NoBracketIff(text);
    NoBracketIff(text[from..]);
  }

  // A text that starts with piece, and one that a piece of it starts.
  lemma StartsAfter(need: string, piece: string, rest: string)
    ensures |need| <= |piece| ==> (need <= piece + rest <==> need <= piece)
    ensures |need| > |piece| ==> (need <= piece + rest <==> piece <= need && need[|piece|..] <= rest)
  {
    if |need| <= |piece| {
      assert (piece + rest)[..|need|] == piece[..|need|];
    } else if need <= piece + rest {
      assert need == (piece + rest)[..|need|];
      assert need[..|piece|] == piece && need[|piece|..] == rest[..|need| - |piece|];
    }
  }

  // Where no "]" is left, that is how the sanitized text starts.
  lemma {:induction false} CompletesIff(need: string, rest: string)
    requires Index(rest, "]") < 0
    ensures Completes(need, rest) <==> need <= Sanitized("", rest)
    decreases |rest|
  {
    hide Index, FirstBracket, Sanitized;
    SanitizedStep(rest);
    var f := FirstBracket(rest);
    if f.Some? {
      var (i, n) := f.value;
      NoBracketAfter(rest, i + n);
      StartsAfter(need, rest[..i], Sanitized("", rest[i + n..]));
      if |need| > i {
        CompletesIff(need[i..], rest[i + n..]);
      }
    }
  }

  lemma RejoinsIff(a: string, rest: string)
    requires Index(rest, "]") < 0
    ensures Rejoins(a, rest) <==> Bridges(a, Sanitized("", rest))
  {
    hide Index, Sanitized, Completes, IsControl;
    forall p: string, j: nat | 0 < j < |p|
      ensures Completes(p[j..], rest) <==> p[j..] <= Sanitized("", rest)
    {
      CompletesIff(p[j..], rest);
    }
    if Rejoins(a, rest) {
      var p: string, j: nat :| Halves(p, j, a, rest);
      assert Splits(p, j, a, Sanitized("", rest));
    }
    if Bridges(a, Sanitized("", rest)) {
      var p: string, j: nat :| Splits(p, j, a, Sanitized("", rest));
      assert Halves(p, j, a, rest);
    }
  }

  // The prose ahead of an envelope holds an unresolved bracket prefix exactly when the text
  // has one inside another.
  lemma {:induction false} SanitizedResolvesIff(text: string)
    ensures Unresolved(Sanitized("", text)) <==> Spliced(text)
    decreases |text|
  {
    hide Index, FirstBracket, Sanitized, Unresolved, Bridges, Rejoins, Occurs;
    SanitizedStep(text);
    var f := FirstBracket(text);
    if f.None? {
      NoneUnresolved(text);
    } else {
      var (i, n) := f.value;
      var close := Index(text[i + n..], "]");
      if close < 0 {
        SanitizedResolvesIff(text[i + n..]);
        NoBracketLeft(text[i + n..]);
        NothingAhead(text, i);
        RejoinsIff(text[..i], text[i + n..]);
        UnresolvedAfterPlain(text[..i], Sanitized("", text[i + n..]));
      } else {
        EndsInBracket(text, i + n, close);
        SanitizedResolvesIff(text[i + n + close + 1..]);
        UnresolvedAfterBracket(text[..i + n + close + 1], Sanitized("", text[i + n + close + 1..]));
      }
    }
  }

  lemma NoneUnresolved(text: string)
    requires FirstBracket(text).None?
    ensures !Unresolved(text)
  {
    hide FirstBracket, Occurs;
    if Unresolved(text) {
      var p: string, k: nat :| UnresolvedAt(text, p, k);
      FirstBracketIsFirst(text, p, k);
    }
  }

  lemma EndsInBracket(text: string, from: nat, close: nat)
    requires from <= |text| && Index(text[from..], "]") == close
    ensures from + close + 1 <= |text| && text[..from + close + 1][from + close] == ']'
  {
    assert Occurs(text[from..], "]", close);
    assert text[from..][close..close + 1] == "]";
  }

  lemma {:induction false} SanitizedLength(text: string)
    ensures |Sanitized("", text)| <= |text|
    decreases |text|
  {
    hide Index, FirstBracket, Sanitized;
    SanitizedStep(text);
    var f := FirstBracket(text);
    if f.Some? {
      var (i, n) := f.value;
      var close := Index(text[i + n..], "]");
      SanitizedLength(if close < 0 then text[i + n..] else text[i + n + close + 1..]);
    }
  }

  // Nothing is dropped exactly when every bracket prefix has a "]" after it: balanced text
  // is prose.
  lemma {:induction false} SanitizedSameIff(text: string)
    ensures Sanitized("", text) == text <==> !Unresolved(text)
    decreases |text|
  {
    hide Index, FirstBracket, Sanitized, Unresolved, Occurs;
    SanitizedStep(text);
    var f := FirstBracket(text);
    if f.None? {
      NoneUnresolved(text);
    } else {
      var (i, n) := f.value;
      var close := Index(text[i + n..], "]");
      if close < 0 {
        SanitizedLength(text[i + n..]);
        DroppedIsUnresolved(text, i, n);
      } else {
        var e := i + n + close + 1;
        EndsInBracket(text, i + n, close);
        SanitizedSameIff(text[e..]);
        UnresolvedAfterBracket(text[..e], text[e..]);
        assert text[..e] + text[e..] == text;
        assert text[..e] + Sanitized("", text[e..]) == text ==> Sanitized("", text[e..]) == text[e..];
      }
    }
  }

  lemma DroppedIsUnresolved(text: string, i: nat, n: nat)
    requires FirstBracket(text) == Some((i, n)) && Index(text[i + n..], "]") < 0
    ensures Unresolved(text)
  {
    var p := if Index(text, CALLING_TOOL) == i then CALLING_TOOL else TOOL_CALL;
    assert Occurs(text, p, i) && n == |p|;
    hide Index, FirstBracket;
    NoBracketIff(text[i + n..]);
    hide Occurs;
    DroppedAt(text, p, i);
  }

  lemma DroppedAt(text: string, p: string, i: nat)
    requires IsControl(p) && Occurs(text, p, i) && i + |p| <= |text| && ']' !in text[i + |p|..]
    ensures Unresolved(text)
  {
    assert text[i..] == p + text[i + |p|..];
    assert UnresolvedAt(text, p, i);
  }

  // So it holds none when no dropped prefix comes right after the start of another.
  lemma {:induction false} SanitizedResolves(text: string)
    requires !DropsAfterStart(text)
    ensures !Spliced(text) && !Unresolved(Sanitized("", text))
    decreases |text|
  {
    hide Index, FirstBracket, Sanitized, Unresolved, Rejoins, EndsInStart;
    SanitizedResolvesIff(text);
    var f := FirstBracket(text);
    if f.Some? {
      var (i, n) := f.value;
      var close := Index(text[i + n..], "]");
      if close < 0 {
        SanitizedResolves(text[i + n..]);
        RejoinsEndInStart(text[..i], text[i + n..]);
      } else {
        SanitizedResolves(text[i + n + close + 1..]);
      }
    }
  }

  lemma RejoinsEndInStart(a: string, rest: string)
    ensures Rejoins(a, rest) ==> EndsInStart(a)
  {
    if Rejoins(a, rest) {
      var p: string, j: nat :| Halves(p, j, a, rest);
      assert Splits(p, j, a, p[j..]);
    }
  }

  // Such a text: one prefix inside another. What is let through is an unresolved prefix.
  lemma NestedPrefixSurvives()
    ensures Sanitized("", "[Call" + (CALLING_TOOL + "ing tool: x")) == "[Calling tool: x"
    ensures Unresolved("[Calling tool: x") && Spliced("[Call" + (CALLING_TOOL + "ing tool: x"))
  {
    var rest := "ing tool: x";
    var text := "[Call" + (CALLING_TOOL + rest);
    NestedIsFound(rest);
    NotContained(rest, "]");
    NotContained(rest, CALLING_TOOL);
    NotContained(rest, TOOL_CALL);
    SurvivorIsUnresolved();
    hide Index, Sanitized, Unresolved;
    assert FirstBracket(rest).None?;
    hide FirstBracket;
    SanitizedStep(text);
    SanitizedStep(rest);
    SanitizedResolvesIff(text);
  }

  lemma SurvivorIsUnresolved()
    ensures "[Call" + "ing tool: x" == "[Calling tool: x" && Unresolved("[Calling tool: x")
  {
    assert UnresolvedAt("[Calling tool: x", CALLING_TOOL, 0);
  }

  lemma NestedText(rest: string)
    requires '[' !in rest
    ensures var text := "[Call" + (CALLING_TOOL + rest);
            && text[..5] == "[Call" && text[5 + |CALLING_TOOL|..] == rest
            && Occurs(text, CALLING_TOOL, 5)
            && forall k :: 0 <= k < |text| && text[k] == '[' ==> k == 0 || k == 5
  {
    var text := "[Call" + (CALLING_TOOL + rest);
    assert text[5..] == CALLING_TOOL + rest;
    assert text[5..5 + |CALLING_TOOL|] == text[5..][..|CALLING_TOOL|] == CALLING_TOOL;
  }

  lemma OccursChar(text: string, p: string, k: nat, j: nat)
    requires Occurs(text, p, k) && j < |p|
    ensures text[k + j] == p[j]
  {
    assert text[k..k + |p|][j] == text[k + j];
  }

  // At the start and at 5 are the only brackets; neither begins the other prefix.
  lemma NestedIsFound(rest: string)
    requires '[' !in rest
    ensures var text := "[Call" + (CALLING_TOOL + rest);
            && FirstBracket(text) == Some((5, |CALLING_TOOL|))
            && text[..5] == "[Call" && text[5 + |CALLING_TOOL|..] == rest
  {
    hide Index, Occurs;
    var text := "[Call" + (CALLING_TOOL + rest);
    NestedText(rest);
    IndexIsFirst(text, CALLING_TOOL, 5);
    var i := Index(text, CALLING_TOOL);
    OccursChar(text, CALLING_TOOL, i, 0);
    OccursChar(text, CALLING_TOOL, i, 5);
    forall k
      ensures !Occurs(text, TOOL_CALL, k)
    {
      NotTheOther(text, k);
    }
    NeverOccurs(text, TOOL_CALL);
  }

  lemma NotTheOther(text: string, k: int)
    requires |text| > 6 && text[1] == 'C' && text[6] == 'C'
    requires forall j :: 0 <= j < |text| && text[j] == '[' ==> j == 0 || j == 5
    ensures !Occurs(text, TOOL_CALL, k)
  {
    if Occurs(text, TOOL_CALL, k) {
      OccursChar(text, TOOL_CALL, k, 0);
      OccursChar(text, TOOL_CALL, k, 1);
    }
  }
}
