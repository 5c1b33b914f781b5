module ToolCallEnvelope {
  // Which envelope the filter of api/tool_call_stream_filter.go finds, told from the text and
  // the markers alone, and what a whole call in a stream comes to.

  import opened Text
  import opened ToolCallChunks
  import opened ToolCallFilter
  import opened ToolCallHold
  import opened ToolCallProse
  import opened ToolCallStream
  import opened Wrappers

  // ---------------------------------------------------------------------------
  // What starts at a place

  // The first of the pairs whose opening marker is at k.
  function PairAt(s: string, pairs: seq<Pair>, k: nat): Option<Pair> {
    if pairs == [] then None
    else if Occurs(s, pairs[0].open, k) then Some(pairs[0])
    else PairAt(s, pairs[1..], k)
  }

  ghost predicate AnyTagAt(s: string, k: nat) {
    exists name: string :: TagAt(s, name, k)
  }

  predicate CallAt(s: string, k: nat) {
    k <= |s| && BracketLen(s[k..]).Some?
  }

  ghost predicate OneSidedAt(s: string, markers: seq<string>, k: nat) {
    exists i :: 0 <= i < |markers| && Occurs(s, markers[i], k)
  }

  ghost predicate StartsAt(m: Markers, s: string, k: nat) {
    PairAt(s, m.pairs, k).Some? || AnyTagAt(s, k) || CallAt(s, k) || OneSidedAt(s, m.suppressAfter, k)
  }

  // The envelope that starts at a place, by kind: a pair with its own close marker, a
  // namespaced tag with the close tag of the same name, a whole bracket call with none, or a
  // one-sided marker, after which all is suppressed.
  ghost predicate IsEnvelope(m: Markers, s: string, e: Start) {
    var k := e.idx;
    var pair := PairAt(s, m.pairs, k);
    if pair.Some? then e == Start(k, |pair.value.open|, pair.value.close, true)
    else if AnyTagAt(s, k) then
      exists name: string :: TagAt(s, name, k) && e == Start(k, |Tag(name)|, "</" + name + NAMESPACE_END, true)
    else if CallAt(s, k) then e == Start(k, BracketLen(s[k..]).value, "", false)
    else OneSidedAt(s, m.suppressAfter, k) && k <= |s| && e == Start(k, |s| - k, SUPPRESS_PERMANENTLY, true)
  }

  // ---------------------------------------------------------------------------
  // The candidates at a place

  // The candidates that start at k, in order.
  function At(starts: seq<Start>, k: nat): (r: seq<Start>)
    ensures forall x :: x in r ==> x in starts && x.idx == k
  {
    if starts == [] then []
    else (if starts[0].idx == k then [starts[0]] else []) + At(starts[1..], k)
  }

  lemma {:induction false} AtJoin(a: seq<Start>, b: seq<Start>, k: nat)
    ensures At(a + b, k) == At(a, k) + At(b, k)
  {
    if a == [] {
      assert a + b == b;
    } else {
      assert (a + b)[1..] == a[1..] + b;
      AtJoin(a[1..], b, k);
    }
  }

  lemma {:induction false} AtHas(starts: seq<Start>, k: nat, x: Start)
    requires x in starts && x.idx == k
    ensures x in At(starts, k)
  {
    if starts[0] != x {
      AtHas(starts[1..], k, x);
    }
  }

  // With nothing earlier, the first candidate at k is chosen.
  lemma {:induction false} EarliestIsFirst(starts: seq<Start>, k: nat)
    requires At(starts, k) != [] && forall x :: x in starts ==> k <= x.idx
    ensures starts != [] && Earliest(starts) == At(starts, k)[0]
    decreases |starts|
  {
    hide Earliest;
    var init, last := starts[..|starts| - 1], starts[|starts| - 1];
    assert starts == init + [last];
    AtJoin(init, [last], k);
    assert At([last], k) == if last.idx == k then [last] else [];
    if At(init, k) == [] {
      if init == [] {
        assert starts == [last];
        EarliestOne(last);
      } else {
        EarliestSnoc(init, last);
        assert Earliest(init) in init;
        if Earliest(init).idx == k {
          AtHas(init, k, Earliest(init));
        }
      }
    } else {
      EarliestIsFirst(init, k);
      EarliestSnoc(init, last);
      assert At(starts, k)[0] == At(init, k)[0];
    }
  }

  lemma {:induction false} PairsAt(s: string, pairs: seq<Pair>, k: nat)
    requires forall x :: x in PairStarts(s, pairs) ==> k <= x.idx
    ensures At(PairStarts(s, pairs), k) == [] <==> PairAt(s, pairs, k).None?
    ensures PairAt(s, pairs, k).Some? ==>
              At(PairStarts(s, pairs), k) != []
              && var p := PairAt(s, pairs, k).value;
              At(PairStarts(s, pairs), k)[0] == Start(k, |p.open|, p.close, true)
  {
    hide Index, Occurs, At;
    if pairs == [] {
      assert At([], k) == [] by { NothingAt(k); }
    } else {
      FirstPairFirst(s, pairs);
      var first, rest := FirstPair(s, pairs[0]), PairStarts(s, pairs[1..]);
      assert forall x :: x in rest ==> x in PairStarts(s, pairs);
      PairsAt(s, pairs[1..], k);
      AtJoin(first, rest, k);
      assert first != [] ==> first[0] in PairStarts(s, pairs);
      FirstPairAt(s, pairs[0], k);
    }
  }

  lemma NothingAt(k: nat)
    ensures At([], k) == []
  {
  }

  lemma FirstPairAt(s: string, p: Pair, k: nat)
    requires forall x :: x in FirstPair(s, p) ==> k <= x.idx
    ensures At(FirstPair(s, p), k) == if Occurs(s, p.open, k) then [Start(k, |p.open|, p.close, true)] else []
  {
    hide Index, Occurs;
    var i := Index(s, p.open);
    if i >= 0 {
      assert FirstPair(s, p)[0] in FirstPair(s, p);
      assert FirstPair(s, p)[1..] == [];
    }
    if Occurs(s, p.open, k) {
      IndexIsFirst(s, p.open, k);
    }
  }

  lemma TagsAt(s: string, k: nat)
    requires forall x :: x in NamespacedStarts(s) ==> k <= x.idx
    ensures At(NamespacedStarts(s), k) == [] <==> !AnyTagAt(s, k)
    ensures forall e :: e in At(NamespacedStarts(s), k) ==>
              exists name: string :: TagAt(s, name, k) && e == Start(k, |Tag(name)|, "</" + name + NAMESPACE_END, true)
  {
    hide FindNamespaced, TagAt;
    var found := FindNamespaced(s);
    if found.Some? {
      FoundTag(s);
      var name := found.value.name;
      var e := Start(found.value.idx, |Tag(name)|, "</" + name + NAMESPACE_END, true);
      assert NamespacedStarts(s) == [e] && e in [e] && [e][1..] == [];
    }
    if AnyTagAt(s, k) {
      var name: string :| TagAt(s, name, k);
      TagIsFound(s, name, k);
    }
  }

  lemma {:induction false} CallsFrom(s: string, prefix: string, from: nat)
    requires from <= |s| && prefix != ""
    ensures forall x :: x in BracketStarts(s, prefix, from) ==>
              x.idx <= |s| && BracketLen(s[x.idx..]) == Some(x.consumeLen) && x == Start(x.idx, x.consumeLen, "", false)
    ensures forall j: nat :: from <= j <= |s| && Occurs(s, prefix, j) && BracketLen(s[j..]).Some? ==>
              Start(j, BracketLen(s[j..]).value, "", false) in BracketStarts(s, prefix, from)
    decreases |s| - from
  {
    hide Index, BracketLen, BracketStarts, Occurs;
    BracketStep(s, prefix, from);
    var i := Index(s[from..], prefix);
    if i >= 0 {
      CallsFrom(s, prefix, from + i + 1);
    }
    forall j: nat | from <= j <= |s| && Occurs(s, prefix, j) && BracketLen(s[j..]).Some?
      ensures Start(j, BracketLen(s[j..]).value, "", false) in BracketStarts(s, prefix, from)
    {
      ShiftedOccurrence(s, from, prefix, j - from);
      IndexIsFirst(s[from..], prefix, j - from);
    }
  }

  lemma CallHasPrefix(s: string, k: nat)
    requires CallAt(s, k)
    ensures Occurs(s, CALLING_TOOL, k) || Occurs(s, TOOL_CALL, k)
  {
    hide BracketLen;
    CallStarts(s[k..]);
    var p := if CALLING_TOOL <= s[k..] then CALLING_TOOL else TOOL_CALL;
    assert s[k..][..|p|] == s[k..k + |p|];
  }

  lemma CallsAt(s: string, k: nat)
    ensures forall e :: e in At(BracketStarts(s, CALLING_TOOL, 0) + BracketStarts(s, TOOL_CALL, 0), k) ==>
              CallAt(s, k) && e == Start(k, BracketLen(s[k..]).value, "", false)
    ensures CallAt(s, k) ==> At(BracketStarts(s, CALLING_TOOL, 0) + BracketStarts(s, TOOL_CALL, 0), k) != []
  {
    hide BracketStarts, BracketLen, Occurs;
    var all := BracketStarts(s, CALLING_TOOL, 0) + BracketStarts(s, TOOL_CALL, 0);
    CallsFrom(s, CALLING_TOOL, 0);
    CallsFrom(s, TOOL_CALL, 0);
    if CallAt(s, k) {
      CallHasPrefix(s, k);
      AtHas(all, k, Start(k, BracketLen(s[k..]).value, "", false));
    }
  }

  lemma {:induction false} AfterAre(s: string, markers: seq<string>)
    ensures forall x :: x in AfterStarts(s, markers) ==>
              x.idx <= |s| && x == Start(x.idx, |s| - x.idx, SUPPRESS_PERMANENTLY, true) && OneSidedAt(s, markers, x.idx)
  {
    hide Index, Occurs;
    if markers != [] {
      AfterAre(s, markers[1..]);
      forall x | x in AfterStarts(s, markers)
        ensures OneSidedAt(s, markers, x.idx)
        ensures x.idx <= |s| && x == Start(x.idx, |s| - x.idx, SUPPRESS_PERMANENTLY, true)
      {
        if x in AfterStarts(s, markers[1..]) {
          var i :| 0 <= i < |markers[1..]| && Occurs(s, markers[1..][i], x.idx);
          assert markers[i + 1] == markers[1..][i];
        } else {
          OccursFits(s, markers[0], x.idx);
        }
      }
    }
  }

  // ---------------------------------------------------------------------------
  // The envelope found

  // Something that starts at k is a candidate that starts there or earlier.
  lemma SomeCandidate(m: Markers, s: string, k: nat)
    requires StartsAt(m, s, k)
    ensures exists x :: x in AllStarts(m, s) && x.idx <= k
  {
    hide PairStarts, NamespacedStarts, BracketStarts, AfterStarts, BracketLen, TagAt;
    if PairAt(s, m.pairs, k).Some? {
      PairIsCandidate(s, m.pairs, k);
      var x :| x in PairStarts(s, m.pairs) && x.idx <= k;
      assert x in AllStarts(m, s);
    } else if AnyTagAt(s, k) {
      TagIsCandidate(s, k);
      var x :| x in NamespacedStarts(s) && x.idx <= k;
      assert x in AllStarts(m, s);
    } else if CallAt(s, k) {
      CallsAt(s, k);
      var x := At(BracketStarts(s, CALLING_TOOL, 0) + BracketStarts(s, TOOL_CALL, 0), k)[0];
      assert x in BracketStarts(s, CALLING_TOOL, 0) + BracketStarts(s, TOOL_CALL, 0);
      assert x in AllStarts(m, s);
    } else {
      var i :| 0 <= i < |m.suppressAfter| && Occurs(s, m.suppressAfter[i], k);
      IndexIsFirst(s, m.suppressAfter[i], k);
      AfterStartsHave(s, m.suppressAfter, i);
      var x :| x in AfterStarts(s, m.suppressAfter) && x.idx == Index(s, m.suppressAfter[i]);
      assert x in AllStarts(m, s);
    }
  }

  lemma {:induction false} PairIsCandidate(s: string, pairs: seq<Pair>, k: nat)
    requires PairAt(s, pairs, k).Some?
    ensures exists x :: x in PairStarts(s, pairs) && x.idx <= k
  {
    hide Index, Occurs;
    if Occurs(s, pairs[0].open, k) {
      IndexIsFirst(s, pairs[0].open, k);
      assert PairStarts(s, pairs)[0].idx <= k;
    } else {
      PairIsCandidate(s, pairs[1..], k);
      var x :| x in PairStarts(s, pairs[1..]) && x.idx <= k;
      assert x in PairStarts(s, pairs);
    }
  }

  lemma TagIsCandidate(s: string, k: nat)
    requires AnyTagAt(s, k)
    ensures exists x :: x in NamespacedStarts(s) && x.idx <= k
  {
    hide FindNamespaced, TagAt;
    var name: string :| TagAt(s, name, k);
    TagIsFound(s, name, k);
    assert NamespacedStarts(s)[0].idx <= k;
  }

  // The candidates at the place of the earliest one: pairs, tags, calls, one-sided markers.
  lemma ChosenAt(m: Markers, s: string, k: nat)
    requires AllStarts(m, s) != [] && Earliest(AllStarts(m, s)).idx == k
    ensures IsEnvelope(m, s, Earliest(AllStarts(m, s)))
  {
    hide PairStarts, NamespacedStarts, BracketStarts, AfterStarts, BracketLen, Earliest, AnyTagAt, TagAt, PairAt, OneSidedAt, At;
    var a, b, d := PairStarts(s, m.pairs), NamespacedStarts(s), AfterStarts(s, m.suppressAfter);
    var c := BracketStarts(s, CALLING_TOOL, 0) + BracketStarts(s, TOOL_CALL, 0);
    var all := AllStarts(m, s);
    assert all == a + b + c + d;
    assert forall x :: x in all ==> k <= x.idx;
    AtJoin(a + b + c, d, k);
    AtJoin(a + b, c, k);
    AtJoin(a, b, k);
    AtHas(all, k, Earliest(all));
    EarliestIsFirst(all, k);
    PairsAt(s, m.pairs, k);
    TagsAt(s, k);
    CallsAt(s, k);
    AfterAre(s, m.suppressAfter);
    var e := Earliest(all);
    FirstOfFour(At(a, k), At(b, k), At(c, k), At(d, k));
    assert At(b, k) != [] ==> At(b, k)[0] in At(b, k);
    assert At(c, k) != [] ==> At(c, k)[0] in At(c, k);
    assert At(d, k) != [] ==> At(d, k)[0] in At(d, k);
  }

  lemma FirstOfFour<T>(a: seq<T>, b: seq<T>, c: seq<T>, d: seq<T>)
    requires a + b + c + d != []
    ensures (a + b + c + d)[0] ==
              if a != [] then a[0] else if b != [] then b[0] else if c != [] then c[0] else d[0]
  {
  }

  // From the text and the markers alone: what is found is the envelope at the first place
  // where one starts, and nothing is found exactly when none starts anywhere.
  lemma FindStartIsExact(m: Markers, s: string)
    ensures FindStart(m, s).None? <==> forall k: nat :: !StartsAt(m, s, k)
    ensures FindStart(m, s).Some? ==>
              var e := FindStart(m, s).value;
              IsEnvelope(m, s, e) && StartsAt(m, s, e.idx) && forall k: nat :: k < e.idx ==> !StartsAt(m, s, k)
  {
    hide AllStarts, IsEnvelope, StartsAt, Earliest;
    if FindStart(m, s).Some? {
      var e := FindStart(m, s).value;
      ChosenAt(m, s, e.idx);
      EnvelopeStarts(m, s, e);
      forall k: nat | StartsAt(m, s, k)
        ensures e.idx <= k
      {
        SomeCandidate(m, s, k);
        var x :| x in AllStarts(m, s) && x.idx <= k;
        EarliestBefore(AllStarts(m, s), x);
      }
    } else {
      forall k: nat
        ensures !StartsAt(m, s, k)
      {
        if StartsAt(m, s, k) {
          SomeCandidate(m, s, k);
        }
      }
    }
  }

  lemma EnvelopeStarts(m: Markers, s: string, e: Start)
    requires IsEnvelope(m, s, e)
    ensures StartsAt(m, s, e.idx)
  {
    hide PairAt, AnyTagAt, CallAt, OneSidedAt;
  }

  // ---------------------------------------------------------------------------
  // A whole call in a stream

  // A pair of markers the filter drops text between: a registered pair, the first with its
  // opening marker, or a namespaced tag and its close tag.
  ghost predicate Encloses(m: Markers, open: string, close: string) {
    || (exists i :: 0 <= i < |m.pairs| && m.pairs[i] == Pair(open, close) && Unpaired(m.pairs[..i], open))
    || (exists name: string :: IsName(name) && open == Tag(name) && close == "</" + name + NAMESPACE_END
                               && Unpaired(m.pairs, open))
  }

  predicate Unpaired(pairs: seq<Pair>, open: string) {
    forall i :: 0 <= i < |pairs| ==> pairs[i].open != open
  }

  lemma EnclosingIsTagLike(m: Markers, open: string, close: string)
    requires Regular(m) && Encloses(m, open, close)
    ensures TagLike(open) && close != "" && close != SUPPRESS_PERMANENTLY
  {
    hide TagLike, IsName;
    if i :| 0 <= i < |m.pairs| && m.pairs[i] == Pair(open, close) {
      assert IsRegular(m.pairs[i]);
    } else {
      var name: string :| IsName(name) && open == Tag(name) && close == "</" + name + NAMESPACE_END;
      TagIsTagLike(name);
      assert close[0] == '<' != SUPPRESS_PERMANENTLY[0];
    }
  }

  lemma OpenIsHere(p: string, open: string, rest: string)
    ensures Occurs(p + (open + rest), open, |p|)
  {
    var text := p + (open + rest);
    assert text[|p|..] == open + rest;
    assert text[|p|..|p| + |open|] == text[|p|..][..|open|];
  }

  // An opening that starts before |p| would be whole in p, or hold the "<" of `open`.
  lemma NoneAhead(p: string, open: string, rest: string, o: string, k: nat)
    requires TagLike(open) && TagLike(o) && k < |p| && Occurs(p + (open + rest), o, k)
    ensures Occurs(p, o, k)
  {
    hide TagLike, Occurs;
    var text := p + (open + rest);
    OpenIsHere(p, open, rest);
    TagLikeApart(text, open, |p|, o, k);
    OccursBefore(p, open + rest, o, k);
  }

  lemma NoPairAhead(m: Markers, p: string, open: string, rest: string, pairs: seq<Pair>, k: nat)
    requires TagLike(open) && k < |p| && forall i :: 0 <= i < |pairs| ==> IsRegular(pairs[i])
    requires PairAt(p + (open + rest), pairs, k).Some?
    ensures PairAt(p, pairs, k).Some?
  {
    hide TagLike, Occurs;
    assert IsRegular(pairs[0]);
    if Occurs(p + (open + rest), pairs[0].open, k) {
      NoneAhead(p, open, rest, pairs[0].open, k);
    } else {
      NoPairAhead(m, p, open, rest, pairs[1..], k);
    }
  }

  lemma NoCallAhead(p: string, open: string, rest: string, k: nat)
    requires TagLike(open) && Ordinary(p) && k < |p|
    ensures !CallAt(p + (open + rest), k)
  {
    hide Occurs, BracketLen;
    var text := p + (open + rest);
    if CallAt(text, k) {
      CallHasPrefix(text, k);
      var c := if Occurs(text, CALLING_TOOL, k) then CALLING_TOOL else TOOL_CALL;
      if k + |c| <= |p| {
        OccursBefore(p, open + rest, c, k);
      } else {
        OccursChar(text, c, k, |p| - k);
        ControlHasNoLess(c, |p| - k);
      }
    }
  }

  lemma ControlHasNoLess(c: string, j: nat)
    requires IsControl(c) && j < |c|
    ensures c[j] != '<'
  {
  }

  lemma NothingAhead(m: Markers, p: string, open: string, rest: string, k: nat)
    requires Regular(m) && TagLike(open) && Ordinary(p) && k < |p|
    requires !StartsAt(m, p, k)
    ensures !StartsAt(m, p + (open + rest), k)
  {
    hide TagLike, Ordinary, CallAt, IsName, Occurs;
    var text := p + (open + rest);
    NoCallAhead(p, open, rest, k);
    if PairAt(text, m.pairs, k).Some? {
      NoPairAhead(m, p, open, rest, m.pairs, k);
    }
    if AnyTagAt(text, k) {
      NoTagAhead(p, open, rest, k);
    }
  }

  lemma NoTagAhead(p: string, open: string, rest: string, k: nat)
    requires TagLike(open) && k < |p| && AnyTagAt(p + (open + rest), k)
    ensures AnyTagAt(p, k)
  {
    hide TagLike, IsName, Occurs;
    var name: string :| TagAt(p + (open + rest), name, k);
    TagIsTagLike(name);
    NoneAhead(p, open, rest, Tag(name), k);
    assert TagAt(p, name, k);
  }

  lemma UnpairedTail(pairs: seq<Pair>, open: string, i: nat)
    requires 0 < i <= |pairs| && Unpaired(pairs[..i], open)
    ensures Unpaired(pairs[1..][..i - 1], open)
  {
    var tail := pairs[1..][..i - 1];
    forall j | 0 <= j < |tail|
      ensures tail[j].open != open
    {
      assert tail[j] == pairs[..i][j + 1];
    }
  }

  lemma {:induction false} FirstPairIs(s: string, pairs: seq<Pair>, open: string, close: string, i: nat, k: nat)
    requires TagLike(open) && Occurs(s, open, k)
    requires i < |pairs| && pairs[i] == Pair(open, close) && Unpaired(pairs[..i], open)
    requires forall j :: 0 <= j < |pairs| ==> IsRegular(pairs[j])
    ensures PairAt(s, pairs, k) == Some(Pair(open, close))
  {
    hide TagLike, Occurs;
    if i > 0 {
      assert pairs[0].open != open by {
        assert pairs[..i][0] == pairs[0];
      }
      assert IsRegular(pairs[0]);
      if Occurs(s, pairs[0].open, k) {
        TagLikeApart(s, pairs[0].open, k, open, k);
      }
      UnpairedTail(pairs, open, i);
      FirstPairIs(s, pairs[1..], open, close, i - 1, k);
    }
  }

  lemma {:induction false} NoPairHere(s: string, pairs: seq<Pair>, open: string, k: nat)
    requires TagLike(open) && Occurs(s, open, k) && Unpaired(pairs, open)
    requires forall j :: 0 <= j < |pairs| ==> IsRegular(pairs[j])
    ensures PairAt(s, pairs, k).None?
  {
    hide TagLike, Occurs;
    if pairs != [] {
      assert IsRegular(pairs[0]);
      if Occurs(s, pairs[0].open, k) {
        TagLikeApart(s, pairs[0].open, k, open, k);
      }
      NoPairHere(s, pairs[1..], open, k);
    }
  }

  // What encloses a call is the envelope found where its opening marker is.
  lemma EnclosedHere(m: Markers, s: string, open: string, close: string, e: Start)
    requires Regular(m) && Encloses(m, open, close) && Occurs(s, open, e.idx) && IsEnvelope(m, s, e)
    ensures e == Start(e.idx, |open|, close, true)
  {
    hide TagLike, IsName, Occurs, PairAt, CallAt, OneSidedAt;
    var k := e.idx;
    EnclosingIsTagLike(m, open, close);
    if i :| 0 <= i < |m.pairs| && m.pairs[i] == Pair(open, close) && Unpaired(m.pairs[..i], open) {
      FirstPairIs(s, m.pairs, open, close, i, k);
    } else {
      var name: string :|
        IsName(name) && open == Tag(name) && close == "</" + name + NAMESPACE_END && Unpaired(m.pairs, open);
      NoPairHere(s, m.pairs, open, k);
      assert TagAt(s, name, k);
      var other: string :| TagAt(s, other, k) && e == Start(k, |Tag(other)|, "</" + other + NAMESPACE_END, true);
      TagIsTagLike(other);
      TagLikeApart(s, Tag(other), k, open, k);
      TagNames(other, name);
    }
  }

  lemma CallFound(m: Markers, p: string, open: string, close: string, rest: string)
    requires Regular(m) && Encloses(m, open, close) && Ordinary(p) && FindStart(m, p).None?
    ensures FindStart(m, p + (open + rest)) == Some(Start(|p|, |open|, close, true))
  {
    hide FindStart, StartsAt, IsEnvelope, Ordinary, Encloses, TagLike, Regular, Occurs;
    var text := p + (open + rest);
    EnclosingIsTagLike(m, open, close);
    FindStartIsExact(m, p);
    FindStartIsExact(m, text);
    forall k: nat | k < |p|
      ensures !StartsAt(m, text, k)
    {
      NothingAhead(m, p, open, rest, k);
    }
    OpenIsHere(p, open, rest);
    SomethingHere(m, text, open, close, |p|);
    var e := FindStart(m, text).value;
    assert e.idx == |p|;
    EnclosedHere(m, text, open, close, e);
  }

  lemma SomethingHere(m: Markers, s: string, open: string, close: string, k: nat)
    requires Regular(m) && Encloses(m, open, close) && Occurs(s, open, k)
    ensures StartsAt(m, s, k)
  {
    hide TagLike, IsName, Occurs, CallAt, OneSidedAt;
    EnclosingIsTagLike(m, open, close);
    if i :| 0 <= i < |m.pairs| && m.pairs[i] == Pair(open, close) && Unpaired(m.pairs[..i], open) {
      FirstPairIs(s, m.pairs, open, close, i, k);
    } else {
      var name: string :| IsName(name) && open == Tag(name);
      assert TagAt(s, name, k);
    }
  }

  // A stream with a whole call in it: after ordinary prose, the opening marker and a body in
  // which its close marker is not complete, the call is dropped up to and with its close
  // marker, and whatever follows is treated as a stream of its own.
  lemma CallIsDropped(m: Markers, p: string, open: string, body: string, close: string, q: string)
    requires Regular(m) && m.Valid() && Encloses(m, open, close)
    requires Ordinary(p) && FindStart(m, p).None? && Index(body + close, close) == |body|
    ensures var s := State("", None, false);
            Fed(m, s, p + (open + (body + (close + q)))) == (Fed(m, s, q).0, p + Fed(m, s, q).1)
  {
    hide FindStart, Ordinary, Encloses, Regular, Drain, Index;
    var rest := body + (close + q);
    var text := p + (open + rest);
    EnclosingIsTagLike(m, open, close);
    CallFound(m, p, open, close, rest);
    CallOpens(m, p, open, close, rest);
    CallCloses(m, p, body, close, q);
    assert "" + text == text;
    assert p + "" == p && "" + q == q;
    if q == "" {
      DrainNothing(m, State("", None, false), "");
    }
  }

  lemma CallOpens(m: Markers, p: string, open: string, close: string, rest: string)
    requires m.Valid() && open != "" && close != "" && Ordinary(p)
    requires FindStart(m, p + (open + rest)) == Some(Start(|p|, |open|, close, true))
    ensures Drain(m, State(p + (open + rest), None, false), "") == Drain(m, State(rest, Some(close), false), p)
  {
    hide FindStart, Ordinary, Drain, Prose;
    var text := p + (open + rest);
    DrainStep(m, State(text, None, false), "");
    assert text[|p| + |open|..] == rest;
    ProseAhead(p, open + rest);
    assert "" + p == p;
  }

  lemma CallCloses(m: Markers, p: string, body: string, close: string, q: string)
    requires m.Valid() && close != "" && close != SUPPRESS_PERMANENTLY && Index(body + close, close) == |body|
    ensures var s := State(q, None, false);
            Drain(m, State(body + (close + q), Some(close), false), p) == (Drain(m, s, "").0, p + Drain(m, s, "").1)
  {
    hide Drain, Index;
    var rest := body + (close + q);
    IndexStays(body + close, q, close);
    Associative(body, close, q);
    AfterBoth(body, close, q);
    ClosesAt(m, p, rest, close);
    DrainPrepends(m, State(q, None, false), p, "");
    assert p + "" == p;
  }

  lemma ClosesAt(m: Markers, p: string, rest: string, close: string)
    requires m.Valid() && close != "" && close != SUPPRESS_PERMANENTLY && Index(rest, close) >= 0
    ensures Index(rest, close) + |close| <= |rest|
    ensures Drain(m, State(rest, Some(close), false), p)
         == Drain(m, State(rest[Index(rest, close) + |close|..], None, false), p)
  {
    hide Drain, Index;
    DrainStep(m, State(rest, Some(close), false), p);
  }

  lemma AfterBoth(a: string, b: string, c: string)
    ensures (a + (b + c))[|a| + |b|..] == c
  {
  }

  lemma ProseAhead(p: string, rest: string)
    requires Ordinary(p)
    ensures Prose(p + rest, |p|) == p
  {
    hide Ordinary, Sanitized;
    ProseIsPlain(p, |p|);
    assert (p + rest)[..|p|] == p[..|p|] == p;
  }

  // And so under every chunking, when the whole stream is ordinary.
  lemma CallIsDroppedInChunks(
      m: Markers, p: string, open: string, body: string, close: string, q: string, chunks: seq<string>)
    requires Regular(m) && m.Valid() && Encloses(m, open, close)
    requires FindStart(m, p).None? && Index(body + close, close) == |body|
    requires Concat(chunks) == p + (open + (body + (close + q))) && Ordinary(Concat(chunks))
    ensures var s := State("", None, false);
            FedAll(m, s, chunks) == (Fed(m, s, q).0, p + Fed(m, s, q).1)
  {
    hide FindStart, Ordinary, Encloses, Regular, Index, Fed;
    ChunkInvariance(m, chunks);
    BeforeIsOrdinary(p, open + (body + (close + q)));
    CallIsDropped(m, p, open, body, close, q);
  }

  // The built-in markers, whatever tag-shaped pair is configured beside them; and that pair.
  lemma BuiltinEncloses(markerStart: string, markerEnd: string)
    requires markerStart != "<tool_call>"
    ensures Encloses(NewMarkers(markerStart, markerEnd), "<tool_call>", "</tool_call>")
    ensures markerStart != "" && markerEnd != "" ==> Encloses(NewMarkers(markerStart, markerEnd), markerStart, markerEnd)
  {
    var m := NewMarkers(markerStart, markerEnd);
    if markerStart != "" && markerEnd != "" {
      assert Unpaired(m.pairs[..0], markerStart) && Unpaired(m.pairs[..1], "<tool_call>");
      assert m.pairs[0] == Pair(markerStart, markerEnd) && m.pairs[1] == Pair("<tool_call>", "</tool_call>");
    } else {
      assert Unpaired(m.pairs[..0], "<tool_call>");
      assert m.pairs[0] == Pair("<tool_call>", "</tool_call>");
    }
  }

  // A one-sided marker with nothing starting ahead of it is found, and silences the stream.
  lemma OneSidedIsFound(markerStart: string, text: string, k: nat)
    requires markerStart != "" && Occurs(text, markerStart, k)
    requires var m := NewMarkers(markerStart, "");
             && (forall j: nat :: j < k ==> !StartsAt(m, text, j))
             && PairAt(text, m.pairs, k).None? && !AnyTagAt(text, k) && !CallAt(text, k)
    ensures var e := FindStart(NewMarkers(markerStart, ""), text);
            e.Some? && e.value.idx == k && e.value.hasClose && e.value.closeMarker == SUPPRESS_PERMANENTLY
  {
    hide FindStart, PairAt, AnyTagAt, CallAt, Occurs;
    var m := NewMarkers(markerStart, "");
    assert m.suppressAfter[0] == markerStart;
    FindStartIsExact(m, text);
    assert StartsAt(m, text, k);
  }

  // ---------------------------------------------------------------------------
  // What a bracket call is

  predicate AllSpaces(s: string) {
    forall i :: 0 <= i < |s| ==> RegexSpace(s[i])
  }

  // A prefix, white space and a name, then the bracket, or arguments in "({" and the first
  // "})" that the bracket follows.
  ghost predicate IsCall(c: string) {
    exists p: string, space: string, name: string, args: string ::
      IsCallOf(c, p, space, name, args)
  }

  predicate IsCallOf(c: string, p: string, space: string, name: string, args: string) {
    && IsControl(p) && AllSpaces(space) && IsName(name)
    && (c == p + (space + (name + "]"))
        || (c == p + (space + (name + ("({" + (args + "})]")))) && Index(args + "})]", "})]") == |args|))
  }

  lemma {:induction false} SpaceLenSplits(s: string)
    ensures AllSpaces(s[..SpaceLen(s)])
    ensures SpaceLen(s) < |s| ==> !RegexSpace(s[SpaceLen(s)])
  {
    if s != "" && RegexSpace(s[0]) {
      SpaceLenSplits(s[1..]);
      var n := SpaceLen(s[1..]);
      assert s[..n + 1] == [s[0]] + s[1..][..n];
    }
  }

  lemma {:induction false} SpaceLenIs(space: string, rest: string)
    requires AllSpaces(space) && rest != "" && !RegexSpace(rest[0])
    ensures SpaceLen(space + rest) == |space|
  {
    var s := space + rest;
    if space == "" {
      assert s == rest;
    } else {
      assert s[1..] == space[1..] + rest;
      SpaceLenIs(space[1..], rest);
    }
  }

  // What follows the name of a call.
  function AfterName(s: string): (n: Option<nat>)
    ensures n.Some? ==> 0 < n.value <= |s|
  {
    if "]" <= s then Some(1)
    else if "({" <= s then
      var k := Index(s[2..], "})]");
      if k < 0 then None else Some(2 + k + 3)
    else None
  }

  lemma CallSlices(p: string, space: string, name: string, rest: string)
    ensures var s := p + (space + (name + rest));
            && s[|p|..] == space + (name + rest) && s[|p| + |space|..] == name + rest
            && s[|p| + |space| + |name|..] == rest
  {
    var s := p + (space + (name + rest));
    assert s[|p| + |space|..] == s[|p|..][|space|..];
    assert s[|p| + |space| + |name|..] == s[|p| + |space|..][|name|..];
  }

  // The length of a call, by its parts.
  lemma BracketLenOf(s: string, p: string, i: nat, j: nat)
    requires IsControl(p) && p <= s && i == |p| + SpaceLen(s[|p|..]) && j == i + NameLen(s[i..])
    ensures BracketLen(s) ==
              if j == i || AfterName(s[j..]).None? then None else Some(j + AfterName(s[j..]).value)
  {
    hide Index, SpaceLen, NameLen;
    assert s == p + s[|p|..];
    PrefixIs(p, s[|p|..]);
    if "({" <= s[j..] {
      assert s[j..][2..] == s[j + 2..];
    }
  }

  lemma BracketLenIs(p: string, space: string, name: string, rest: string)
    requires IsControl(p) && AllSpaces(space) && IsName(name) && rest != "" && !NameChar(rest[0])
    ensures BracketLen(p + (space + (name + rest))) ==
              if AfterName(rest).None? then None else Some(|p| + |space| + |name| + AfterName(rest).value)
  {
    hide BracketLen, SpaceLen, NameLen, AfterName, NameChar, IsControl;
    var s := p + (space + (name + rest));
    CallSlices(p, space, name, rest);
    NameIsNoSpace(name);
    SpaceLenIs(space, name + rest);
    NameLenIs(name, rest);
    BracketLenOf(s, p, |p| + |space|, |p| + |space| + |name|);
  }

  lemma NameIsNoSpace(name: string)
    requires IsName(name)
    ensures name != "" && !RegexSpace(name[0])
  {
    IsNameIff(name);
  }

  lemma PrefixIs(p: string, tail: string)
    requires IsControl(p)
    ensures CALLING_TOOL <= p + tail <==> p == CALLING_TOOL
    ensures TOOL_CALL <= p + tail <==> p == TOOL_CALL
  {
    assert (p + tail)[1] == p[1];
  }

  lemma FirstEnd(args: string, rest: string)
    requires Index(args + "})]", "})]") == |args|
    ensures Index(args + ("})]" + rest), "})]") == |args|
  {
    hide Index;
    IndexStays(args + "})]", rest, "})]");
    assert args + "})]" + rest == args + ("})]" + rest);
  }

  // The regular expression for bracket calls, told as a grammar: a text starts with a call
  // of n characters exactly when its first n characters are one.
  lemma BracketLenIff(s: string, n: nat)
    requires n <= |s|
    ensures BracketLen(s) == Some(n) <==> IsCall(s[..n])
  {
    hide BracketLen;
    if IsCall(s[..n]) {
      var p: string, space: string, name: string, args: string :| IsCallOf(s[..n], p, space, name, args);
      CallMeasured(s, n, p, space, name, args);
    }
    if BracketLen(s) == Some(n) {
      CallParsed(s, n);
    }
  }

  lemma CallMeasured(s: string, n: nat, p: string, space: string, name: string, args: string)
    requires n <= |s| && IsCallOf(s[..n], p, space, name, args)
    ensures BracketLen(s) == Some(n)
  {
    hide BracketLen, Index, IsControl, AllSpaces, IsName;
    var more := s[n..];
    assert s == s[..n] + more;
    if s[..n] == p + (space + (name + "]")) {
      assert s == p + (space + (name + ("]" + more)));
      BracketLenIs(p, space, name, "]" + more);
    } else {
      var rest := "({" + (args + ("})]" + more));
      assert s == p + (space + (name + rest));
      assert rest[2..] == args + ("})]" + more);
      FirstEnd(args, more);
      BracketLenIs(p, space, name, rest);
    }
  }

  lemma CallParsed(s: string, n: nat)
    requires BracketLen(s) == Some(n)
    ensures n <= |s| && IsCall(s[..n])
  {
    CallStarts(s);
    hide BracketLen, AfterName, IsCall;
    CallParsedFrom(s, n, if CALLING_TOOL <= s then CALLING_TOOL else TOOL_CALL);
  }

  lemma CallParsedFrom(s: string, n: nat, p: string)
    requires BracketLen(s) == Some(n) && IsControl(p) && p <= s
    ensures n <= |s| && IsCall(s[..n])
  {
    hide BracketLen, SpaceLen, NameLen, AfterName, IsName, AllSpaces, IsCall, IsControl;
    var i := |p| + SpaceLen(s[|p|..]);
    var j := i + NameLen(s[i..]);
    BracketLenOf(s, p, i, j);
    PartsOf(s, |p|, i, j);
    PartsParsed(s, p, i, j);
  }

  lemma PartsOf(s: string, from: nat, i: nat, j: nat)
    requires from <= |s| && i == from + SpaceLen(s[from..]) && j == i + NameLen(s[i..]) && j > i
    ensures AllSpaces(s[from..i]) && IsName(s[i..j])
  {
    hide SpaceLen, NameLen, IsName, AllSpaces;
    SpaceLenSplits(s[from..]);
    NamePart(s[i..]);
    assert s[from..][..i - from] == s[from..i] && s[i..][..j - i] == s[i..j];
  }

  lemma FourSlices(s: string, a: nat, b: nat, c: nat, n: nat)
    requires a <= b <= c <= n <= |s|
    ensures s[..n] == s[..a] + (s[a..b] + (s[b..c] + s[c..n]))
  {
  }

  lemma PartsParsed(s: string, p: string, i: nat, j: nat)
    requires IsControl(p) && p <= s && |p| <= i <= j <= |s| && AllSpaces(s[|p|..i]) && IsName(s[i..j])
    requires AfterName(s[j..]).Some?
    ensures j + AfterName(s[j..]).value <= |s| && IsCall(s[..j + AfterName(s[j..]).value])
  {
    hide Index, IsName, AllSpaces, IsControl, IsCall, IsCallOf;
    var n := j + AfterName(s[j..]).value;
    FourSlices(s, |p|, i, j, n);
    assert s[..|p|] == p;
    if "]" <= s[j..] {
      assert s[j..n] == "]";
      BracketEnds(s[..n], p, s[|p|..i], s[i..j]);
    } else {
      assert s[j..][2..] == s[j + 2..];
      var k := Index(s[j + 2..], "})]");
      ArgsParsed(s, j, k);
      ArgsEnd(s[..n], p, s[|p|..i], s[i..j], s[j + 2..j + 2 + k]);
    }
  }

  lemma BracketEnds(c: string, p: string, space: string, name: string)
    requires IsControl(p) && AllSpaces(space) && IsName(name) && c == p + (space + (name + "]"))
    ensures IsCall(c)
  {
    hide IsControl, AllSpaces, IsName, Index;
    assert IsCallOf(c, p, space, name, "");
  }

  lemma ArgsEnd(c: string, p: string, space: string, name: string, args: string)
    requires IsControl(p) && AllSpaces(space) && IsName(name)
    requires c == p + (space + (name + ("({" + (args + "})]")))) && Index(args + "})]", "})]") == |args|
    ensures IsCall(c)
  {
    hide IsControl, AllSpaces, IsName, Index;
    assert IsCallOf(c, p, space, name, args);
  }

  lemma ArgsParsed(s: string, j: nat, k: nat)
    requires j + 2 <= |s| && "({" <= s[j..] && Index(s[j + 2..], "})]") == k
    ensures j + 2 + k + 3 <= |s|
    ensures var args := s[j + 2..j + 2 + k];
            s[j..j + 2 + k + 3] == "({" + (args + "})]") && Index(args + "})]", "})]") == |args|
  {
    hide Index;
    var t := s[j + 2..];
    var args, end := t[..k], "})]";
    assert t[k..k + 3] == end;
    assert args == s[j + 2..j + 2 + k];
    assert s[j..j + 2] == s[j..][..2] == "({";
    assert s[j..j + 2 + k + 3] == s[j..j + 2] + (t[..k] + t[k..k + 3]);
    assert t == args + end + t[k + 3..];
    OpenIsHere(args, end, "");
    assert args + (end + "") == args + end;
    IndexIsFirst(args + end, end, k);
    IndexStays(args + end, t[k + 3..], end);
  }

  // ---------------------------------------------------------------------------
  // What Finish drops

  // A tail that starts an opening marker, or with a bracket prefix, or is part of or starts
  // with a one-sided marker, or is "<" alone, or a tag cut after its colon.
  ghost predicate LooksLikeMarker(m: Markers, tail: string) {
    || (exists i :: 0 <= i < |m.pairs| && tail <= m.pairs[i].open)
    || (exists p: string :: IsControl(p) && p <= tail)
    || (exists i :: 0 <= i < |m.suppressAfter| && (tail <= m.suppressAfter[i] || m.suppressAfter[i] <= tail))
    || tail == "<"
    || exists name: string, n: nat :: IsCutTag(tail, name, n)
  }

  predicate IsCutTag(tail: string, name: string, n: nat) {
    IsName(name) && 0 < n < |NAMESPACE_END| && tail == "<" + (name + NAMESPACE_END[..n])
  }

  // Between feeds, and with all of the buffer held back, Finish drops it exactly when it
  // looks like a marker, and otherwise releases it.
  lemma FinishIsExact(m: Markers, s: State)
    requires m.Valid() && !s.suppressing && s.until.None? && PartialSuffixLen(m, s.buffer) == |s.buffer|
    ensures Finished(m, s) == (s.(buffer := ""), if LooksLikeMarker(m, s.buffer) then "" else s.buffer)
  {
    hide PartialSuffixLen, ShouldDropTail, LooksLikeMarker;
    if s.buffer != "" {
      DropsIff(m, s.buffer);
    }
  }

  // A tag cut after its colon, as the source tests for it.
  predicate DropsAsTag(tail: string) {
    if !("<" <= tail) || '>' in tail || tail[1..] == "" || tail[1..][0] == '/' || ':' !in tail[1..] then false
    else
      var body := tail[1..];
      var colon := Index(body, ":");
      colon >= 0 && IsName(body[..colon]) && body[colon + 1..] <= "tool_call"
  }

  lemma DropsIff(m: Markers, tail: string)
    requires tail != ""
    ensures ShouldDropTail(m, tail) <==> LooksLikeMarker(m, tail)
  {
    DropsParts(m, tail);
    hide ShouldDropTail, IsCutTag, DropsAsTag;
    ControlsAhead(tail);
    hide IsControl;
    CutTagIff(tail);
  }

  lemma ControlsAhead(tail: string)
    ensures (exists p: string :: IsControl(p) && p <= tail) <==> CALLING_TOOL <= tail || TOOL_CALL <= tail
  {
    assert IsControl(CALLING_TOOL) && IsControl(TOOL_CALL);
  }

  lemma DropsParts(m: Markers, tail: string)
    requires tail != ""
    ensures ShouldDropTail(m, tail) <==>
              || (exists i :: 0 <= i < |m.pairs| && tail <= m.pairs[i].open)
              || CALLING_TOOL <= tail || TOOL_CALL <= tail
              || (exists i :: 0 <= i < |m.suppressAfter| && (tail <= m.suppressAfter[i] || m.suppressAfter[i] <= tail))
              || tail == "<" || DropsAsTag(tail)
  {
    hide Index, IsName;
    assert "<" <= tail ==> tail == "<" + tail[1..];
  }

  lemma CutTagIff(tail: string)
    ensures DropsAsTag(tail) <==> exists name: string, n: nat :: IsCutTag(tail, name, n)
  {
    hide IsCutTag, Index, IsName;
    if exists name: string, n: nat :: IsCutTag(tail, name, n) {
      var name: string, n: nat :| IsCutTag(tail, name, n);
      CutTagDrops(tail, name, n);
    }
    if DropsAsTag(tail) {
      DropsCutTag(tail);
    }
  }

  lemma CutTagDrops(tail: string, name: string, n: nat)
    requires IsCutTag(tail, name, n)
    ensures IsName(name) && "<" <= tail && '>' !in tail && tail[1..] != "" && tail[1..][0] != '/' && ':' in tail[1..]
    ensures var body := tail[1..];
            Index(body, ":") == |name| && body[..|name|] == name && body[|name| + 1..] <= "tool_call"
  {
    hide IsName, Index;
    NonEmptyName(name);
    var end := NAMESPACE_END[..n];
    assert tail[1..] == name + end;
    EndingStarts(n);
    EndingIff(end);
    EndingChars(end);
    var body := tail[1..];
    assert body[|name|] == ':' && body[..|name|] == name && body[|name| + 1..] == end[1..];
    ColonIs(body, |name|);
    assert tail == "<" + (name + end) && body[0] == name[0];
  }

  lemma DropsCutTag(tail: string)
    requires DropsAsTag(tail)
    ensures exists name: string, n: nat :: IsCutTag(tail, name, n)
  {
    hide IsName, Index;
    var body := tail[1..];
    FoundColon(body);
    var colon := Index(body, ":");
    hide DropsAsTag;
    ColonEnding(body, colon);
    var end := body[colon..];
    assert tail == "<" + (body[..colon] + end);
    hide IsCutTag;
    CutTagIs(tail, body[..colon], end);
  }

  lemma ColonEnding(body: string, colon: nat)
    requires colon < |body| && body[colon] == ':' && body[colon + 1..] <= "tool_call"
    ensures Ending(body[colon..])
  {
    var end := body[colon..];
    assert end[0] == ':' && end[1..] == body[colon + 1..];
    EndingIff(end);
  }

  lemma CutTagIs(tail: string, name: string, end: string)
    requires IsName(name) && Ending(end) && tail == "<" + (name + end)
    ensures IsCutTag(tail, name, |end|)
  {
    hide IsName;
    assert end == NAMESPACE_END[..|end|];
  }
}
