module JsonRoundTrip {
  // Every printer's text reads back as the printed value.

  import opened JsonPrinters
  import opened JsonReader
  import opened JsonValue
  import Text
  import opened Wrappers

  // Number literals are JSON numbers; everything else is well formed by construction.
  predicate WellFormed(v: Json)
    decreases v
  {
    match v
    case Object(members) => forall i :: 0 <= i < |members| ==> WellFormed(members[i].value)
    case Array(items) => forall i :: 0 <= i < |items| ==> WellFormed(items[i])
    case Number(literal) => IsNumber(literal)
    case _ => true
  }

  // ---------------------------------------------------------------------------
  // Numbers

  // Text that cannot continue a number.
  predicate Delimited(rest: string) {
    rest == "" || rest[0] in {',', '}', ']', ' ', '\t', '\n', '\r'}
  }

  lemma {:induction false} AfterDigitsAppend(s: string, rest: string)
    requires Delimited(rest)
    ensures AfterDigits(s + rest) == AfterDigits(s) + rest
  {
    if s == "" {
      assert s + rest == rest;
    } else {
      assert (s + rest)[1..] == s[1..] + rest;
      AfterDigitsAppend(s[1..], rest);
    }
  }

  lemma AfterIntAppend(s: string, rest: string)
    requires Delimited(rest) && AfterInt(s).Some?
    ensures AfterInt(s + rest) == Some(AfterInt(s).value + rest)
  {
    assert (s + rest)[1..] == s[1..] + rest;
    AfterDigitsAppend(s[1..], rest);
  }

  lemma AfterFracAppend(s: string, rest: string)
    requires Delimited(rest) && AfterFrac(s).Some?
    ensures AfterFrac(s + rest) == Some(AfterFrac(s).value + rest)
  {
    if s == "" {
      assert s + rest == rest;
    } else {
      assert (s + rest)[1..] == s[1..] + rest;
      AfterDigitsAppend(s[1..], rest);
    }
  }

  lemma AfterExpAppend(s: string, rest: string)
    requires Delimited(rest) && AfterExp(s).Some?
    ensures AfterExp(s + rest) == Some(AfterExp(s).value + rest)
  {
    if s == "" {
      assert s + rest == rest;
    } else if Starts(s, 'e') || Starts(s, 'E') {
      assert (s + rest)[1..] == s[1..] + rest;
      if |s| > 1 {
        assert (s + rest)[2..] == s[2..] + rest;
        AfterDigitsAppend(s[1..], rest);
        AfterDigitsAppend(s[2..], rest);
      }
    }
  }

  lemma NumberReads(literal: string, rest: string)
    requires IsNumber(literal) && Delimited(rest)
    ensures ReadNumber(literal + rest) == Ok(Number(literal), rest)
    ensures literal != "" && (IsDigit(literal[0]) || literal[0] == '-')
  {
    var t := if Starts(literal, '-') then literal[1..] else literal;
    assert Starts(literal, '-') ==> (literal + rest)[1..] == literal[1..] + rest;
    AfterIntAppend(t, rest);
    var i := AfterInt(t).value;
    AfterFracAppend(i, rest);
    AfterExpAppend(AfterFrac(i).value, rest);
    assert "" + rest == rest;
    assert (literal + rest)[..|literal|] == literal;
  }

  // ---------------------------------------------------------------------------
  // Strings

  lemma HexReads(d: int)
    requires 0 <= d < 16
    ensures HexValue(Hex(d)) == Some(d)
  {
  }

  lemma Hex4Reads(c: int, rest: string)
    requires 0 <= c < 0x1_0000
    ensures Hex4(UnicodeEscape(c)[2..] + rest) == Some(c)
  {
    HexReads(c / 0x1000);
    HexReads(c / 0x100 % 16);
    HexReads(c / 0x10 % 16);
    HexReads(c % 16);
    HexDigitsSum(c);
  }

  lemma HexDigitsSum(c: int)
    requires 0 <= c < 0x1_0000
    ensures c / 0x1000 * 0x1000 + c / 0x100 % 16 * 0x100 + c / 0x10 % 16 * 0x10 + c % 16 == c
  {
    assert c / 0x100 / 16 == c / 0x1000;
    assert c / 0x10 / 16 == c / 0x100;
  }

  // The surrogate pair of an astral code point denotes it.
  lemma SurrogatesJoin(r: int)
    requires 0x1_0000 <= r < 0x11_0000
    ensures 0xd800 <= 0xd800 + (r - 0x1_0000) / 0x400 < 0xdc00
    ensures 0xdc00 <= 0xdc00 + (r - 0x1_0000) % 0x400 < 0xe000
    ensures 0x1_0000 + (r - 0x1_0000) / 0x400 * 0x400 + (r - 0x1_0000) % 0x400 == r
  {
  }

  // An escape is \u and four digits that read as the code unit.
  lemma EscapeSplits(c: int, rest: string)
    requires 0 <= c < 0x1_0000
    ensures var s := UnicodeEscape(c) + rest;
            && |s| >= 6 && s[0] == '\\' && s[1] == 'u' && s[6..] == rest
            && Hex4(s[2..]) == Some(c)
            && |s[2..]| >= 4 && s[2..][4..] == rest
  {
    Hex4Reads(c, rest);
    assert (UnicodeEscape(c) + rest)[2..] == UnicodeEscape(c)[2..] + rest;
  }

  lemma UnicodeEscapeReads(c: int, rest: string)
    requires 0 <= c < 0xd800 || 0xe000 <= c < 0x1_0000
    ensures ReadChar(UnicodeEscape(c) + rest) == Ok(c as char, rest)
  {
    EscapeSplits(c, rest);
  }

  // A high surrogate followed by the escape of a low one reads as one character.
  lemma PairReads(hi: int, lo: int, s: string, rest: string)
    requires 0xd800 <= hi < 0xdc00 <= lo < 0xe000
    requires Hex4(s) == Some(hi) && s[4..] == UnicodeEscape(lo) + rest
    ensures ReadUnicode(s) == Ok((0x1_0000 + (hi - 0xd800) * 0x400 + (lo - 0xdc00)) as char, rest)
  {
    EscapeSplits(lo, rest);
    var t := s[4..];
    assert s[4] == t[0] && s[5] == t[1] && s[6..] == t[2..] && s[10..] == t[6..];
  }

  lemma SurrogatePairReads(hi: int, lo: int, r: int, rest: string)
    requires 0xd800 <= hi < 0xdc00 <= lo < 0xe000
    requires r == 0x1_0000 + (hi - 0xd800) * 0x400 + (lo - 0xdc00)
    ensures ReadChar(UnicodeEscape(hi) + UnicodeEscape(lo) + rest) == Ok(r as char, rest)
  {
    var tail := UnicodeEscape(lo) + rest;
    Text.Associative(UnicodeEscape(hi), UnicodeEscape(lo), rest);
    EscapeSplits(hi, tail);
    var s := UnicodeEscape(hi) + tail;
    PairReads(hi, lo, s[2..], rest);
    assert ReadChar(s) == ReadUnicode(s[2..]);
  }

  lemma AstralReads(c: char, rest: string)
    requires c as int > 0xffff
    ensures ReadChar(EscapeChar(true, c) + rest) == Ok(c, rest)
  {
    var r := c as int;
    var hi, lo := 0xd800 + (r - 0x1_0000) / 0x400, 0xdc00 + (r - 0x1_0000) % 0x400;
    SurrogatesJoin(r);
    assert EscapeChar(true, c) == UnicodeEscape(hi) + UnicodeEscape(lo);
    SurrogatePairReads(hi, lo, r, rest);
  }

  lemma CharReads(ascii: bool, c: char, rest: string)
    ensures EscapeChar(ascii, c) != "" && EscapeChar(ascii, c)[0] != '"'
    ensures ReadChar(EscapeChar(ascii, c) + rest) == Ok(c, rest)
  {
    var r := c as int;
    if c in {'"', '\\', '\n', '\r', '\t'} || r == 0x08 || r == 0x0c {
      assert (EscapeChar(ascii, c) + rest)[2..] == rest;
    } else if ascii && r > 0xffff {
      AstralReads(c, rest);
    } else if r < 0x20 || (ascii && 0x7e < r) {
      assert EscapeChar(ascii, c) == UnicodeEscape(r);
      UnicodeEscapeReads(r, rest);
    } else {
      assert EscapeChar(ascii, c) == [c];
      assert ([c] + rest)[1..] == rest;
    }
  }

  lemma {:induction false} CharsRead(ascii: bool, s: string, rest: string)
    ensures ReadChars(Escaped(ascii, s) + ("\"" + rest)) == Ok(s, rest)
    decreases |s|
  {
    var tail := "\"" + rest;
    if s == "" {
      assert Escaped(ascii, s) + tail == tail && tail[1..] == rest;
    } else {
      var more := Escaped(ascii, s[1..]) + tail;
      CharReads(ascii, s[0], more);
      CharsRead(ascii, s[1..], rest);
      Text.Associative(EscapeChar(ascii, s[0]), Escaped(ascii, s[1..]), tail);
      assert s == [s[0]] + s[1..];
    }
  }

  lemma StringReads(ascii: bool, s: string, rest: string)
    ensures ReadString(Quoted(ascii, s) + rest) == Ok(s, rest)
    ensures Quoted(ascii, s)[0] == '"'
  {
    CharsRead(ascii, s, rest);
    var body, tail := Escaped(ascii, s), "\"" + rest;
    Text.Associative("\"" + body, "\"", rest);
    Text.Associative("\"", body, tail);
    assert ("\"" + (body + tail))[1..] == body + tail;
  }

  // ---------------------------------------------------------------------------
  // Values

  predicate AllSpace(s: string) {
    forall i :: 0 <= i < |s| ==> IsSpace(s[i])
  }

  // A separator of one structural character and white space.
  predicate Punctuates(s: string, c: char) {
    s != "" && s[0] == c && AllSpace(s[1..])
  }

  predicate IsJsonStyle(style: Style) {
    Punctuates(style.comma, ',') && Punctuates(style.colon, ':')
  }

  lemma {:induction false} SpacesAreSpace(depth: nat)
    ensures AllSpace(Spaces(depth))
  {
    if depth > 0 {
      SpacesAreSpace(depth - 1);
    }
  }

  lemma LineIsSpace(style: Style, depth: nat)
    ensures AllSpace(Line(style, depth))
  {
    SpacesAreSpace(depth);
  }

  lemma SeparatorPunctuates(style: Style, depth: nat)
    requires IsJsonStyle(style)
    ensures Punctuates(Separator(style, depth), ',')
  {
    SpacesAreSpace(depth + 1);
    if style.indent {
      assert (style.comma + Spaces(depth + 1))[1..] == style.comma[1..] + Spaces(depth + 1);
    }
  }

  lemma {:induction false} SkipsSpace(space: string, s: string)
    requires AllSpace(space) && (s == "" || !IsSpace(s[0]))
    ensures SkipSpace(space + s) == s
  {
    if space == "" {
      assert space + s == s;
    } else {
      assert (space + s)[1..] == space[1..] + s;
      SkipsSpace(space[1..], s);
    }
  }

  lemma SkipsPunctuation(p: string, c: char, s: string)
    requires Punctuates(p, c) && !IsSpace(c) && s != "" && !IsSpace(s[0])
    ensures SkipSpace(p + s) == p + s && Starts(p + s, c)
    ensures SkipSpace((p + s)[1..]) == s
  {
    assert (p + s)[1..] == p[1..] + s;
    SkipsSpace(p[1..], s);
  }

  // A rendered value starts like a value: not with white space, nor with a closing bracket.
  lemma RenderStarts(style: Style, depth: nat, v: Json)
    requires WellFormed(v)
    ensures var s := Render(style, depth, v);
            s != "" && !IsSpace(s[0]) && s[0] != '}' && s[0] != ']'
  {
    if v.Number? {
      NumberReads(v.literal, "");
    }
  }

  lemma MembersStart(style: Style, depth: nat, members: seq<Member>, rest: string)
    requires members != []
    ensures Starts(RenderMembers(style, depth, members, true) + rest, '"')
  {
    StringReads(style.ascii, members[0].key, "");
  }

  // What follows the last item of a container, down to its closing bracket.
  lemma Closing(style: Style, depth: nat, close: char, rest: string)
    requires close == '}' || close == ']'
    ensures var tail := Line(style, depth) + ([close] + rest);
            && Delimited(tail) && SkipSpace(tail) == [close] + rest
            && Starts([close] + rest, close) && ([close] + rest)[1..] == rest
  {
    LineIsSpace(style, depth);
    SkipsSpace(Line(style, depth), [close] + rest);
  }

  // A value rendered in any JSON style reads back, whatever may follow it.
  lemma {:induction false} ValueReads(style: Style, depth: nat, v: Json, rest: string)
    requires IsJsonStyle(style) && WellFormed(v) && Delimited(rest)
    ensures ReadValue(Render(style, depth, v) + rest) == Ok(v, rest)
    decreases v, 1
  {
    match v
    case Object(members) =>
      if members == [] {
        EmptyReads('{', '}', rest);
      } else {
        ObjectReads(style, depth, members, rest);
      }
    case Array(items) =>
      if items == [] {
        EmptyReads('[', ']', rest);
      } else {
        ArrayReads(style, depth, items, rest);
      }
    case _ =>
      ScalarReads(style, depth, v, rest);
  }

  // The first character of a value says how the rest is read.
  lemma Dispatch(s: string)
    requires s != ""
    ensures s[0] == 't' ==> ReadValue(s) == ReadWord(s, "true", Bool(true))
    ensures s[0] == 'f' ==> ReadValue(s) == ReadWord(s, "false", Bool(false))
    ensures s[0] == 'n' ==> ReadValue(s) == ReadWord(s, "null", Null)
    ensures IsDigit(s[0]) || s[0] == '-' ==> ReadValue(s) == ReadNumber(s)
    ensures s[0] == '"' && ReadString(s).Ok? ==>
              ReadValue(s) == Ok(String(ReadString(s).value), ReadString(s).rest)
  {
  }

  lemma ScalarReads(style: Style, depth: nat, v: Json, rest: string)
    requires WellFormed(v) && Delimited(rest) && !v.Object? && !v.Array?
    ensures ReadValue(Render(style, depth, v) + rest) == Ok(v, rest)
  {
    match v
    case String(s) =>
      StringReads(style.ascii, s, rest);
      Dispatch(Quoted(style.ascii, s) + rest);
    case Number(literal) =>
      NumberReads(literal, rest);
      Dispatch(literal + rest);
    case Bool(b) =>
      WordReads(if b then "true" else "false", v, rest);
      Dispatch((if b then "true" else "false") + rest);
    case Null =>
      WordReads("null", v, rest);
      Dispatch("null" + rest);
  }

  lemma EmptyReads(open: char, close: char, rest: string)
    requires !IsSpace(close)
    ensures var s := [open, close] + rest;
            s[0] == open && SkipSpace(s[1..]) == [close] + rest && ([close] + rest)[1..] == rest
  {
    assert ([open, close] + rest)[1..] == [close] + rest;
  }

  lemma WordReads(word: string, v: Json, rest: string)
    requires word != ""
    ensures ReadWord(word + rest, word, v) == Ok(v, rest) && (word + rest)[0] == word[0]
  {
    assert word <= word + rest && (word + rest)[|word|..] == rest;
  }

  lemma {:induction false} ObjectReads(style: Style, depth: nat, members: seq<Member>, rest: string)
    requires IsJsonStyle(style) && members != []
    requires forall i :: 0 <= i < |members| ==> WellFormed(members[i].value)
    ensures ReadValue(Render(style, depth, Object(members)) + rest) == Ok(Object(members), rest)
    decreases members, 2
  {
    var body := RenderMembers(style, depth, members, true);
    var tail := Line(style, depth) + ("}" + rest);
    var s := Render(style, depth, Object(members)) + rest;
    Opens('{', Line(style, depth + 1), body, Line(style, depth), "}", rest);
    LineIsSpace(style, depth + 1);
    MembersStart(style, depth, members, tail);
    SkipsSpace(Line(style, depth + 1), body + tail);
    MembersRead(style, depth, members, rest);
  }

  lemma {:induction false} ArrayReads(style: Style, depth: nat, items: seq<Json>, rest: string)
    requires IsJsonStyle(style) && items != []
    requires forall i :: 0 <= i < |items| ==> WellFormed(items[i])
    ensures ReadValue(Render(style, depth, Array(items)) + rest) == Ok(Array(items), rest)
    decreases items, 2
  {
    var body := RenderItems(style, depth, items, true);
    var tail := Line(style, depth) + ("]" + rest);
    Opens('[', Line(style, depth + 1), body, Line(style, depth), "]", rest);
    LineIsSpace(style, depth + 1);
    RenderStarts(style, Deeper(style, depth), items[0]);
    SkipsSpace(Line(style, depth + 1), body + tail);
    ItemsRead(style, depth, items, rest);
  }

  lemma Opens(open: char, lead: string, body: string, trail: string, close: string, rest: string)
    ensures var s := [open] + lead + body + trail + close + rest;
            s[0] == open && s[1..] == lead + (body + (trail + (close + rest)))
  {
    Text.Associative([open] + lead + body + trail, close, rest);
    Text.Associative([open] + lead + body, trail, close + rest);
    Text.Associative([open] + lead, body, trail + (close + rest));
    Text.Associative([open], lead, body + (trail + (close + rest)));
    var inner := lead + (body + (trail + (close + rest)));
    assert ([open] + inner)[1..] == inner;
  }

  // The text of the members from one on: its key, colon, value and what follows.
  lemma MemberText(style: Style, depth: nat, members: seq<Member>, tail: string)
    requires members != []
    ensures RenderMembers(style, depth, members, true) + tail
         == Quoted(style.ascii, members[0].key)
            + (style.colon + (Render(style, Deeper(style, depth), members[0].value)
                              + (RenderMembers(style, depth, members[1..], false) + tail)))
  {
    var key, value := Quoted(style.ascii, members[0].key), Render(style, Deeper(style, depth), members[0].value);
    var more := RenderMembers(style, depth, members[1..], false);
    Text.Associative(key + style.colon + value, more, tail);
    Text.Associative(key + style.colon, value, more + tail);
    Text.Associative(key, style.colon, value + (more + tail));
  }

  // Reading one member, its key, colon and value already known to read.
  lemma MemberStep(s: string, key: string, colon: string, text: string, value: Json, more: string)
    requires ReadString(s) == Ok(key, colon)
    requires SkipSpace(colon) == colon && Starts(colon, ':')
    requires SkipSpace(colon[1..]) == text && ReadValue(text) == Ok(value, more)
    ensures var t := SkipSpace(more);
            && (Starts(t, '}') ==> ReadMembers(s) == Ok([Member(key, value)], t[1..]))
            && (Starts(t, ',') && ReadMembers(SkipSpace(t[1..])).Ok? ==>
                  var rest := ReadMembers(SkipSpace(t[1..]));
                  ReadMembers(s) == Ok([Member(key, value)] + rest.value, rest.rest))
  {
  }

  lemma {:induction false} MembersRead(style: Style, depth: nat, members: seq<Member>, rest: string)
    requires IsJsonStyle(style) && members != []
    requires forall i :: 0 <= i < |members| ==> WellFormed(members[i].value)
    ensures ReadMembers(RenderMembers(style, depth, members, true) + (Line(style, depth) + ("}" + rest)))
         == Ok(members, rest)
    decreases members, 0
  {
    hide RenderMembers, Render, ReadMembers, ReadValue, ReadString, SkipSpace;
    var tail := Line(style, depth) + ("}" + rest);
    var more := RenderMembers(style, depth, members[1..], false) + tail;
    var value := Render(style, Deeper(style, depth), members[0].value);
    MoreMembers(style, depth, members[1..], rest);
    ValueReads(style, Deeper(style, depth), members[0].value, more);
    MemberHead(style, depth, members, tail, value + more);
    MemberStep(RenderMembers(style, depth, members, true) + tail, members[0].key,
               style.colon + (value + more), value + more, members[0].value, more);
    if |members| > 1 {
      MembersRead(style, depth, members[1..], rest);
      assert members == [members[0]] + members[1..];
    } else {
      assert members == [members[0]] && members[1..] == [];
    }
  }

  // The text of some members starts with a key, a colon and a value.
  lemma MemberHead(style: Style, depth: nat, members: seq<Member>, tail: string, text: string)
    requires IsJsonStyle(style) && members != [] && WellFormed(members[0].value)
    requires text == Render(style, Deeper(style, depth), members[0].value)
                     + (RenderMembers(style, depth, members[1..], false) + tail)
    ensures ReadString(RenderMembers(style, depth, members, true) + tail) == Ok(members[0].key, style.colon + text)
    ensures SkipSpace(style.colon + text) == style.colon + text && Starts(style.colon + text, ':')
    ensures SkipSpace((style.colon + text)[1..]) == text
  {
    MemberText(style, depth, members, tail);
    StringReads(style.ascii, members[0].key, style.colon + text);
    RenderStarts(style, Deeper(style, depth), members[0].value);
    SkipsPunctuation(style.colon, ':', text);
  }

  // After a member: the closing brace, or a comma and the members still to come.
  lemma MoreMembers(style: Style, depth: nat, members: seq<Member>, rest: string)
    requires IsJsonStyle(style)
    ensures var tail := Line(style, depth) + ("}" + rest);
            var more := RenderMembers(style, depth, members, false) + tail;
            && Delimited(more)
            && if members == [] then
                 SkipSpace(more) == "}" + rest && ("}" + rest)[1..] == rest
               else
                 && SkipSpace(more) == more && Starts(more, ',')
                 && SkipSpace(more[1..]) == RenderMembers(style, depth, members, true) + tail
  {
    var tail := Line(style, depth) + ("}" + rest);
    if members == [] {
      Closing(style, depth, '}', rest);
      assert "" + tail == tail;
    } else {
      var text := RenderMembers(style, depth, members, true);
      SeparatorPunctuates(style, depth);
      MembersStart(style, depth, members, tail);
      Text.Associative(Separator(style, depth), text, tail);
      SkipsPunctuation(Separator(style, depth), ',', text + tail);
    }
  }

  lemma {:induction false} ItemsRead(style: Style, depth: nat, items: seq<Json>, rest: string)
    requires IsJsonStyle(style) && items != []
    requires forall i :: 0 <= i < |items| ==> WellFormed(items[i])
    ensures ReadItems(RenderItems(style, depth, items, true) + (Line(style, depth) + ("]" + rest)))
         == Ok(items, rest)
    decreases items, 0
  {
    var tail := Line(style, depth) + ("]" + rest);
    var more := RenderItems(style, depth, items[1..], false) + tail;
    var value := Render(style, Deeper(style, depth), items[0]);
    Text.Associative(value, RenderItems(style, depth, items[1..], false), tail);
    MoreItems(style, depth, items[1..], rest);
    ValueReads(style, Deeper(style, depth), items[0], more);
    assert items == [items[0]] + items[1..];
    if |items| > 1 {
      ItemsRead(style, depth, items[1..], rest);
    } else {
      assert items == [items[0]] && items[1..] == [];
    }
  }

  lemma MoreItems(style: Style, depth: nat, items: seq<Json>, rest: string)
    requires IsJsonStyle(style)
    requires forall i :: 0 <= i < |items| ==> WellFormed(items[i])
    ensures var tail := Line(style, depth) + ("]" + rest);
            var more := RenderItems(style, depth, items, false) + tail;
            && Delimited(more)
            && if items == [] then
                 SkipSpace(more) == "]" + rest && ("]" + rest)[1..] == rest
               else
                 && SkipSpace(more) == more && Starts(more, ',')
                 && SkipSpace(more[1..]) == RenderItems(style, depth, items, true) + tail
  {
    var tail := Line(style, depth) + ("]" + rest);
    if items == [] {
      Closing(style, depth, ']', rest);
      assert "" + tail == tail;
    } else {
      var text := RenderItems(style, depth, items, true);
      SeparatorPunctuates(style, depth);
      RenderStarts(style, Deeper(style, depth), items[0]);
      Text.Associative(Separator(style, depth), text, tail);
      SkipsPunctuation(Separator(style, depth), ',', text + tail);
    }
  }

  // All four printers denote the value they print.
  lemma PrintersDenoteTheValue(v: Json)
    requires WellFormed(v)
    ensures Parse(Render(DUMP, 0, v)) == Some(v)
    ensures Parse(Render(DUMP_ASCII, 0, v)) == Some(v)
    ensures Parse(Render(DUMP_COMPACT, 0, v)) == Some(v)
    ensures Parse(Render(DUMP_INDENT, 0, v)) == Some(v)
  {
    TextReads(DUMP, v);
    TextReads(DUMP_ASCII, v);
    TextReads(DUMP_COMPACT, v);
    TextReads(DUMP_INDENT, v);
  }

  lemma TextReads(style: Style, v: Json)
    requires IsJsonStyle(style) && WellFormed(v)
    ensures Parse(Render(style, 0, v)) == Some(v)
  {
    ValueReads(style, 0, v, "");
    RenderStarts(style, 0, v);
    assert Render(style, 0, v) + "" == Render(style, 0, v);
  }

  method Dump(v: Json) returns (text: string)
    ensures text == Render(DUMP, 0, v)
    ensures WellFormed(v) ==> Parse(text) == Some(v)
  {
    var b := new Builder();
    Write(v, b);
    text := b.text;
    assert text == Render(DUMP, 0, v);
    if WellFormed(v) {
      PrintersDenoteTheValue(v);
    }
  }

  method DumpASCII(v: Json) returns (text: string)
    ensures text == Render(DUMP_ASCII, 0, v)
    ensures WellFormed(v) ==> Parse(text) == Some(v) && Printable(text)
  {
    var b := new Builder();
    WriteASCII(v, b);
    text := b.text;
    assert text == Render(DUMP_ASCII, 0, v);
    if WellFormed(v) {
      PrintersDenoteTheValue(v);
      AsciiIsPrintable(0, v);
    }
  }

  method DumpCompact(v: Json) returns (text: string)
    ensures text == Render(DUMP_COMPACT, 0, v)
    ensures WellFormed(v) ==> Parse(text) == Some(v)
  {
    var b := new Builder();
    WriteCompact(v, b);
    text := b.text;
    assert text == Render(DUMP_COMPACT, 0, v);
    if WellFormed(v) {
      PrintersDenoteTheValue(v);
    }
  }

  method DumpIndent(v: Json) returns (text: string)
    ensures text == Render(DUMP_INDENT, 0, v)
    ensures WellFormed(v) ==> Parse(text) == Some(v)
  {
    var b := new Builder();
    WriteIndent(v, b, 0);
    text := b.text;
    assert text == Render(DUMP_INDENT, 0, v);
    if WellFormed(v) {
      PrintersDenoteTheValue(v);
    }
  }

  // ---------------------------------------------------------------------------
  // dumpASCII prints printable ASCII only

  predicate Printable(s: string) {
    forall i :: 0 <= i < |s| ==> 0x20 <= s[i] as int <= 0x7e
  }

  lemma EscapeIsPrintable(c: char)
    ensures Printable(EscapeChar(true, c))
  {
  }

  lemma {:induction false} EscapedIsPrintable(s: string)
    ensures Printable(Escaped(true, s))
  {
    if s != "" {
      EscapeIsPrintable(s[0]);
      EscapedIsPrintable(s[1..]);
      JoinIsPrintable(EscapeChar(true, s[0]), Escaped(true, s[1..]));
    }
  }

  lemma JoinIsPrintable(a: string, b: string)
    requires Printable(a) && Printable(b)
    ensures Printable(a + b)
  {
  }

  lemma QuotedIsPrintable(s: string)
    ensures Printable(Quoted(true, s))
  {
    EscapedIsPrintable(s);
  }

  // The characters of numbers.
  predicate Numeric(s: string) {
    forall i :: 0 <= i < |s| ==> IsDigit(s[i]) || s[i] in {'+', '-', '.', 'e', 'E'}
  }

  lemma {:induction false} DigitsAreNumeric(s: string)
    ensures Numeric(AfterDigits(s)) ==> Numeric(s)
  {
    if s != "" && IsDigit(s[0]) {
      DigitsAreNumeric(s[1..]);
    }
  }

  lemma ExpIsNumeric(s: string)
    requires AfterExp(s) == Some("")
    ensures Numeric(s)
  {
    if Starts(s, 'e') || Starts(s, 'E') {
      DigitsAreNumeric(s[1..]);
      if |s| > 1 {
        DigitsAreNumeric(s[2..]);
      }
    }
  }

  lemma FracIsNumeric(s: string)
    requires AfterFrac(s).Some? && Numeric(AfterFrac(s).value)
    ensures Numeric(s)
  {
    if Starts(s, '.') {
      DigitsAreNumeric(s[1..]);
    }
  }

  lemma IntIsNumeric(s: string)
    requires AfterInt(s).Some? && Numeric(AfterInt(s).value)
    ensures Numeric(s)
  {
    DigitsAreNumeric(s[1..]);
  }

  lemma NumbersAreNumeric(literal: string)
    requires IsNumber(literal)
    ensures Numeric(literal) && Printable(literal)
  {
    hide AfterInt, AfterFrac, AfterExp;
    var t := if Starts(literal, '-') then literal[1..] else literal;
    var i := AfterInt(t).value;
    var f := AfterFrac(i).value;
    ExpIsNumeric(f);
    FracIsNumeric(i);
    IntIsNumeric(t);
  }

  lemma {:induction false} AsciiIsPrintable(depth: nat, v: Json)
    requires WellFormed(v)
    ensures Printable(Render(DUMP_ASCII, depth, v))
    decreases v, 1
  {
    match v
    case Object(members) => MembersArePrintable(depth, members, true);
    case Array(items) => ItemsArePrintable(depth, items, true);
    case String(s) => QuotedIsPrintable(s);
    case Number(literal) => NumbersAreNumeric(literal);
    case _ =>
  }

  lemma {:induction false} MembersArePrintable(depth: nat, members: seq<Member>, first: bool)
    requires forall i :: 0 <= i < |members| ==> WellFormed(members[i].value)
    ensures Printable(RenderMembers(DUMP_ASCII, depth, members, first))
    decreases members, 0
  {
    if members != [] {
      QuotedIsPrintable(members[0].key);
      AsciiIsPrintable(depth, members[0].value);
      MembersArePrintable(depth, members[1..], false);
      var key, value := Quoted(true, members[0].key), Render(DUMP_ASCII, depth, members[0].value);
      JoinIsPrintable(key, ": ");
      JoinIsPrintable(key + ": ", value);
      JoinIsPrintable(key + ": " + value, RenderMembers(DUMP_ASCII, depth, members[1..], false));
    }
  }

  lemma {:induction false} ItemsArePrintable(depth: nat, items: seq<Json>, first: bool)
    requires forall i :: 0 <= i < |items| ==> WellFormed(items[i])
    ensures Printable(RenderItems(DUMP_ASCII, depth, items, first))
    decreases items, 0
  {
    if items != [] {
      AsciiIsPrintable(depth, items[0]);
      ItemsArePrintable(depth, items[1..], false);
    }
  }
}
