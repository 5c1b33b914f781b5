module JsonLayout {
  // How the printers lay a value out, which the reader does not see: what stands between
  // tokens, which characters are escaped and how, and the lines of the indented form.

  import opened JsonPrinters
  import opened JsonReader
  import opened JsonRoundTrip
  import opened JsonValue
  import Text

  // ---------------------------------------------------------------------------
  // Characters

  predicate IsShort(c: char) {
    c in {'"', '\\', '\n', '\r', '\t', 8 as char, 12 as char}
  }

  predicate IsVerbatim(ascii: bool, c: char) {
    c as int >= 0x20 && c != '"' && c != '\\' && (ascii ==> c as int <= 0x7e)
  }

  predicate LowerHex(c: char) {
    '0' <= c <= '9' || 'a' <= c <= 'f'
  }

  // A character stands for itself exactly when it is no control character, quote or
  // backslash, and printable ASCII where that is asked for. Otherwise it has one of the
  // seven short escapes, or a \u escape in lower-case hex, or two beyond 16 bits.
  lemma EscapesAreExact(ascii: bool, c: char)
    ensures EscapeChar(ascii, c) == [c] <==> IsVerbatim(ascii, c)
    ensures |EscapeChar(ascii, c)| ==
              if IsVerbatim(ascii, c) then 1 else if IsShort(c) then 2 else if c as int <= 0xffff then 6 else 12
    ensures !IsVerbatim(ascii, c) && !IsShort(c) ==>
              && EscapeChar(ascii, c)[..2] == "\\u"
              && (forall i :: 2 <= i < 6 ==> LowerHex(EscapeChar(ascii, c)[i]))
              && (c as int > 0xffff ==>
                    EscapeChar(ascii, c)[6..8] == "\\u" && forall i :: 8 <= i < 12 ==> LowerHex(EscapeChar(ascii, c)[i]))
  {
  }

  // So text without such characters, non-ASCII or not, is printed as it is between quotes.
  lemma {:induction false} VerbatimText(ascii: bool, s: string)
    requires forall i :: 0 <= i < |s| ==> IsVerbatim(ascii, s[i])
    ensures Quoted(ascii, s) == "\"" + s + "\""
  {
    EscapedVerbatim(ascii, s);
  }

  lemma {:induction false} EscapedVerbatim(ascii: bool, s: string)
    requires forall i :: 0 <= i < |s| ==> IsVerbatim(ascii, s[i])
    ensures Escaped(ascii, s) == s
  {
    hide EscapeChar, IsVerbatim;
    if s != "" {
      EscapesAreExact(ascii, s[0]);
      EscapedVerbatim(ascii, s[1..]);
      assert s == [s[0]] + s[1..];
    }
  }

  // ---------------------------------------------------------------------------
  // Tokens

  datatype Token = Punct(c: char) | Comma | Colon | Str(s: string) | Word(text: string)

  function Tokens(v: Json): seq<Token>
    decreases v, 1
  {
    match v
    case Object(members) => [Punct('{')] + MemberTokens(members, true) + [Punct('}')]
    case Array(items) => [Punct('[')] + ItemTokens(items, true) + [Punct(']')]
    case String(s) => [Str(s)]
    case Number(literal) => [Word(literal)]
    case Bool(b) => [Word(if b then "true" else "false")]
    case Null => [Word("null")]
  }

  function MemberTokens(members: seq<Member>, first: bool): seq<Token>
    decreases members, 0
  {
    if members == [] then []
    else
      (if first then [] else [Comma])
      + ([Str(members[0].key), Colon] + Tokens(members[0].value) + MemberTokens(members[1..], false))
  }

  function ItemTokens(items: seq<Json>, first: bool): seq<Token>
    decreases items, 0
  {
    if items == [] then []
    else (if first then [] else [Comma]) + (Tokens(items[0]) + ItemTokens(items[1..], false))
  }

  // A token's text, with `gap` after a comma or a colon.
  function TokenText(ascii: bool, gap: string, t: Token): string {
    match t
    case Punct(c) => [c]
    case Comma => "," + gap
    case Colon => ":" + gap
    case Str(s) => Quoted(ascii, s)
    case Word(text) => text
  }

  function TextOf(ascii: bool, gap: string, ts: seq<Token>): string {
    if ts == [] then "" else TokenText(ascii, gap, ts[0]) + TextOf(ascii, gap, ts[1..])
  }

  lemma {:induction false} TextJoin(ascii: bool, gap: string, a: seq<Token>, b: seq<Token>)
    ensures TextOf(ascii, gap, a + b) == TextOf(ascii, gap, a) + TextOf(ascii, gap, b)
  {
    hide TokenText;
    if a == [] {
      assert a + b == b && "" + TextOf(ascii, gap, b) == TextOf(ascii, gap, b);
    } else {
      assert (a + b)[1..] == a[1..] + b;
      TextJoin(ascii, gap, a[1..], b);
      Text.Associative(TokenText(ascii, gap, a[0]), TextOf(ascii, gap, a[1..]), TextOf(ascii, gap, b));
    }
  }

  lemma TextOne(ascii: bool, gap: string, t: Token)
    ensures TextOf(ascii, gap, [t]) == TokenText(ascii, gap, t)
  {
    hide TokenText;
    assert [t][1..] == [] && TokenText(ascii, gap, t) + "" == TokenText(ascii, gap, t);
  }

  // A style on one line, with `gap` after commas and colons.
  predicate IsFlat(style: Style, gap: string) {
    !style.indent && style.comma == "," + gap && style.colon == ":" + gap
  }

  // A flat style prints the tokens with exactly its gap after each comma and colon, and
  // nothing else between them.
  lemma {:induction false} FlatIsTokens(style: Style, gap: string, depth: nat, v: Json)
    requires IsFlat(style, gap)
    ensures Render(style, depth, v) == TextOf(style.ascii, gap, Tokens(v))
    decreases v, 1
  {
    hide Quoted;
    var a := style.ascii;
    match v
    case Object(members) =>
      MembersAreTokens(style, gap, depth, members, true);
      Enclosed(a, gap, '{', MemberTokens(members, true), '}');
      FlatBrackets('{', RenderMembers(style, depth, members, true), '}');
    case Array(items) =>
      ItemsAreTokens(style, gap, depth, items, true);
      Enclosed(a, gap, '[', ItemTokens(items, true), ']');
      FlatBrackets('[', RenderItems(style, depth, items, true), ']');
    case String(s) => TextOne(a, gap, Str(s));
    case Number(literal) => TextOne(a, gap, Word(literal));
    case Bool(b) => TextOne(a, gap, Word(if b then "true" else "false"));
    case Null => TextOne(a, gap, Word("null"));
  }

  lemma FlatBrackets(open: char, inner: string, close: char)
    ensures [open] + "" + inner + "" + [close] == [open] + inner + [close]
    ensures inner == "" ==> [open] + inner + [close] == [open, close]
  {
    assert [open] + "" == [open] && [open] + inner + "" == [open] + inner;
  }

  lemma Enclosed(ascii: bool, gap: string, open: char, inner: seq<Token>, close: char)
    ensures TextOf(ascii, gap, [Punct(open)] + inner + [Punct(close)]) == [open] + TextOf(ascii, gap, inner) + [close]
  {
    hide TextOf;
    TextJoin(ascii, gap, [Punct(open)] + inner, [Punct(close)]);
    TextJoin(ascii, gap, [Punct(open)], inner);
    TextOne(ascii, gap, Punct(open));
    TextOne(ascii, gap, Punct(close));
  }

  lemma {:induction false} MembersAreTokens(style: Style, gap: string, depth: nat, members: seq<Member>, first: bool)
    requires IsFlat(style, gap)
    ensures RenderMembers(style, depth, members, first) == TextOf(style.ascii, gap, MemberTokens(members, first))
    decreases members, 0
  {
    hide Quoted, TextOf;
    var a := style.ascii;
    if members == [] {
      TextNone(a, gap);
    } else {
      FlatIsTokens(style, gap, Deeper(style, depth), members[0].value);
      MembersAreTokens(style, gap, depth, members[1..], false);
      var value, rest := Tokens(members[0].value), MemberTokens(members[1..], false);
      var key := [Str(members[0].key), Colon];
      TextJoin(a, gap, key + value, rest);
      TextJoin(a, gap, key, value);
      TextTwo(a, gap, Str(members[0].key), Colon);
      Separated(a, gap, key + value + rest);
    }
  }

  lemma TextNone(ascii: bool, gap: string)
    ensures TextOf(ascii, gap, []) == ""
  {
  }

  lemma TextTwo(ascii: bool, gap: string, s: Token, t: Token)
    ensures TextOf(ascii, gap, [s, t]) == TokenText(ascii, gap, s) + TokenText(ascii, gap, t)
  {
    hide TextOf;
    assert [s, t] == [s] + [t];
    TextJoin(ascii, gap, [s], [t]);
    TextOne(ascii, gap, s);
    TextOne(ascii, gap, t);
  }

  lemma Separated(ascii: bool, gap: string, ts: seq<Token>)
    ensures TextOf(ascii, gap, [Comma] + ts) == "," + gap + TextOf(ascii, gap, ts)
    ensures [] + ts == ts
  {
    hide TextOf;
    TextJoin(ascii, gap, [Comma], ts);
    TextOne(ascii, gap, Comma);
  }

  lemma {:induction false} ItemsAreTokens(style: Style, gap: string, depth: nat, items: seq<Json>, first: bool)
    requires IsFlat(style, gap)
    ensures RenderItems(style, depth, items, first) == TextOf(style.ascii, gap, ItemTokens(items, first))
    decreases items, 0
  {
    hide Quoted, TextOf;
    var a := style.ascii;
    if items == [] {
      TextNone(a, gap);
    } else {
      FlatIsTokens(style, gap, Deeper(style, depth), items[0]);
      ItemsAreTokens(style, gap, depth, items[1..], false);
      TextJoin(a, gap, Tokens(items[0]), ItemTokens(items[1..], false));
      Separated(a, gap, Tokens(items[0]) + ItemTokens(items[1..], false));
    }
  }

  // What dump, dumpASCII and dumpCompact print: the tokens, with one space after each comma
  // and colon, the same in ASCII, and with nothing between them.
  lemma FlatLayouts(v: Json)
    ensures Render(DUMP, 0, v) == TextOf(false, " ", Tokens(v))
    ensures Render(DUMP_ASCII, 0, v) == TextOf(true, " ", Tokens(v))
    ensures Render(DUMP_COMPACT, 0, v) == TextOf(false, "", Tokens(v))
  {
    FlatIsTokens(DUMP, " ", 0, v);
    FlatIsTokens(DUMP_ASCII, " ", 0, v);
    FlatIsTokens(DUMP_COMPACT, "", 0, v);
  }

  predicate NoSpace(s: string) {
    forall i :: 0 <= i < |s| ==> !IsSpace(s[i])
  }

  predicate AllTight(ts: seq<Token>) {
    forall i :: 0 <= i < |ts| ==> ts[i].Str? || NoSpace(TokenText(false, "", ts[i]))
  }

  // No token but a string holds white space, so the compact form has none outside strings.
  lemma {:induction false} TokensAreTight(v: Json)
    requires WellFormed(v)
    ensures AllTight(Tokens(v))
    decreases v, 1
  {
    match v
    case Object(members) => MembersAreTight(members, true);
    case Array(items) => ItemsAreTight(items, true);
    case Number(literal) => NumbersAreNumeric(literal);
    case _ =>
  }

  lemma {:induction false} MembersAreTight(members: seq<Member>, first: bool)
    requires forall i :: 0 <= i < |members| ==> WellFormed(members[i].value)
    ensures AllTight(MemberTokens(members, first))
    decreases members, 0
  {
    if members != [] {
      TokensAreTight(members[0].value);
      MembersAreTight(members[1..], false);
    }
  }

  lemma {:induction false} ItemsAreTight(items: seq<Json>, first: bool)
    requires forall i :: 0 <= i < |items| ==> WellFormed(items[i])
    ensures AllTight(ItemTokens(items, first))
    decreases items, 0
  {
    if items != [] {
      TokensAreTight(items[0]);
      ItemsAreTight(items[1..], false);
    }
  }

  // ---------------------------------------------------------------------------
  // Lines

  // The lines of the indented form: an empty container or a scalar on one line; otherwise
  // the brackets on lines of their own and between them the items' lines, two spaces deeper,
  // each item's last line ending with a comma unless it is the last item.
  function Lines(v: Json): (lines: seq<string>)
    ensures lines != []
    decreases v, 1
  {
    match v
    case Object(members) => if members == [] then ["{}"] else ["{"] + MemberLines(members) + ["}"]
    case Array(items) => if items == [] then ["[]"] else ["["] + ItemLines(items) + ["]"]
    case String(s) => [Quoted(false, s)]
    case Number(literal) => [literal]
    case Bool(b) => [if b then "true" else "false"]
    case Null => ["null"]
  }

  function MemberLines(members: seq<Member>): (lines: seq<string>)
    ensures members != [] ==> lines != []
    decreases members, 0
  {
    if members == [] then []
    else
      Deep(Last(Headed(Quoted(false, members[0].key) + ": ", Lines(members[0].value)), if |members| > 1 then "," else ""))
      + MemberLines(members[1..])
  }

  function ItemLines(items: seq<Json>): (lines: seq<string>)
    ensures items != [] ==> lines != []
    decreases items, 0
  {
    if items == [] then []
    else Deep(Last(Lines(items[0]), if |items| > 1 then "," else "")) + ItemLines(items[1..])
  }

  // Each line two spaces deeper.
  function Deep(lines: seq<string>): (r: seq<string>)
    ensures |r| == |lines|
  {
    seq(|lines|, i requires 0 <= i < |lines| => "  " + lines[i])
  }

  // The first line after a head, and the last one before an end.
  function Headed(head: string, lines: seq<string>): (r: seq<string>)
    requires lines != []
    ensures |r| == |lines|
  {
    lines[0 := head + lines[0]]
  }

  function Last(lines: seq<string>, end: string): (r: seq<string>)
    requires lines != []
    ensures |r| == |lines|
  {
    lines[|lines| - 1 := lines[|lines| - 1] + end]
  }

  // The lines as a text, each but the first after `pad`.
  function Page(pad: string, lines: seq<string>): string
    requires lines != []
  {
    if |lines| == 1 then lines[0] else lines[0] + ("\n" + pad + Page(pad, lines[1..]))
  }

  lemma {:induction false} PageJoin(pad: string, a: seq<string>, b: seq<string>)
    requires a != [] && b != []
    ensures Page(pad, a + b) == Page(pad, a) + ("\n" + pad + Page(pad, b))
  {
    var more := "\n" + pad + Page(pad, b);
    if |a| == 1 {
      assert (a + b)[1..] == b;
    } else {
      assert (a + b)[1..] == a[1..] + b;
      PageJoin(pad, a[1..], b);
      var rest := Page(pad, a[1..]);
      Text.Associative("\n" + pad, rest, more);
      Text.Associative(a[0], "\n" + pad + rest, more);
    }
  }

  lemma {:induction false} PageDeep(pad: string, lines: seq<string>)
    requires lines != []
    ensures Page(pad, Deep(lines)) == "  " + Page(pad + "  ", lines)
  {
    if |lines| > 1 {
      assert Deep(lines)[1..] == Deep(lines[1..]);
      PageDeep(pad, lines[1..]);
      var rest := Page(pad + "  ", lines[1..]);
      Text.Associative("\n" + pad, "  ", rest);
      Text.Associative("\n", pad, "  ");
      Text.Associative("  ", lines[0], "\n" + (pad + "  ") + rest);
    }
  }

  lemma PageHeaded(pad: string, head: string, lines: seq<string>)
    requires lines != []
    ensures Page(pad, Headed(head, lines)) == head + Page(pad, lines)
  {
    if |lines| > 1 {
      assert Headed(head, lines)[1..] == lines[1..];
      Text.Associative(head, lines[0], "\n" + pad + Page(pad, lines[1..]));
    }
  }

  lemma {:induction false} PageLast(pad: string, lines: seq<string>, end: string)
    requires lines != []
    ensures Page(pad, Last(lines, end)) == Page(pad, lines) + end
  {
    if |lines| > 1 {
      assert Last(lines, end)[1..] == Last(lines[1..], end);
      PageLast(pad, lines[1..], end);
      var rest := Page(pad, lines[1..]);
      Text.Associative("\n" + pad, rest, end);
      Text.Associative(lines[0], "\n" + pad + rest, end);
    }
  }

  lemma {:induction false} SpacesEnd(depth: nat)
    ensures Spaces(depth) + "  " == Spaces(depth + 1)
  {
    if depth == 0 {
      assert "" + "  " == "  " + "";
    } else {
      SpacesEnd(depth - 1);
      Text.Associative("  ", Spaces(depth - 1), "  ");
    }
  }

  // An entry at one level deeper, before what is written after it.
  lemma EntryLines(depth: nat, lines: seq<string>, end: string)
    requires lines != []
    ensures Spaces(depth) + Page(Spaces(depth), Deep(Last(lines, end)))
         == Spaces(depth + 1) + (Page(Spaces(depth + 1), lines) + end)
  {
    hide Page, Deep, Last, Spaces;
    SpacesEnd(depth);
    PageDeep(Spaces(depth), Last(lines, end));
    PageLast(Spaces(depth + 1), lines, end);
    Text.Associative(Spaces(depth), "  ", Page(Spaces(depth + 1), lines) + end);
  }

  // What dumpIndent prints, at any depth: these lines, each after two spaces per level.
  lemma {:induction false} IndentIsLines(depth: nat, v: Json)
    ensures Render(DUMP_INDENT, depth, v) == Page(Spaces(depth), Lines(v))
    decreases v, 1
  {
    hide Quoted, Spaces, Page;
    var pad := Spaces(depth);
    match v
    case Object(members) =>
      if members == [] {
        PageOne(pad, "{}");
      } else {
        MembersAreLines(depth, members);
        BracketLines(depth, "{", MemberLines(members), RenderMembers(DUMP_INDENT, depth, members, true), "}");
      }
    case Array(items) =>
      if items == [] {
        PageOne(pad, "[]");
      } else {
        ItemsAreLines(depth, items);
        BracketLines(depth, "[", ItemLines(items), RenderItems(DUMP_INDENT, depth, items, true), "]");
      }
    case String(s) => PageOne(pad, Quoted(false, s));
    case Number(literal) => PageOne(pad, literal);
    case Bool(b) => PageOne(pad, if b then "true" else "false");
    case Null => PageOne(pad, "null");
  }

  lemma PageOne(pad: string, line: string)
    ensures Page(pad, [line]) == line
  {
  }

  lemma BracketLines(depth: nat, open: string, lines: seq<string>, inner: string, close: string)
    requires lines != [] && Spaces(depth) + Page(Spaces(depth), lines) == Spaces(depth + 1) + inner
    ensures Page(Spaces(depth), [open] + lines + [close])
         == open + ("\n" + Spaces(depth + 1)) + inner + ("\n" + Spaces(depth)) + close
  {
    hide Page, Spaces;
    var pad := Spaces(depth);
    PageJoin(pad, [open] + lines, [close]);
    PageJoin(pad, [open], lines);
    PageOne(pad, open);
    PageOne(pad, close);
    var body := Page(pad, lines);
    Text.Associative("\n", pad, body);
    Text.Associative("\n", Spaces(depth + 1), inner);
    Text.Associative(open, "\n" + Spaces(depth + 1), inner);
    Text.Associative(open + ("\n" + Spaces(depth + 1)) + inner, "\n" + pad, close);
  }

  lemma {:induction false} MembersAreLines(depth: nat, members: seq<Member>)
    requires members != []
    ensures Spaces(depth) + Page(Spaces(depth), MemberLines(members))
         == Spaces(depth + 1) + RenderMembers(DUMP_INDENT, depth, members, true)
    decreases members, 0
  {
    hide Quoted, Spaces, Page, Deep, Last, Headed;
    var deeper := Spaces(depth + 1);
    var key, value := Quoted(false, members[0].key) + ": ", Render(DUMP_INDENT, depth + 1, members[0].value);
    IndentIsLines(depth + 1, members[0].value);
    var entry := Headed(key, Lines(members[0].value));
    PageHeaded(deeper, key, Lines(members[0].value));
    if |members| == 1 {
      EntryLines(depth, entry, "");
      assert members[1..] == [] && Deep(Last(entry, "")) + [] == Deep(Last(entry, ""));
      assert RenderMembers(DUMP_INDENT, depth, members, true) == key + value + "";
    } else {
      EntryLines(depth, entry, ",");
      MembersAreLines(depth, members[1..]);
      MoreLines(depth, Deep(Last(entry, ",")), key + value, MemberLines(members[1..]),
                RenderMembers(DUMP_INDENT, depth, members[1..], true));
      assert RenderMembers(DUMP_INDENT, depth, members[1..], false)
          == ",\n" + deeper + RenderMembers(DUMP_INDENT, depth, members[1..], true);
    }
  }

  // An entry with a comma, and the entries after it.
  lemma MoreLines(depth: nat, lines: seq<string>, text: string, more: seq<string>, rest: string)
    requires lines != [] && more != []
    requires Spaces(depth) + Page(Spaces(depth), lines) == Spaces(depth + 1) + (text + ",")
    requires Spaces(depth) + Page(Spaces(depth), more) == Spaces(depth + 1) + rest
    ensures Spaces(depth) + Page(Spaces(depth), lines + more)
         == Spaces(depth + 1) + (text + (",\n" + Spaces(depth + 1) + rest))
  {
    hide Page, Spaces;
    var pad, deeper := Spaces(depth), Spaces(depth + 1);
    PageJoin(pad, lines, more);
    var a, b := Page(pad, lines), Page(pad, more);
    Text.Associative("\n", pad, b);
    Text.Associative(pad, a, "\n" + (pad + b));
    Text.Associative(deeper, text + ",", "\n" + (deeper + rest));
    Text.Associative(text, ",", "\n" + (deeper + rest));
    assert "," + ("\n" + (deeper + rest)) == ",\n" + deeper + rest;
  }

  lemma {:induction false} ItemsAreLines(depth: nat, items: seq<Json>)
    requires items != []
    ensures Spaces(depth) + Page(Spaces(depth), ItemLines(items))
         == Spaces(depth + 1) + RenderItems(DUMP_INDENT, depth, items, true)
    decreases items, 0
  {
    hide Quoted, Spaces, Page, Deep, Last, Headed;
    var deeper := Spaces(depth + 1);
    var entry, value := Lines(items[0]), Render(DUMP_INDENT, depth + 1, items[0]);
    IndentIsLines(depth + 1, items[0]);
    if |items| == 1 {
      EntryLines(depth, entry, "");
      assert items[1..] == [] && Deep(Last(entry, "")) + [] == Deep(Last(entry, ""));
      assert RenderItems(DUMP_INDENT, depth, items, true) == value + "";
    } else {
      EntryLines(depth, entry, ",");
      ItemsAreLines(depth, items[1..]);
      MoreLines(depth, Deep(Last(entry, ",")), value, ItemLines(items[1..]),
                RenderItems(DUMP_INDENT, depth, items[1..], true));
      assert RenderItems(DUMP_INDENT, depth, items[1..], false)
          == ",\n" + deeper + RenderItems(DUMP_INDENT, depth, items[1..], true);
    }
  }
}
