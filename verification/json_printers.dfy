// The four JSON printers of api/tool_calling.go, api/anthropic_stream.go,
// api/anthropic_convert.go and api/structured_output.go, each proved to print a text that
// the grammar of RFC 8259 reads back as the printed value.
module JsonPrinters {
  import opened JsonValue
  import Text

  // A style fixes what the printers differ in: whether non-ASCII is escaped, the texts
  // between items and after a key, and whether containers are spread over indented lines.
  datatype Style = Style(ascii: bool, comma: string, colon: string, indent: bool)

  const DUMP := Style(false, ", ", ": ", false)
  const DUMP_ASCII := Style(true, ", ", ": ", false)
  const DUMP_COMPACT := Style(false, ",", ":", false)
  const DUMP_INDENT := Style(false, ",\n", ": ", true)

  // ---------------------------------------------------------------------------
  // What the printers write

  function Hex(d: int): (c: char)
    requires 0 <= d < 16
  {
    if d < 10 then '0' + d as char else 'a' + (d - 10) as char
  }

  function UnicodeEscape(c: int): string
    requires 0 <= c < 0x1_0000
  {
    ['\\', 'u', Hex(c / 0x1000), Hex(c / 0x100 % 16), Hex(c / 0x10 % 16), Hex(c % 16)]
  }

  function EscapeChar(ascii: bool, c: char): string {
    var r := c as int;
    if c == '"' then "\\\""
    else if c == '\\' then "\\\\"
    else if c == '\n' then "\\n"
    else if c == '\r' then "\\r"
    else if c == '\t' then "\\t"
    else if r == 0x08 then "\\b"
    else if r == 0x0c then "\\f"
    else if r < 0x20 then UnicodeEscape(r)
    else if ascii && r > 0x7e then
      if r > 0xffff then
        UnicodeEscape(0xd800 + (r - 0x1_0000) / 0x400) + UnicodeEscape(0xdc00 + (r - 0x1_0000) % 0x400)
      else UnicodeEscape(r)
    else [c]
  }

  function Escaped(ascii: bool, s: string): string {
    if s == "" then "" else EscapeChar(ascii, s[0]) + Escaped(ascii, s[1..])
  }

  function Quoted(ascii: bool, s: string): string {
    "\"" + Escaped(ascii, s) + "\""
  }

  function Spaces(depth: nat): string {
    if depth == 0 then "" else "  " + Spaces(depth - 1)
  }

  // The white space before an item of a container, and before its closing bracket.
  function Line(style: Style, depth: nat): string {
    if style.indent then "\n" + Spaces(depth) else ""
  }

  function Separator(style: Style, depth: nat): string {
    if style.indent then style.comma + Spaces(depth + 1) else style.comma
  }

  function Deeper(style: Style, depth: nat): nat {
    if style.indent then depth + 1 else depth
  }

  function Render(style: Style, depth: nat, v: Json): string
    decreases v, 1
  {
    match v
    case Object(members) =>
      if members == [] then "{}"
      else "{" + Line(style, depth + 1) + RenderMembers(style, depth, members, true) + Line(style, depth) + "}"
    case Array(items) =>
      if items == [] then "[]"
      else "[" + Line(style, depth + 1) + RenderItems(style, depth, items, true) + Line(style, depth) + "]"
    case String(s) => Quoted(style.ascii, s)
    case Number(literal) => literal
    case Bool(b) => if b then "true" else "false"
    case Null => "null"
  }

  function RenderMembers(style: Style, depth: nat, members: seq<Member>, first: bool): string
    decreases members, 0
  {
    if members == [] then ""
    else
      var text := Quoted(style.ascii, members[0].key) + style.colon
                  + Render(style, Deeper(style, depth), members[0].value)
                  + RenderMembers(style, depth, members[1..], false);
      if first then text else Separator(style, depth) + text
  }

  function RenderItems(style: Style, depth: nat, items: seq<Json>, first: bool): string
    decreases items, 0
  {
    if items == [] then ""
    else
      var text := Render(style, Deeper(style, depth), items[0]) + RenderItems(style, depth, items[1..], false);
      if first then text else Separator(style, depth) + text
  }

  // ---------------------------------------------------------------------------
  // The printers

  class Builder {
    var text: string

    constructor ()
      ensures text == ""
    {
      text := "";
    }

    method Append(s: string)
      modifies this
      ensures text == old(text) + s
    {
      text := text + s;
    }
  }

  method WriteUnicodeEscape(b: Builder, c: int)
    requires 0 <= c < 0x1_0000
    modifies b
    ensures b.text == old(b.text) + UnicodeEscape(c)
  {
    b.Append("\\u");
    b.Append([Hex(c / 0x1000 % 16)]);
    b.Append([Hex(c / 0x100 % 16)]);
    b.Append([Hex(c / 0x10 % 16)]);
    b.Append([Hex(c % 16)]);
  }

  // The switch of escapeString, for one rune.
  method EscapeRune(b: Builder, c: char, asciiOnly: bool)
    modifies b
    ensures b.text == old(b.text) + EscapeChar(asciiOnly, c)
  {
    ghost var before := b.text;
    var r := c as int;
    if c == '"' {
      b.Append("\\\"");
    } else if c == '\\' {
      b.Append("\\\\");
    } else if c == '\n' {
      b.Append("\\n");
    } else if c == '\r' {
      b.Append("\\r");
    } else if c == '\t' {
      b.Append("\\t");
    } else if r == 0x08 {
      b.Append("\\b");
    } else if r == 0x0c {
      b.Append("\\f");
    } else if r < 0x20 {
      WriteUnicodeEscape(b, r);
    } else if asciiOnly && r > 0x7e {
      if r > 0xffff {
        var p := r - 0x1_0000;
        WriteUnicodeEscape(b, 0xd800 + p / 0x400);
        WriteUnicodeEscape(b, 0xdc00 + p % 0x400);
        Text.Associative(before, UnicodeEscape(0xd800 + p / 0x400), UnicodeEscape(0xdc00 + p % 0x400));
      } else {
        WriteUnicodeEscape(b, r);
      }
    } else {
      b.Append([c]);
    }
  }

  method EscapeString(b: Builder, s: string, asciiOnly: bool)
    modifies b
    ensures b.text == old(b.text) + Quoted(asciiOnly, s)
  {
    b.Append("\"");
    ghost var start := b.text;
    for i := 0 to |s|
      invariant b.text + Escaped(asciiOnly, s[i..]) == start + Escaped(asciiOnly, s)
    {
      assert s[i..][0] == s[i] && s[i..][1..] == s[i + 1..];
      Text.Associative(b.text, EscapeChar(asciiOnly, s[i]), Escaped(asciiOnly, s[i + 1..]));
      EscapeRune(b, s[i], asciiOnly);
    }
    b.Append("\"");
    QuoteWritten(old(b.text), Escaped(asciiOnly, s));
  }

  lemma QuoteWritten(before: string, body: string)
    ensures before + "\"" + body + "\"" == before + ("\"" + body + "\"")
  {
    Text.Associative(before, "\"", body);
    Text.Associative(before, "\"" + body, "\"");
  }

  // A member written after `before` is the head of the members still to be rendered.
  lemma MemberWritten(style: Style, depth: nat, before: string, members: seq<Member>, i: nat, lead: string, after: string)
    requires i < |members|
    requires lead == if i == 0 then before else before + Separator(style, depth)
    requires after == lead + Quoted(style.ascii, members[i].key) + style.colon
                      + Render(style, Deeper(style, depth), members[i].value)
    ensures after + RenderMembers(style, depth, members[i + 1..], false)
         == before + RenderMembers(style, depth, members[i..], i == 0)
  {
    assert members[i..][0] == members[i] && members[i..][1..] == members[i + 1..];
    var key, value := Quoted(style.ascii, members[i].key), Render(style, Deeper(style, depth), members[i].value);
    var rest := RenderMembers(style, depth, members[i + 1..], false);
    Text.Associative(lead, key, style.colon);
    Text.Associative(lead, key + style.colon, value);
    Text.Associative(lead, key + style.colon + value, rest);
    Text.Associative(before, Separator(style, depth), key + style.colon + value + rest);
  }

  lemma ItemWritten(style: Style, depth: nat, before: string, items: seq<Json>, i: nat, lead: string, after: string)
    requires i < |items|
    requires lead == if i == 0 then before else before + Separator(style, depth)
    requires after == lead + Render(style, Deeper(style, depth), items[i])
    ensures after + RenderItems(style, depth, items[i + 1..], false)
         == before + RenderItems(style, depth, items[i..], i == 0)
  {
    assert items[i..][0] == items[i] && items[i..][1..] == items[i + 1..];
    var value := Render(style, Deeper(style, depth), items[i]);
    var rest := RenderItems(style, depth, items[i + 1..], false);
    Text.Associative(lead, value, rest);
    Text.Associative(before, Separator(style, depth), value + rest);
  }

  lemma BracketedFlat(before: string, open: char, items: string, close: char)
    ensures before + [open] + items + [close] == before + ([open] + "" + items + "" + [close])
    ensures items == "" ==> before + [open] + items + [close] == before + [open, close]
  {
    assert [open] + "" == [open];
    assert [open] + items + "" == [open] + items;
    Text.Associative(before, [open], items);
    Text.Associative(before, [open] + items, [close]);
    if items == "" {
      assert [open] + items + [close] == [open, close];
    }
  }

  lemma Bracketed(before: string, open: char, inner: string, items: string, outer: string, close: string)
    ensures before + [open, '\n'] + inner + items + "\n" + outer + close
         == before + ([open] + ("\n" + inner) + items + ("\n" + outer) + close)
  {
    assert [open] + "\n" == [open, '\n'];
    Text.Associative([open], "\n", inner);
    var head := [open, '\n'] + inner;
    Text.Associative(before, [open, '\n'], inner);
    Text.Associative(before, head, items);
    Text.Associative(before + (head + items), "\n", outer);
    Text.Associative(before, head + items, "\n" + outer);
    Text.Associative(before, head + items + ("\n" + outer), close);
  }

  // write of api/tool_calling.go
  method Write(v: Json, b: Builder)
    modifies b
    ensures b.text == old(b.text) + Render(DUMP, 0, v)
    decreases v, 1
  {
    match v
    case Object(members) =>
      b.Append("{");
      WriteMembers(members, b);
      b.Append("}");
      BracketedFlat(old(b.text), '{', RenderMembers(DUMP, 0, members, true), '}');
    case Array(items) =>
      b.Append("[");
      WriteItems(items, b);
      b.Append("]");
      BracketedFlat(old(b.text), '[', RenderItems(DUMP, 0, items, true), ']');
    case String(s) => EscapeString(b, s, false);
    case Number(literal) => b.Append(literal);
    case Bool(x) => b.Append(if x then "true" else "false");
    case Null => b.Append("null");
  }

  method WriteMembers(members: seq<Member>, b: Builder)
    modifies b
    ensures b.text == old(b.text) + RenderMembers(DUMP, 0, members, true)
    decreases members, 0
  {
    ghost var start := b.text;
    for i := 0 to |members|
      invariant b.text + RenderMembers(DUMP, 0, members[i..], i == 0)
             == start + RenderMembers(DUMP, 0, members, true)
    {
      ghost var before := b.text;
      if i > 0 {
        b.Append(", ");
      }
      ghost var lead := b.text;
      EscapeString(b, members[i].key, false);
      b.Append(": ");
      Write(members[i].value, b);
      MemberWritten(DUMP, 0, before, members, i, lead, b.text);
    }
  }

  method WriteItems(items: seq<Json>, b: Builder)
    modifies b
    ensures b.text == old(b.text) + RenderItems(DUMP, 0, items, true)
    decreases items, 0
  {
    ghost var start := b.text;
    for i := 0 to |items|
      invariant b.text + RenderItems(DUMP, 0, items[i..], i == 0)
             == start + RenderItems(DUMP, 0, items, true)
    {
      ghost var before := b.text;
      if i > 0 {
        b.Append(", ");
      }
      ghost var lead := b.text;
      Write(items[i], b);
      ItemWritten(DUMP, 0, before, items, i, lead, b.text);
    }
  }

  // writeASCII of api/anthropic_stream.go
  method WriteASCII(v: Json, b: Builder)
    modifies b
    ensures b.text == old(b.text) + Render(DUMP_ASCII, 0, v)
    decreases v, 1
  {
    match v
    case Object(members) =>
      b.Append("{");
      WriteASCIIMembers(members, b);
      b.Append("}");
      BracketedFlat(old(b.text), '{', RenderMembers(DUMP_ASCII, 0, members, true), '}');
    case Array(items) =>
      b.Append("[");
      WriteASCIIItems(items, b);
      b.Append("]");
      BracketedFlat(old(b.text), '[', RenderItems(DUMP_ASCII, 0, items, true), ']');
    case String(s) => EscapeString(b, s, true);
    case Number(literal) => b.Append(literal);
    case Bool(x) => b.Append(if x then "true" else "false");
    case Null => b.Append("null");
  }

  method WriteASCIIMembers(members: seq<Member>, b: Builder)
    modifies b
    ensures b.text == old(b.text) + RenderMembers(DUMP_ASCII, 0, members, true)
    decreases members, 0
  {
    ghost var start := b.text;
    for i := 0 to |members|
      invariant b.text + RenderMembers(DUMP_ASCII, 0, members[i..], i == 0)
             == start + RenderMembers(DUMP_ASCII, 0, members, true)
    {
      ghost var before := b.text;
      if i > 0 {
        b.Append(", ");
      }
      ghost var lead := b.text;
      EscapeString(b, members[i].key, true);
      b.Append(": ");
      WriteASCII(members[i].value, b);
      MemberWritten(DUMP_ASCII, 0, before, members, i, lead, b.text);
    }
  }

  method WriteASCIIItems(items: seq<Json>, b: Builder)
    modifies b
    ensures b.text == old(b.text) + RenderItems(DUMP_ASCII, 0, items, true)
    decreases items, 0
  {
    ghost var start := b.text;
    for i := 0 to |items|
      invariant b.text + RenderItems(DUMP_ASCII, 0, items[i..], i == 0)
             == start + RenderItems(DUMP_ASCII, 0, items, true)
    {
      ghost var before := b.text;
      if i > 0 {
        b.Append(", ");
      }
      ghost var lead := b.text;
      WriteASCII(items[i], b);
      ItemWritten(DUMP_ASCII, 0, before, items, i, lead, b.text);
    }
  }

  // writeCompact of api/anthropic_convert.go
  method WriteCompact(v: Json, b: Builder)
    modifies b
    ensures b.text == old(b.text) + Render(DUMP_COMPACT, 0, v)
    decreases v, 1
  {
    match v
    case Object(members) =>
      b.Append("{");
      WriteCompactMembers(members, b);
      b.Append("}");
      BracketedFlat(old(b.text), '{', RenderMembers(DUMP_COMPACT, 0, members, true), '}');
    case Array(items) =>
      b.Append("[");
      WriteCompactItems(items, b);
      b.Append("]");
      BracketedFlat(old(b.text), '[', RenderItems(DUMP_COMPACT, 0, items, true), ']');
    case String(s) => EscapeString(b, s, false);
    case Number(literal) => b.Append(literal);
    case Bool(x) => b.Append(if x then "true" else "false");
    case Null => b.Append("null");
  }

  method WriteCompactMembers(members: seq<Member>, b: Builder)
    modifies b
    ensures b.text == old(b.text) + RenderMembers(DUMP_COMPACT, 0, members, true)
    decreases members, 0
  {
    ghost var start := b.text;
    for i := 0 to |members|
      invariant b.text + RenderMembers(DUMP_COMPACT, 0, members[i..], i == 0)
             == start + RenderMembers(DUMP_COMPACT, 0, members, true)
    {
      ghost var before := b.text;
      if i > 0 {
        b.Append(",");
      }
      ghost var lead := b.text;
      EscapeString(b, members[i].key, false);
      b.Append(":");
      WriteCompact(members[i].value, b);
      MemberWritten(DUMP_COMPACT, 0, before, members, i, lead, b.text);
    }
  }

  method WriteCompactItems(items: seq<Json>, b: Builder)
    modifies b
    ensures b.text == old(b.text) + RenderItems(DUMP_COMPACT, 0, items, true)
    decreases items, 0
  {
    ghost var start := b.text;
    for i := 0 to |items|
      invariant b.text + RenderItems(DUMP_COMPACT, 0, items[i..], i == 0)
             == start + RenderItems(DUMP_COMPACT, 0, items, true)
    {
      ghost var before := b.text;
      if i > 0 {
        b.Append(",");
      }
      ghost var lead := b.text;
      WriteCompact(items[i], b);
      ItemWritten(DUMP_COMPACT, 0, before, items, i, lead, b.text);
    }
  }

  // writeIndent of api/structured_output.go
  method WriteIndent(v: Json, b: Builder, depth: nat)
    modifies b
    ensures b.text == old(b.text) + Render(DUMP_INDENT, depth, v)
    decreases v, 1
  {
    match v
    case Object(members) =>
      if |members| == 0 {
        b.Append("{}");
        return;
      }
      b.Append("{\n");
      WriteIndentMembers(members, b, depth);
      b.Append("\n");
      b.Append(Spaces(depth));
      b.Append("}");
      Bracketed(old(b.text), '{', Spaces(depth + 1), RenderMembers(DUMP_INDENT, depth, members, true), Spaces(depth), "}");
    case Array(items) =>
      if |items| == 0 {
        b.Append("[]");
        return;
      }
      b.Append("[\n");
      WriteIndentItems(items, b, depth);
      b.Append("\n");
      b.Append(Spaces(depth));
      b.Append("]");
      Bracketed(old(b.text), '[', Spaces(depth + 1), RenderItems(DUMP_INDENT, depth, items, true), Spaces(depth), "]");
    case _ => Write(v, b);
  }

  method WriteIndentMembers(members: seq<Member>, b: Builder, depth: nat)
    requires members != []
    modifies b
    ensures b.text == old(b.text) + Spaces(depth + 1) + RenderMembers(DUMP_INDENT, depth, members, true)
    decreases members, 0
  {
    ghost var start := b.text + Spaces(depth + 1);
    ghost var done := start;
    for i := 0 to |members|
      invariant if i == 0 then b.text == old(b.text) && done == start else b.text == done
      invariant done + RenderMembers(DUMP_INDENT, depth, members[i..], i == 0)
             == start + RenderMembers(DUMP_INDENT, depth, members, true)
    {
      if i > 0 {
        b.Append(",\n");
        Text.Associative(done, ",\n", Spaces(depth + 1));
      }
      b.Append(Spaces(depth + 1));
      ghost var lead := b.text;
      EscapeString(b, members[i].key, false);
      b.Append(": ");
      WriteIndent(members[i].value, b, depth + 1);
      MemberWritten(DUMP_INDENT, depth, done, members, i, lead, b.text);
      done := b.text;
    }
  }

  method WriteIndentItems(items: seq<Json>, b: Builder, depth: nat)
    requires items != []
    modifies b
    ensures b.text == old(b.text) + Spaces(depth + 1) + RenderItems(DUMP_INDENT, depth, items, true)
    decreases items, 0
  {
    ghost var start := b.text + Spaces(depth + 1);
    ghost var done := start;
    for i := 0 to |items|
      invariant if i == 0 then b.text == old(b.text) && done == start else b.text == done
      invariant done + RenderItems(DUMP_INDENT, depth, items[i..], i == 0)
             == start + RenderItems(DUMP_INDENT, depth, items, true)
    {
      if i > 0 {
        b.Append(",\n");
        Text.Associative(done, ",\n", Spaces(depth + 1));
      }
      b.Append(Spaces(depth + 1));
      ghost var lead := b.text;
      WriteIndent(items[i], b, depth + 1);
      ItemWritten(DUMP_INDENT, depth, done, items, i, lead, b.text);
      done := b.text;
    }
  }
}
