// A reader for the JSON grammar of RFC 8259, sections 2 to 7, into the ordered value model.
// It knows nothing of the printers.
module JsonReader {
  import opened JsonValue
  import opened Wrappers

  datatype Read<+T> = Fail | Ok(value: T, rest: string)

  predicate IsSpace(c: char) {
    c == ' ' || c == '\t' || c == '\n' || c == '\r'
  }

  function SkipSpace(s: string): (rest: string)
    ensures |rest| <= |s|
  {
    if s != "" && IsSpace(s[0]) then SkipSpace(s[1..]) else s
  }

  predicate Starts(s: string, c: char) {
    s != "" && s[0] == c
  }

  predicate IsDigit(c: char) {
    '0' <= c <= '9'
  }

  function AfterDigits(s: string): (rest: string)
    ensures |rest| <= |s|
  {
    if s != "" && IsDigit(s[0]) then AfterDigits(s[1..]) else s
  }

  // int = zero / ( digit1-9 *DIGIT )
  function AfterInt(s: string): (rest: Option<string>)
    ensures rest.Some? ==> |rest.value| < |s|
  {
    if s == "" || !IsDigit(s[0]) then None
    else if s[0] == '0' then Some(s[1..])
    else Some(AfterDigits(s[1..]))
  }

  // [ frac ]
  function AfterFrac(s: string): (rest: Option<string>)
    ensures rest.Some? ==> |rest.value| <= |s|
  {
    if !Starts(s, '.') then Some(s)
    else if s[1..] == "" || !IsDigit(s[1]) then None
    else Some(AfterDigits(s[1..]))
  }

  // [ exp ]
  function AfterExp(s: string): (rest: Option<string>)
    ensures rest.Some? ==> |rest.value| <= |s|
  {
    if !Starts(s, 'e') && !Starts(s, 'E') then Some(s)
    else
      var t := if Starts(s[1..], '+') || Starts(s[1..], '-') then s[2..] else s[1..];
      if t == "" || !IsDigit(t[0]) then None else Some(AfterDigits(t))
  }

  // number = [ minus ] int [ frac ] [ exp ]
  function AfterNumber(s: string): (rest: Option<string>)
    ensures rest.Some? ==> |rest.value| < |s|
  {
    var i := AfterInt(if Starts(s, '-') then s[1..] else s);
    if i.None? then None
    else
      var f := AfterFrac(i.value);
      if f.None? then None else AfterExp(f.value)
  }

  predicate IsNumber(literal: string) {
    AfterNumber(literal) == Some("")
  }

  function HexValue(c: char): (v: Option<int>)
    ensures v.Some? ==> 0 <= v.value < 16
  {
    if '0' <= c <= '9' then Some(c as int - '0' as int)
    else if 'a' <= c <= 'f' then Some(c as int - 'a' as int + 10)
    else if 'A' <= c <= 'F' then Some(c as int - 'A' as int + 10)
    else None
  }

  // The four hex digits at the start of s.
  function Hex4(s: string): (v: Option<int>)
    ensures v.Some? ==> |s| >= 4 && 0 <= v.value < 0x1_0000
  {
    if |s| < 4 then None
    else
      var a, b, c, d := HexValue(s[0]), HexValue(s[1]), HexValue(s[2]), HexValue(s[3]);
      if a.None? || b.None? || c.None? || d.None? then None
      else Some(a.value * 0x1000 + b.value * 0x100 + c.value * 0x10 + d.value)
  }

  const REPLACEMENT: char := '\U{FFFD}'

  // The character of a \u escape, after the \u. A high surrogate joins the low surrogate
  // that must follow it; a lone surrogate reads as the replacement character.
  function ReadUnicode(s: string): (r: Read<char>)
    ensures r.Ok? ==> |r.rest| < |s|
  {
    var v := Hex4(s);
    if v.None? then Fail
    else if 0xd800 <= v.value < 0xdc00 then
      if |s| >= 6 && s[4] == '\\' && s[5] == 'u' && Hex4(s[6..]).Some? && 0xdc00 <= Hex4(s[6..]).value < 0xe000 then
        Ok((0x1_0000 + (v.value - 0xd800) * 0x400 + (Hex4(s[6..]).value - 0xdc00)) as char, s[10..])
      else Ok(REPLACEMENT, s[4..])
    else if 0xdc00 <= v.value < 0xe000 then Ok(REPLACEMENT, s[4..])
    else Ok(v.value as char, s[4..])
  }

  // One character of a string, escaped or not.
  function ReadChar(s: string): (r: Read<char>)
    requires s != ""
    ensures r.Ok? ==> |r.rest| < |s|
  {
    if s[0] != '\\' then
      if s[0] as int < 0x20 || s[0] == '"' then Fail else Ok(s[0], s[1..])
    else if |s| < 2 then Fail
    else
      match s[1]
      case '"' => Ok('"', s[2..])
      case '\\' => Ok('\\', s[2..])
      case '/' => Ok('/', s[2..])
      case 'b' => Ok(8 as char, s[2..])
      case 'f' => Ok(12 as char, s[2..])
      case 'n' => Ok('\n', s[2..])
      case 'r' => Ok('\r', s[2..])
      case 't' => Ok('\t', s[2..])
      case 'u' => ReadUnicode(s[2..])
      case _ => Fail
  }

  // The characters of a string, up to and over its closing quote.
  function ReadChars(s: string): (r: Read<string>)
    ensures r.Ok? ==> |r.rest| < |s|
    decreases |s|
  {
    if s == "" then Fail
    else if s[0] == '"' then Ok("", s[1..])
    else
      var c := ReadChar(s);
      if c.Fail? then Fail
      else
        var more := ReadChars(c.rest);
        if more.Fail? then Fail else Ok([c.value] + more.value, more.rest)
  }

  function ReadString(s: string): (r: Read<string>)
    ensures r.Ok? ==> |r.rest| < |s|
  {
    if Starts(s, '"') then ReadChars(s[1..]) else Fail
  }

  function ReadWord(s: string, word: string, v: Json): (r: Read<Json>)
    requires word != ""
    ensures r.Ok? ==> |r.rest| < |s|
  {
    if word <= s then Ok(v, s[|word|..]) else Fail
  }

  function ReadNumber(s: string): (r: Read<Json>)
    ensures r.Ok? ==> |r.rest| < |s|
  {
    var rest := AfterNumber(s);
    if rest.None? then Fail else Ok(Number(s[..|s| - |rest.value|]), rest.value)
  }

  // A value, with no white space before it.
  function ReadValue(s: string): (r: Read<Json>)
    ensures r.Ok? ==> |r.rest| < |s|
    decreases |s|, 1
  {
    if s == "" then Fail
    else
      match s[0]
      case '{' =>
        var t := SkipSpace(s[1..]);
        if Starts(t, '}') then Ok(Object([]), t[1..])
        else
          var ms := ReadMembers(t);
          if ms.Fail? then Fail else Ok(Object(ms.value), ms.rest)
      case '[' =>
        var t := SkipSpace(s[1..]);
        if Starts(t, ']') then Ok(Array([]), t[1..])
        else
          var vs := ReadItems(t);
          if vs.Fail? then Fail else Ok(Array(vs.value), vs.rest)
      case '"' =>
        var str := ReadString(s);
        if str.Fail? then Fail else Ok(String(str.value), str.rest)
      case 't' => ReadWord(s, "true", Bool(true))
      case 'f' => ReadWord(s, "false", Bool(false))
      case 'n' => ReadWord(s, "null", Null)
      case _ => ReadNumber(s)
  }

  // One or more members, up to and over the closing brace.
  function ReadMembers(s: string): (r: Read<seq<Member>>)
    ensures r.Ok? ==> |r.rest| < |s|
    decreases |s|, 2
  {
    var key := ReadString(s);
    if key.Fail? then Fail
    else
      var colon := SkipSpace(key.rest);
      if !Starts(colon, ':') then Fail
      else
        var v := ReadValue(SkipSpace(colon[1..]));
        if v.Fail? then Fail
        else
          var t := SkipSpace(v.rest);
          if Starts(t, '}') then Ok([Member(key.value, v.value)], t[1..])
          else if !Starts(t, ',') then Fail
          else
            var more := ReadMembers(SkipSpace(t[1..]));
            if more.Fail? then Fail else Ok([Member(key.value, v.value)] + more.value, more.rest)
  }

  // One or more values, up to and over the closing bracket.
  function ReadItems(s: string): (r: Read<seq<Json>>)
    ensures r.Ok? ==> |r.rest| < |s|
    decreases |s|, 2
  {
    var v := ReadValue(s);
    if v.Fail? then Fail
    else
      var t := SkipSpace(v.rest);
      if Starts(t, ']') then Ok([v.value], t[1..])
      else if !Starts(t, ',') then Fail
      else
        var more := ReadItems(SkipSpace(t[1..]));
        if more.Fail? then Fail else Ok([v.value] + more.value, more.rest)
  }

  // A whole JSON text.
  function Parse(text: string): Option<Json> {
    var v := ReadValue(SkipSpace(text));
    if v.Ok? && SkipSpace(v.rest) == "" then Some(v.value) else None
  }
}
