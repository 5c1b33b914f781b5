// The few string operations of Go's strings and unicode packages the models need.
// A string is a sequence of characters.
module Text {

  // unicode.IsSpace
  predicate IsSpace(c: char) {
    var r := c as int;
    || 0x09 <= r <= 0x0d || r == 0x20 || r == 0x85 || r == 0xa0 || r == 0x1680
    || 0x2000 <= r <= 0x200a || r == 0x2028 || r == 0x2029 || r == 0x202f || r == 0x205f || r == 0x3000
  }

  function TrimLeft(s: string): string {
    if s != "" && IsSpace(s[0]) then TrimLeft(s[1..]) else s
  }

  function TrimRight(s: string): string {
    if s != "" && IsSpace(s[|s| - 1]) then TrimRight(s[..|s| - 1]) else s
  }

  // strings.TrimSpace
  function TrimSpace(s: string): string {
    TrimRight(TrimLeft(s))
  }

  predicate Occurs(s: string, marker: string, k: int) {
    0 <= k && k + |marker| <= |s| && s[k..k + |marker|] == marker
  }

  // strings.Index: the first occurrence of marker in s, or -1.
  function Index(s: string, marker: string): (i: int)
    ensures i >= -1
    ensures i >= 0 ==> Occurs(s, marker, i)
  {
    if marker <= s then 0
    else if s == "" then -1
    else
      var i := Index(s[1..], marker);
      if i < 0 then -1 else i + 1
  }

  // strings.Contains
  predicate Contains(s: string, marker: string) {
    Index(s, marker) >= 0
  }

  // strings.Join
  function Join(parts: seq<string>, sep: string): string {
    if parts == [] then ""
    else if |parts| == 1 then parts[0]
    else parts[0] + sep + Join(parts[1..], sep)
  }

  function Concat(parts: seq<string>): string {
    if parts == [] then "" else parts[0] + Concat(parts[1..])
  }

  lemma Associative(a: string, b: string, c: string)
    ensures a + b + c == a + (b + c)
  {
  }

  lemma {:induction false} ConcatLast(parts: seq<string>, last: string)
    ensures Concat(parts + [last]) == Concat(parts) + last
  {
    if parts == [] {
      assert parts + [last] == [last] && [last][1..] == [] && last + "" == last && "" + last == last;
    } else {
      assert (parts + [last])[1..] == parts[1..] + [last];
      ConcatLast(parts[1..], last);
      assert parts[0] + (Concat(parts[1..]) + last) == parts[0] + Concat(parts[1..]) + last;
    }
  }

  lemma {:induction false} IndexIsFirst(s: string, marker: string, k: int)
    requires Occurs(s, marker, k)
    ensures 0 <= Index(s, marker) <= k
  {
    if k == 0 {
      assert marker <= s;
    } else if !(marker <= s) {
      assert s[1..][k - 1..k - 1 + |marker|] == s[k..k + |marker|];
      IndexIsFirst(s[1..], marker, k - 1);
    }
  }

  // A marker that follows text without its first character is found right after it.
  lemma {:induction false} IndexAfter(prefix: string, marker: string, rest: string)
    requires marker != "" && marker[0] !in prefix
    ensures Index(prefix + (marker + rest), marker) == |prefix|
  {
    var s := prefix + (marker + rest);
    if prefix == "" {
      assert s == marker + rest && marker <= s;
    } else {
      assert s[0] == prefix[0] && s[1..] == prefix[1..] + (marker + rest);
      IndexAfter(prefix[1..], marker, rest);
    }
  }

  lemma {:induction false} NotContained(s: string, marker: string)
    requires marker != "" && marker[0] !in s
    ensures Index(s, marker) == -1
  {
    if s != "" {
      NotContained(s[1..], marker);
    }
  }

  lemma NeverOccurs(s: string, marker: string)
    requires forall k :: !Occurs(s, marker, k)
    ensures Index(s, marker) == -1
  {
  }

  // ---------------------------------------------------------------------------
  // White space

  predicate AllSpace(s: string) {
    forall i :: 0 <= i < |s| ==> IsSpace(s[i])
  }

  // The characters of s that are not white space, in order.
  function Ink(s: string): string {
    if s == "" then ""
    else (if IsSpace(s[0]) then "" else [s[0]]) + Ink(s[1..])
  }

  lemma {:induction false} InkJoin(a: string, b: string)
    ensures Ink(a + b) == Ink(a) + Ink(b)
  {
    if a == "" {
      assert a + b == b && "" + Ink(b) == Ink(b);
    } else {
      assert (a + b)[0] == a[0] && (a + b)[1..] == a[1..] + b;
      InkJoin(a[1..], b);
      var head := if IsSpace(a[0]) then "" else [a[0]];
      assert head + (Ink(a[1..]) + Ink(b)) == head + Ink(a[1..]) + Ink(b);
    }
  }

  lemma {:induction false} NoInkIff(s: string)
    ensures Ink(s) == "" <==> AllSpace(s)
  {
    if s != "" {
      NoInkIff(s[1..]);
      assert IsSpace(s[0]) && AllSpace(s[1..]) ==> AllSpace(s) by {
        if IsSpace(s[0]) && AllSpace(s[1..]) {
          forall i | 0 <= i < |s|
            ensures IsSpace(s[i])
          {
            assert i > 0 ==> s[i] == s[1..][i - 1];
          }
        }
      }
    }
  }

  lemma {:induction false} TrimLeftInk(s: string)
    ensures Ink(TrimLeft(s)) == Ink(s)
    ensures TrimLeft(s) == "" || !IsSpace(TrimLeft(s)[0])
    ensures |TrimLeft(s)| <= |s| && s[|s| - |TrimLeft(s)|..] == TrimLeft(s)
  {
    if s != "" && IsSpace(s[0]) {
      TrimLeftInk(s[1..]);
      assert "" + Ink(s[1..]) == Ink(s[1..]);
    }
  }

  lemma {:induction false} TrimRightInk(s: string)
    ensures Ink(TrimRight(s)) == Ink(s)
    ensures TrimRight(s) == "" || !IsSpace(TrimRight(s)[|TrimRight(s)| - 1])
    ensures TrimRight(s) <= s
    decreases |s|
  {
    if s != "" && IsSpace(s[|s| - 1]) {
      var t := s[..|s| - 1];
      TrimRightInk(t);
      assert s == t + [s[|s| - 1]];
      InkJoin(t, [s[|s| - 1]]);
      NoInkIff([s[|s| - 1]]);
      assert Ink(t) + "" == Ink(t);
    }
  }

  // Trimming keeps all ink and leaves a text that starts and ends with ink.
  lemma TrimSpaceInk(s: string)
    ensures Ink(TrimSpace(s)) == Ink(s)
    ensures |TrimSpace(s)| <= |s|
    ensures TrimSpace(s) != "" ==> !IsSpace(TrimSpace(s)[0]) && !IsSpace(TrimSpace(s)[|TrimSpace(s)| - 1])
    ensures TrimSpace(s) == "" <==> Ink(s) == ""
  {
    TrimLeftInk(s);
    TrimRightInk(TrimLeft(s));
    NoInkIff(TrimSpace(s));
  }

  lemma {:induction false} TrimRightDropsSpace(s: string, space: string)
    requires AllSpace(space)
    ensures TrimRight(s + space) == TrimRight(s)
    decreases |space|
  {
    if space == "" {
      assert s + space == s;
    } else {
      var shorter := space[..|space| - 1];
      assert (s + space)[..|s + space| - 1] == s + shorter;
      TrimRightDropsSpace(s, shorter);
    }
  }

  lemma {:induction false} TrimLeftBefore(s: string, space: string)
    requires AllSpace(space)
    ensures TrimLeft(s + space) == if AllSpace(s) then "" else TrimLeft(s) + space
  {
    if s == "" {
      assert s + space == space;
      TrimLeftInk(space);
      NoInkIff(space);
      NoInkIff(TrimLeft(space));
    } else {
      assert (s + space)[0] == s[0] && (s + space)[1..] == s[1..] + space;
      TrimLeftBefore(s[1..], space);
      NoInkIff(s);
      NoInkIff(s[1..]);
    }
  }

  // Text added at the end is trimmed away exactly when it is all white space.
  lemma TrimDropsIff(s: string, more: string)
    ensures TrimSpace(s + more) == TrimSpace(s) <==> AllSpace(more)
  {
    TrimSpaceInk(s);
    TrimSpaceInk(s + more);
    InkJoin(s, more);
    NoInkIff(more);
    if AllSpace(more) {
      TrimLeftBefore(s, more);
      TrimLeftInk(s);
      NoInkIff(s);
      NoInkIff(TrimLeft(s));
      TrimRightDropsSpace(TrimLeft(s), more);
    } else {
      assert |Ink(s) + Ink(more)| > |Ink(s)|;
    }
  }

  // ---------------------------------------------------------------------------
  // Subsequences

  // a is b with some characters deleted.
  ghost predicate IsSubseq(a: string, b: string)
    decreases |b|
  {
    if b == "" then a == ""
    else IsSubseq(a, b[1..]) || (a != "" && a[0] == b[0] && IsSubseq(a[1..], b[1..]))
  }

  lemma {:induction false} EmptySubseq(b: string)
    ensures IsSubseq("", b)
  {
    if b != "" {
      EmptySubseq(b[1..]);
    }
  }

  lemma {:induction false} SubseqRefl(a: string)
    ensures IsSubseq(a, a)
  {
    if a != "" {
      SubseqRefl(a[1..]);
    }
  }

  lemma {:induction false} SubseqJoin(a: string, b: string, c: string, d: string)
    requires IsSubseq(a, b) && IsSubseq(c, d)
    ensures IsSubseq(a + c, b + d)
    decreases |b|
  {
    if b == "" {
      assert a + c == c && b + d == d;
    } else {
      assert (b + d)[0] == b[0] && (b + d)[1..] == b[1..] + d;
      if IsSubseq(a, b[1..]) {
        SubseqJoin(a, b[1..], c, d);
      } else {
        SubseqJoin(a[1..], b[1..], c, d);
        assert (a + c)[0] == a[0] && (a + c)[1..] == a[1..] + c;
      }
    }
  }

  // A piece out of the first n characters of text, appended to what came out of `done`.
  lemma SubseqStep(a: string, done: string, piece: string, text: string, n: nat)
    requires n <= |text| && IsSubseq(a, done) && IsSubseq(piece, text[..n])
    ensures IsSubseq(a + piece, done + text[..n])
    ensures done + text[..n] + text[n..] == done + text
  {
    SubseqJoin(a, done, piece, text[..n]);
    assert text[..n] + text[n..] == text;
  }

  // A slice is a subsequence of every prefix that contains it.
  lemma SliceSubseq(text: string, i: nat, j: nat, n: nat)
    requires i <= j <= n <= |text|
    ensures IsSubseq(text[i..j], text[..n])
  {
    hide IsSubseq;
    EmptySubseq(text[..i]);
    SubseqRefl(text[i..j]);
    EmptySubseq(text[j..n]);
    SubseqJoin("", text[..i], text[i..j], text[i..j]);
    SubseqJoin("" + text[i..j], text[..i] + text[i..j], "", text[j..n]);
    assert "" + text[i..j] + "" == text[i..j];
    assert text[..i] + text[i..j] + text[j..n] == text[..n];
  }

  lemma {:induction false} SubseqTransitive(a: string, b: string, c: string)
    requires IsSubseq(a, b) && IsSubseq(b, c)
    ensures IsSubseq(a, c)
    decreases |c|
  {
    if c != "" {
      if IsSubseq(b, c[1..]) {
        SubseqTransitive(a, b, c[1..]);
      } else if IsSubseq(a, b[1..]) {
        SubseqTransitive(a, b[1..], c[1..]);
      } else {
        SubseqTransitive(a[1..], b[1..], c[1..]);
      }
    }
  }
}
