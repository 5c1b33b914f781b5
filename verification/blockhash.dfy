module BlockHash {
  // The chained block hashes and the shared-prefix search of cache/blockhash.go.
  //
  // Byte strings are sequences of chars. The SHA-256 digest is a parameter: any function
  // to 32-byte strings.

  import Text
  import opened Wrappers

  type Bytes = string

  const HASH_SIZE: nat := 32

  const ROOT_SEED: Bytes := "fastmlx-root"

  ghost predicate IsDigest(digest: Bytes -> Bytes) {
    forall p: Bytes :: |digest(p)| == HASH_SIZE
  }

  // ---------------------------------------------------------------------------
  // Decimal literals

  function Digit(d: int): (c: char)
    requires 0 <= d < 10
    ensures '0' <= c <= '9'
  {
    '0' + d as char
  }

  function DecimalNat(n: nat): string {
    if n < 10 then [Digit(n)] else DecimalNat(n / 10) + [Digit(n % 10)]
  }

  // strconv.Itoa
  function Decimal(n: int): string {
    if n < 0 then "-" + DecimalNat(-n) else DecimalNat(n)
  }

  predicate IsNumeral(c: char) {
    '0' <= c <= '9' || c == '-'
  }

  lemma {:induction false} DecimalNatDigits(n: nat)
    ensures |DecimalNat(n)| >= 1
    ensures forall i :: 0 <= i < |DecimalNat(n)| ==> '0' <= DecimalNat(n)[i] <= '9'
  {
    if n >= 10 {
      DecimalNatDigits(n / 10);
    }
  }

  lemma {:induction false} DecimalNatInjective(m: nat, n: nat)
    ensures DecimalNat(m) == DecimalNat(n) ==> m == n
  {
    DecimalNatDigits(m / 10);
    DecimalNatDigits(n / 10);
    var s, t := DecimalNat(m), DecimalNat(n);
    assert s[|s| - 1] == Digit(m % 10) && t[|t| - 1] == Digit(n % 10);
    if m >= 10 && n >= 10 {
      assert s[..|s| - 1] == DecimalNat(m / 10) && t[..|t| - 1] == DecimalNat(n / 10);
      DecimalNatInjective(m / 10, n / 10);
    }
  }

  lemma DecimalNumerals(n: int)
    ensures |Decimal(n)| >= 1
    ensures forall i :: 0 <= i < |Decimal(n)| ==> IsNumeral(Decimal(n)[i])
  {
    DecimalNatDigits(if n < 0 then -n else n);
  }

  lemma DecimalInjective(m: int, n: int)
    ensures Decimal(m) == Decimal(n) ==> m == n
  {
    var a, b := if m < 0 then -m else m, if n < 0 then -n else n;
    DecimalNatDigits(a);
    DecimalNatDigits(b);
    DecimalNatInjective(a, b);
    assert m < 0 ==> Decimal(m)[0] == '-' && Decimal(m)[1..] == DecimalNat(a);
    assert n < 0 ==> Decimal(n)[0] == '-' && Decimal(n)[1..] == DecimalNat(b);
  }

  // The number that digits stand for, the most significant first.
  function Value(digits: string): int
    decreases |digits|
  {
    if digits == "" then 0
    else 10 * Value(digits[..|digits| - 1]) + (digits[|digits| - 1] as int - '0' as int)
  }

  lemma {:induction false} DigitsHaveValue(n: nat)
    ensures Value(DecimalNat(n)) == n
    ensures n > 0 ==> DecimalNat(n)[0] != '0'
  {
    if n >= 10 {
      DigitsHaveValue(n / 10);
      assert DecimalNat(n)[..|DecimalNat(n)| - 1] == DecimalNat(n / 10);
    } else {
      assert DecimalNat(n)[..0] == "";
    }
  }

  // A decimal literal has the value of its number, a sign when that is negative, and no
  // leading zeros.
  lemma DecimalHasValue(n: int)
    ensures n >= 0 ==> Value(Decimal(n)) == n && (n > 0 ==> Decimal(n)[0] != '0') && (n == 0 ==> Decimal(n) == "0")
    ensures n < 0 ==> Decimal(n)[0] == '-' && Value(Decimal(n)[1..]) == -n && |Decimal(n)| > 1 && Decimal(n)[1] != '0'
  {
    DecimalNatDigits(if n < 0 then -n else n);
    DigitsHaveValue(if n < 0 then -n else n);
    assert n < 0 ==> Decimal(n)[1..] == DecimalNat(-n);
  }

  // ---------------------------------------------------------------------------
  // Tuple literals

  function Items(tokens: seq<int>): string
    requires tokens != []
  {
    if |tokens| == 1 then Decimal(tokens[0])
    else Decimal(tokens[0]) + ", " + Items(tokens[1..])
  }

  function Tuple(tokens: seq<int>): string {
    if tokens == [] then "()"
    else if |tokens| == 1 then "(" + Decimal(tokens[0]) + ",)"
    else "(" + Items(tokens) + ")"
  }

  function Decimals(tokens: seq<int>): seq<string> {
    seq(|tokens|, i requires 0 <= i < |tokens| => Decimal(tokens[i]))
  }

  lemma {:induction false} ItemsAreJoined(tokens: seq<int>)
    requires tokens != []
    ensures Items(tokens) == Text.Join(Decimals(tokens), ", ")
  {
    hide Decimal;
    if |tokens| > 1 {
      ItemsAreJoined(tokens[1..]);
      assert Decimals(tokens)[1..] == Decimals(tokens[1..]);
    }
  }

  // The literal of a Python tuple: the numbers joined by ", " in parentheses, a lone one
  // with a comma after it.
  lemma TupleIsPython(tokens: seq<int>)
    ensures Tuple(tokens) ==
              if |tokens| == 1 then "(" + Decimal(tokens[0]) + ",)"
              else "(" + Text.Join(Decimals(tokens), ", ") + ")"
  {
    hide Decimal;
    if |tokens| > 1 {
      ItemsAreJoined(tokens);
    } else if tokens == [] {
      assert "(" + "" + ")" == "()";
    }
  }

  lemma {:induction false} ItemsAppend(tokens: seq<int>, t: int)
    requires tokens != []
    ensures Items(tokens + [t]) == Items(tokens) + ", " + Decimal(t)
  {
    var longer := tokens + [t];
    if |tokens| == 1 {
      assert longer[1..] == [t];
    } else {
      assert longer[1..] == tokens[1..] + [t];
      ItemsAppend(tokens[1..], t);
    }
  }

  method TupleRepr(tokenIDs: seq<int>) returns (s: string)
    ensures s == Tuple(tokenIDs)
  {
    if |tokenIDs| == 0 {
      return "()";
    }
    var b := "(";
    for i := 0 to |tokenIDs|
      invariant b == "(" + if i == 0 then "" else Items(tokenIDs[..i])
    {
      assert tokenIDs[..i + 1] == tokenIDs[..i] + [tokenIDs[i]];
      if i > 0 {
        ItemsAppend(tokenIDs[..i], tokenIDs[i]);
        b := b + ", ";
      }
      b := b + Decimal(tokenIDs[i]);
    }
    assert tokenIDs[..|tokenIDs|] == tokenIDs;
    if |tokenIDs| == 1 {
      b := b + ",";
    }
    return b + ")";
  }

  lemma Splits(a: string, b: string)
    ensures (a + b)[..|a|] == a && (a + b)[|a|..] == b
  {
  }

  // A numeral is determined by any text that continues with a non-numeral.
  lemma NumeralSplits(x: string, y: string, u: string, v: string)
    requires forall i :: 0 <= i < |x| ==> IsNumeral(x[i])
    requires forall i :: 0 <= i < |y| ==> IsNumeral(y[i])
    requires u != [] && v != [] && !IsNumeral(u[0]) && !IsNumeral(v[0])
    ensures x + u == y + v ==> x == y && u == v
  {
    if |x| < |y| {
      assert (x + u)[|x|] == u[0] && (y + v)[|x|] == y[|x|];
    } else if |x| > |y| {
      assert (x + u)[|y|] == x[|y|] && (y + v)[|y|] == v[0];
    } else {
      assert x == (x + u)[..|x|] && y == (y + v)[..|x|];
      assert u == (x + u)[|x|..] && v == (y + v)[|x|..];
    }
  }

  // What follows the first numeral of a tuple literal.
  function Tail(tokens: seq<int>): string
    requires tokens != []
  {
    if |tokens| == 1 then ")" else ", " + Items(tokens[1..]) + ")"
  }

  lemma ItemsSplit(tokens: seq<int>)
    requires tokens != []
    ensures Items(tokens) + ")" == Decimal(tokens[0]) + Tail(tokens)
    ensures !IsNumeral(Tail(tokens)[0])
    ensures |tokens| > 1 ==> Tail(tokens)[0] == ',' && Tail(tokens)[1] == ' '
    ensures |tokens| > 1 ==> Tail(tokens)[2..] == Items(tokens[1..]) + ")"
  {
    DecimalNumerals(tokens[0]);
    if |tokens| > 1 {
      var d, rest := Decimal(tokens[0]), Items(tokens[1..]);
      Text.Associative(d, ", ", rest);
      Text.Associative(d, ", " + rest, ")");
      Text.Associative(", ", rest, ")");
      Splits(", ", rest + ")");
    }
  }

  lemma {:induction false} ItemsInjective(a: seq<int>, b: seq<int>)
    requires a != [] && b != []
    ensures Items(a) + ")" == Items(b) + ")" ==> a == b
  {
    DecimalNumerals(a[0]);
    DecimalNumerals(b[0]);
    ItemsSplit(a);
    ItemsSplit(b);
    NumeralSplits(Decimal(a[0]), Decimal(b[0]), Tail(a), Tail(b));
    DecimalInjective(a[0], b[0]);
    assert a == [a[0]] + a[1..] && b == [b[0]] + b[1..];
    if |a| > 1 && |b| > 1 {
      ItemsInjective(a[1..], b[1..]);
    }
  }

  // A tuple literal after its opening bracket: its first numeral and the rest.
  lemma TupleSplit(tokens: seq<int>)
    ensures |Tuple(tokens)| >= 2 && Tuple(tokens)[0] == '('
    ensures tokens == [] ==> Tuple(tokens)[1..] == ")"
    ensures |tokens| == 1 ==> Tuple(tokens)[1..] == Decimal(tokens[0]) + ",)"
    ensures |tokens| > 1 ==> Tuple(tokens)[1..] == Decimal(tokens[0]) + Tail(tokens)
    ensures |tokens| > 1 ==> Tuple(tokens)[1..] == Items(tokens) + ")"
  {
    if |tokens| > 1 {
      ItemsSplit(tokens);
      assert Tuple(tokens) == "(" + (Items(tokens) + ")");
    } else if |tokens| == 1 {
      assert Tuple(tokens) == "(" + (Decimal(tokens[0]) + ",)");
    }
  }

  lemma TupleInjective(a: seq<int>, b: seq<int>)
    ensures Tuple(a) == Tuple(b) ==> a == b
  {
    TupleSplit(a);
    TupleSplit(b);
    var p, q := Tuple(a)[1..], Tuple(b)[1..];
    if a == [] || b == [] {
      if a != [] {
        DecimalNumerals(a[0]);
        assert p[0] == Decimal(a[0])[0];
      } else if b != [] {
        DecimalNumerals(b[0]);
        assert q[0] == Decimal(b[0])[0];
      }
    } else {
      ItemsSplit(a);
      ItemsSplit(b);
      var u := if |a| == 1 then ",)" else Tail(a);
      var v := if |b| == 1 then ",)" else Tail(b);
      DecimalNumerals(a[0]);
      DecimalNumerals(b[0]);
      NumeralSplits(Decimal(a[0]), Decimal(b[0]), u, v);
      DecimalInjective(a[0], b[0]);
      if |a| > 1 && |b| > 1 {
        ItemsInjective(a, b);
      }
    }
  }

  // '(' opens a tuple literal and occurs nowhere else in it.
  lemma {:induction false} ItemsHaveNoBracket(tokens: seq<int>)
    requires tokens != []
    ensures forall i :: 0 <= i < |Items(tokens)| ==> Items(tokens)[i] != '('
  {
    DecimalNumerals(tokens[0]);
    if |tokens| > 1 {
      ItemsHaveNoBracket(tokens[1..]);
    }
  }

  lemma TupleBracket(tokens: seq<int>)
    ensures |Tuple(tokens)| >= 2 && Tuple(tokens)[0] == '('
    ensures forall i :: 1 <= i < |Tuple(tokens)| ==> Tuple(tokens)[i] != '('
  {
    if tokens != [] {
      ItemsHaveNoBracket(tokens);
      DecimalNumerals(tokens[0]);
    }
  }

  // ---------------------------------------------------------------------------
  // Block hashes

  function Preimage(parent: Option<Bytes>, block: seq<int>, model: string): Bytes {
    model + Seed(parent) + Tuple(block)
  }

  function Seed(parent: Option<Bytes>): Bytes {
    if parent.Some? then parent.value else ROOT_SEED
  }

  predicate IsParent(p: Option<Bytes>) {
    p.Some? ==> |p.value| == HASH_SIZE
  }

  const SPARE: nat := HASH_SIZE - |ROOT_SEED|

  predicate EndsInSeed(h: Bytes) {
    |h| == HASH_SIZE && h[SPARE..] == ROOT_SEED
  }

  // A later block of one model passes for a first block of another: the parent's digest
  // ends in the root seed, and the rest of it ends the other name.
  predicate PassesFor(p: Option<Bytes>, m: string, q: Option<Bytes>, n: string) {
    p.Some? && q.None? && EndsInSeed(p.value) && n == m + p.value[..SPARE]
  }

  // When the bytes hashed for two blocks are the same, whatever the models.
  lemma PreimagesMeetIff(p: Option<Bytes>, a: seq<int>, m: string, q: Option<Bytes>, b: seq<int>, n: string)
    requires IsParent(p) && IsParent(q)
    ensures Preimage(p, a, m) == Preimage(q, b, n)
       <==> a == b && ((m == n && p == q) || PassesFor(p, m, q, n) || PassesFor(q, n, p, m))
  {
    SeededInjective(m + Seed(p), a, n + Seed(q), b);
    NamesMeetIff(p, m, q, n);
  }

  lemma NamesMeetIff(p: Option<Bytes>, m: string, q: Option<Bytes>, n: string)
    requires IsParent(p) && IsParent(q)
    ensures m + Seed(p) == n + Seed(q)
       <==> (m == n && p == q) || PassesFor(p, m, q, n) || PassesFor(q, n, p, m)
  {
    Splits(m, Seed(p));
    Splits(n, Seed(q));
    if p.Some? && q.None? {
      OverlapIff(p.value, m, n);
    } else if p.None? && q.Some? {
      OverlapIff(q.value, n, m);
    } else if m + Seed(p) == n + Seed(q) {
      assert |m| == |n|;
    }
  }

  lemma OverlapIff(h: Bytes, m: string, n: string)
    requires |h| == HASH_SIZE
    ensures m + h == n + ROOT_SEED <==> EndsInSeed(h) && n == m + h[..SPARE]
  {
    assert h == h[..SPARE] + h[SPARE..];
    assert m + h == m + h[..SPARE] + h[SPARE..];
    Splits(m + h[..SPARE], h[SPARE..]);
    Splits(n, ROOT_SEED);
  }

  // In particular, names of one length keep all blocks apart, and one model's preimages
  // determine the parent and the block.
  lemma PreimageInjective(p: Option<Bytes>, a: seq<int>, m: string, q: Option<Bytes>, b: seq<int>, n: string)
    requires IsParent(p) && IsParent(q) && |m| == |n|
    ensures Preimage(p, a, m) == Preimage(q, b, n) ==> m == n && p == q && a == b
  {
    PreimagesMeetIff(p, a, m, q, b, n);
  }

  lemma SeededInjective(x: Bytes, a: seq<int>, y: Bytes, b: seq<int>)
    ensures x + Tuple(a) == y + Tuple(b) ==> x == y && a == b
  {
    if |x| == |y| {
      Splits(x, Tuple(a));
      Splits(y, Tuple(b));
      TupleInjective(a, b);
    } else if |x| < |y| {
      ShiftedTuples(x, a, y, b);
    } else {
      ShiftedTuples(y, b, x, a);
    }
  }

  lemma ShiftedTuples(x: Bytes, a: seq<int>, y: Bytes, b: seq<int>)
    requires |x| < |y|
    ensures x + Tuple(a) != y + Tuple(b)
  {
    TupleBracket(a);
    TupleBracket(b);
    var s, t := x + Tuple(a), y + Tuple(b);
    assert t[|y|] == '(';
    assert |y| < |s| ==> s[|y|] == Tuple(a)[|y| - |x|];
  }

  method ComputeBlockHash(digest: Bytes -> Bytes, parent: Option<Bytes>, tokenIDs: seq<int>, modelName: string)
    returns (hash: Bytes)
    ensures hash == digest(Preimage(parent, tokenIDs, modelName))
  {
    var written := "";
    if modelName != "" {
      written := written + modelName;
    }
    if parent.Some? {
      written := written + parent.value;
    } else {
      written := written + ROOT_SEED;
    }
    var repr := TupleRepr(tokenIDs);
    assert written == modelName + if parent.Some? then parent.value else ROOT_SEED;
    return digest(written + repr);
  }

  // ---------------------------------------------------------------------------
  // Chains of blocks

  // The full blocks of a token list; a trailing partial block is dropped.
  function Blocks(tokens: seq<int>, size: int): (blocks: seq<seq<int>>)
    ensures size <= 0 ==> blocks == []
    ensures size > 0 ==> |blocks| == |tokens| / size
  {
    if size <= 0 then []
    else seq(|tokens| / size, i requires 0 <= i < |tokens| / size => Block(tokens, size, i))
  }

  function Block(tokens: seq<int>, size: int, i: int): seq<int>
    requires size > 0 && 0 <= i < |tokens| / size
  {
    BlockBounds(|tokens|, size, i);
    tokens[i * size..i * size + size]
  }

  lemma BlockBounds(n: nat, size: int, i: int)
    requires size > 0 && 0 <= i < n / size
    ensures 0 <= i * size && i * size + size <= n
    ensures (i + 1) * size == i * size + size
  {
    assert n == n / size * size + n % size;
    Scale(i + 1, n / size, size);
    Scale(0, i, size);
  }

  lemma Scale(a: int, b: int, c: nat)
    requires a <= b
    ensures a * c <= b * c
  {
  }

  // The hash of the last block of a chain, each block's hash seeded with its parent's.
  function ChainHash(digest: Bytes -> Bytes, chain: seq<seq<int>>, model: string): Bytes
    requires chain != []
    decreases |chain|, 1
  {
    digest(ChainPreimage(digest, chain, model))
  }

  function ChainPreimage(digest: Bytes -> Bytes, chain: seq<seq<int>>, model: string): Bytes
    requires chain != []
    decreases |chain|, 0
  {
    Preimage(Parent(digest, chain[..|chain| - 1], model), chain[|chain| - 1], model)
  }

  function Parent(digest: Bytes -> Bytes, chain: seq<seq<int>>, model: string): Option<Bytes>
    decreases |chain|, 2
  {
    if chain == [] then None else Some(ChainHash(digest, chain, model))
  }

  // The hashes of leading blocks, each chained onto the one before.
  ghost predicate AreHashes(digest: Bytes -> Bytes, blocks: seq<seq<int>>, model: string, hashes: seq<Bytes>) {
    && |hashes| <= |blocks|
    && forall i :: 0 <= i < |hashes| ==> hashes[i] == ChainHash(digest, blocks[..i + 1], model)
  }

  lemma AnotherHash(digest: Bytes -> Bytes, blocks: seq<seq<int>>, model: string, hashes: seq<Bytes>, h: Bytes)
    requires AreHashes(digest, blocks, model, hashes) && |hashes| < |blocks|
    requires h == ChainHash(digest, blocks[..|hashes| + 1], model)
    ensures AreHashes(digest, blocks, model, hashes + [h])
  {
    hide ChainHash;
    var longer := hashes + [h];
    forall i | 0 <= i < |longer|
      ensures longer[i] == ChainHash(digest, blocks[..i + 1], model)
    {
      if i < |hashes| {
        assert longer[i] == hashes[i];
      }
    }
  }

  method HashFullBlocks(digest: Bytes -> Bytes, tokenIDs: seq<int>, blockSize: int, modelName: string)
    returns (hashes: seq<Bytes>)
    ensures |hashes| == |Blocks(tokenIDs, blockSize)|
    ensures AreHashes(digest, Blocks(tokenIDs, blockSize), modelName, hashes)
  {
    if blockSize <= 0 {
      return [];
    }
    hide ChainHash, Preimage, Blocks, Block, Tuple;
    var numFull := |tokenIDs| / blockSize;
    ghost var blocks := Blocks(tokenIDs, blockSize);
    hashes := [];
    var parent: Option<Bytes> := None;
    for i := 0 to numFull
      invariant |hashes| == i
      invariant AreHashes(digest, blocks, modelName, hashes)
      invariant parent == Parent(digest, blocks[..i], modelName)
    {
      BlockAt(tokenIDs, blockSize, i);
      var block := tokenIDs[i * blockSize..i * blockSize + blockSize];
      var h := ComputeBlockHash(digest, parent, block, modelName);
      ChainStep(digest, blocks, modelName, i);
      AnotherHash(digest, blocks, modelName, hashes, h);
      hashes := hashes + [h];
      parent := Some(h);
    }
  }

  lemma BlockAt(tokens: seq<int>, size: int, i: int)
    requires size > 0 && 0 <= i < |tokens| / size
    ensures 0 <= i * size && i * size + size <= |tokens| && (i + 1) * size == i * size + size
    ensures Blocks(tokens, size)[i] == tokens[i * size..i * size + size]
  {
    BlockBounds(|tokens|, size, i);
  }

  lemma ChainStep(digest: Bytes -> Bytes, blocks: seq<seq<int>>, model: string, i: nat)
    requires i < |blocks|
    ensures ChainHash(digest, blocks[..i + 1], model)
         == digest(Preimage(Parent(digest, blocks[..i], model), blocks[i], model))
    ensures Parent(digest, blocks[..i + 1], model) == Some(ChainHash(digest, blocks[..i + 1], model))
  {
    assert blocks[..i + 1][..i] == blocks[..i];
  }

  // has is None for the nil membership check.
  predicate Holds(has: Option<Bytes -> bool>, h: Bytes) {
    has.Some? && has.value(h)
  }

  // shared holds the hashes of leading blocks, all of them held.
  ghost predicate AreShared(
      digest: Bytes -> Bytes, blocks: seq<seq<int>>, model: string, has: Option<Bytes -> bool>, shared: seq<Bytes>) {
    && AreHashes(digest, blocks, model, shared)
    && forall i :: 0 <= i < |shared| ==> Holds(has, shared[i])
  }

  // shared holds the hashes of the leading blocks, up to the first one not held.
  ghost predicate IsShared(
      digest: Bytes -> Bytes, blocks: seq<seq<int>>, model: string, has: Option<Bytes -> bool>, shared: seq<Bytes>) {
    && AreShared(digest, blocks, model, has, shared)
    && (|shared| < |blocks| ==> !Holds(has, ChainHash(digest, blocks[..|shared| + 1], model)))
  }

  method BlockOf(tokenIDs: seq<int>, blockSize: int, i: int) returns (block: seq<int>)
    requires blockSize > 0 && 0 <= i < |tokenIDs| / blockSize
    ensures block == Blocks(tokenIDs, blockSize)[i]
  {
    BlockAt(tokenIDs, blockSize, i);
    block := tokenIDs[i * blockSize..i * blockSize + blockSize];
  }

  lemma NextBlock(tokens: seq<int>, size: int, i: int)
    requires size > 0 && 0 <= i < |tokens| / size
    ensures (i + 1) * size == i * size + size <= |tokens|
  {
    BlockBounds(|tokens|, size, i);
  }

  method FindSharedPrefix(
      digest: Bytes -> Bytes, tokenIDs: seq<int>, blockSize: int, modelName: string, has: Option<Bytes -> bool>)
    returns (shared: seq<Bytes>, numCachedTokens: nat, remaining: seq<int>)
    ensures IsShared(digest, Blocks(tokenIDs, blockSize), modelName, has, shared)
    ensures numCachedTokens == (if blockSize > 0 then |shared| * blockSize else 0) <= |tokenIDs|
    ensures tokenIDs == tokenIDs[..numCachedTokens] + remaining
  {
    hide ChainHash, Preimage, Blocks, Block, Tuple, AreHashes, AreShared, IsShared, Parent, Holds;
    shared, numCachedTokens := [], 0;
    ghost var blocks := Blocks(tokenIDs, blockSize);
    ghost var over := false;
    NothingShared(digest, blocks, modelName, has);
    if blockSize > 0 {
      var numFull := |tokenIDs| / blockSize;
      var parent: Option<Bytes> := None;
      for i := 0 to numFull
        invariant |shared| == i
        invariant numCachedTokens == i * blockSize
        invariant numCachedTokens <= |tokenIDs|
        invariant !over && AreShared(digest, blocks, modelName, has, shared)
        invariant parent == Parent(digest, blocks[..i], modelName)
      {
        var block := BlockOf(tokenIDs, blockSize, i);
        var h := ComputeBlockHash(digest, parent, block, modelName);
        ChainStep(digest, blocks, modelName, i);
        SharedTurn(digest, blocks, modelName, has, shared, h);
        if has.None? || !has.value(h) {
          over := true;
          break;
        }
        NextBlock(tokenIDs, blockSize, i);
        shared := shared + [h];
        numCachedTokens := numCachedTokens + blockSize;
        parent := Some(h);
      }
    }
    if !over {
      AllShared(digest, blocks, modelName, has, shared);
    }
    remaining := tokenIDs[numCachedTokens..];
  }

  lemma AllShared(
      digest: Bytes -> Bytes, blocks: seq<seq<int>>, model: string, has: Option<Bytes -> bool>, shared: seq<Bytes>)
    requires AreShared(digest, blocks, model, has, shared) && |shared| == |blocks|
    ensures IsShared(digest, blocks, model, has, shared)
  {
  }

  lemma NothingShared(digest: Bytes -> Bytes, blocks: seq<seq<int>>, model: string, has: Option<Bytes -> bool>)
    ensures AreShared(digest, blocks, model, has, [])
    ensures blocks[..0] == [] && Parent(digest, [], model) == None
  {
  }

  // One more hash: held, it is shared too; otherwise the search is over.
  lemma SharedTurn(
      digest: Bytes -> Bytes, blocks: seq<seq<int>>, model: string, has: Option<Bytes -> bool>, shared: seq<Bytes>, h: Bytes)
    requires AreShared(digest, blocks, model, has, shared) && |shared| < |blocks|
    requires h == ChainHash(digest, blocks[..|shared| + 1], model)
    ensures has.None? || !has.value(h) ==> IsShared(digest, blocks, model, has, shared)
    ensures has.Some? && has.value(h) ==> AreShared(digest, blocks, model, has, shared + [h])
  {
    hide ChainHash, AreHashes;
    if Holds(has, h) {
      AnotherShared(digest, blocks, model, has, shared, h);
    }
  }

  lemma AnotherShared(
      digest: Bytes -> Bytes, blocks: seq<seq<int>>, model: string, has: Option<Bytes -> bool>, shared: seq<Bytes>, h: Bytes)
    requires AreShared(digest, blocks, model, has, shared) && |shared| < |blocks|
    requires h == ChainHash(digest, blocks[..|shared| + 1], model) && Holds(has, h)
    ensures AreShared(digest, blocks, model, has, shared + [h])
  {
    AnotherHash(digest, blocks, model, shared, h);
  }

  // ---------------------------------------------------------------------------
  // The index agrees with the longest common block prefix

  // a and b agree on their first k blocks.
  predicate AgreeOn(a: seq<seq<int>>, b: seq<seq<int>>, k: nat) {
    k <= |a| && k <= |b| && a[..k] == b[..k]
  }

  // A token list stored for a model.
  datatype Entry = Entry(model: string, tokens: seq<int>)

  // The preimages hashed to store `stored` and to look up `request`.
  ghost function Hashed(digest: Bytes -> Bytes, request: Entry, stored: set<Entry>, size: int): set<Bytes>
  {
    set entry, k | entry in stored + {request} && 0 < k <= |Blocks(entry.tokens, size)| ::
      ChainPreimage(digest, Blocks(entry.tokens, size)[..k], entry.model)
  }

  ghost predicate NoCollision(digest: Bytes -> Bytes, preimages: set<Bytes>) {
    forall p, q :: p in preimages && q in preimages && digest(p) == digest(q) ==> p == q
  }

  // h is one of the chained hashes of the blocks.
  ghost predicate Chained(digest: Bytes -> Bytes, blocks: seq<seq<int>>, model: string, h: Bytes) {
    exists k :: 0 < k <= |blocks| && h == ChainHash(digest, blocks[..k], model)
  }

  // The cache holds exactly the chained hashes of the stored lists, of all models.
  ghost predicate HoldsExactly(digest: Bytes -> Bytes, has: Option<Bytes -> bool>, stored: set<Entry>, size: int) {
    forall h: Bytes ::
      Holds(has, h) <==> exists entry :: entry in stored && Chained(digest, Blocks(entry.tokens, size), entry.model, h)
  }

  // Two models whose blocks cannot be taken for each other: names of one length, or no
  // digest in use that ends in the root seed.
  ghost predicate Apart(digest: Bytes -> Bytes, preimages: set<Bytes>, m: string, n: string) {
    |m| == |n| || forall x :: x in preimages ==> !EndsInSeed(digest(x))
  }

  // Every preimage hashed along a chain is among `preimages`.
  ghost predicate HashedAlong(digest: Bytes -> Bytes, preimages: set<Bytes>, chain: seq<seq<int>>, model: string) {
    forall k :: 0 < k <= |chain| ==> ChainPreimage(digest, chain[..k], model) in preimages
  }

  lemma HashedAlongPrefix(digest: Bytes -> Bytes, preimages: set<Bytes>, chain: seq<seq<int>>, model: string, n: nat)
    requires HashedAlong(digest, preimages, chain, model) && n <= |chain|
    ensures HashedAlong(digest, preimages, chain[..n], model)
  {
    forall k | 0 < k <= n
      ensures ChainPreimage(digest, chain[..n][..k], model) in preimages
    {
      assert chain[..n][..k] == chain[..k];
    }
  }

  lemma LastHashed(digest: Bytes -> Bytes, preimages: set<Bytes>, chain: seq<seq<int>>, model: string)
    requires HashedAlong(digest, preimages, chain, model) && chain != []
    ensures ChainPreimage(digest, chain, model) in preimages
  {
    assert chain[..|chain|] == chain;
  }

  // The parent of a chain hashed so far is the digest of a hashed preimage.
  lemma ParentHashed(digest: Bytes -> Bytes, preimages: set<Bytes>, chain: seq<seq<int>>, model: string)
    requires IsDigest(digest) && HashedAlong(digest, preimages, chain, model)
    ensures IsHashed(digest, preimages, Parent(digest, chain, model))
  {
    if chain != [] {
      LastHashed(digest, preimages, chain, model);
      assert |digest(ChainPreimage(digest, chain, model))| == HASH_SIZE;
    }
  }

  // Without a collision among the hashed preimages, chains with one hash are one chain of
  // one model.
  lemma {:induction false} HashesAgree(
      digest: Bytes -> Bytes, preimages: set<Bytes>, a: seq<seq<int>>, m: string, b: seq<seq<int>>, n: string)
    requires IsDigest(digest) && NoCollision(digest, preimages) && a != [] && b != []
    requires HashedAlong(digest, preimages, a, m) && HashedAlong(digest, preimages, b, n)
    requires Apart(digest, preimages, m, n)
    requires ChainHash(digest, a, m) == ChainHash(digest, b, n)
    ensures a == b && m == n
    decreases |a|
  {
    ParentsAgree(digest, preimages, a, m, b, n);
    if |a| > 1 {
      HashesAgree(digest, preimages, a[..|a| - 1], m, b[..|b| - 1], n);
    }
    Rejoin(a, b);
  }

  lemma SamePreimages(
      digest: Bytes -> Bytes, preimages: set<Bytes>, a: seq<seq<int>>, m: string, b: seq<seq<int>>, n: string)
    requires NoCollision(digest, preimages) && a != [] && b != []
    requires HashedAlong(digest, preimages, a, m) && HashedAlong(digest, preimages, b, n)
    requires ChainHash(digest, a, m) == ChainHash(digest, b, n)
    ensures Preimage(Parent(digest, a[..|a| - 1], m), a[|a| - 1], m)
         == Preimage(Parent(digest, b[..|b| - 1], n), b[|b| - 1], n)
  {
    hide Preimage, Parent;
    LastHashed(digest, preimages, a, m);
    LastHashed(digest, preimages, b, n);
  }

  lemma LastBlockAgrees(
      digest: Bytes -> Bytes, preimages: set<Bytes>, a: seq<seq<int>>, m: string, b: seq<seq<int>>, n: string)
    requires IsDigest(digest) && NoCollision(digest, preimages) && a != [] && b != []
    requires HashedAlong(digest, preimages, a, m) && HashedAlong(digest, preimages, b, n)
    requires Apart(digest, preimages, m, n)
    requires ChainHash(digest, a, m) == ChainHash(digest, b, n)
    ensures m == n && a[|a| - 1] == b[|b| - 1]
    ensures Parent(digest, a[..|a| - 1], m) == Parent(digest, b[..|b| - 1], n)
  {
    var x, y := a[..|a| - 1], b[..|b| - 1];
    SamePreimages(digest, preimages, a, m, b, n);
    HashedAlongPrefix(digest, preimages, a, m, |a| - 1);
    HashedAlongPrefix(digest, preimages, b, n, |b| - 1);
    hide Preimage, ChainHash, HashedAlong, NoCollision, Apart, IsDigest, Parent;
    ParentHashed(digest, preimages, x, m);
    ParentHashed(digest, preimages, y, n);
    ApartMeet(digest, preimages, Parent(digest, x, m), a[|a| - 1], m, Parent(digest, y, n), b[|b| - 1], n);
  }

  // The parent is the digest of a hashed preimage.
  ghost predicate IsHashed(digest: Bytes -> Bytes, preimages: set<Bytes>, p: Option<Bytes>) {
    IsParent(p) && (p.Some? ==> exists x :: x in preimages && p.value == digest(x))
  }

  lemma ApartMeet(
      digest: Bytes -> Bytes, preimages: set<Bytes>,
      p: Option<Bytes>, a: seq<int>, m: string, q: Option<Bytes>, b: seq<int>, n: string)
    requires IsHashed(digest, preimages, p) && IsHashed(digest, preimages, q)
    requires Apart(digest, preimages, m, n)
    requires Preimage(p, a, m) == Preimage(q, b, n)
    ensures m == n && p == q && a == b
  {
    hide Preimage, EndsInSeed;
    PreimagesMeetIff(p, a, m, q, b, n);
    assert PassesFor(p, m, q, n) || PassesFor(q, n, p, m) ==> |m| != |n|;
  }

  lemma ParentsAgree(
      digest: Bytes -> Bytes, preimages: set<Bytes>, a: seq<seq<int>>, m: string, b: seq<seq<int>>, n: string)
    requires IsDigest(digest) && NoCollision(digest, preimages) && a != [] && b != []
    requires HashedAlong(digest, preimages, a, m) && HashedAlong(digest, preimages, b, n)
    requires Apart(digest, preimages, m, n)
    requires ChainHash(digest, a, m) == ChainHash(digest, b, n)
    ensures m == n && a[|a| - 1] == b[|b| - 1]
    ensures |a| == 1 <==> |b| == 1
    ensures HashedAlong(digest, preimages, a[..|a| - 1], m) && HashedAlong(digest, preimages, b[..|b| - 1], n)
    ensures |a| > 1 ==> ChainHash(digest, a[..|a| - 1], m) == ChainHash(digest, b[..|b| - 1], n)
  {
    hide ChainHash, Parent, Apart, NoCollision, HashedAlong;
    var x, y := a[..|a| - 1], b[..|b| - 1];
    HashedAlongPrefix(digest, preimages, a, m, |a| - 1);
    HashedAlongPrefix(digest, preimages, b, n, |b| - 1);
    LastBlockAgrees(digest, preimages, a, m, b, n);
    SameParents(digest, x, y, m);
  }

  lemma Rejoin(a: seq<seq<int>>, b: seq<seq<int>>)
    requires a != [] && b != []
    requires a[..|a| - 1] == b[..|b| - 1] && a[|a| - 1] == b[|b| - 1]
    ensures a == b
  {
    assert a == a[..|a| - 1] + [a[|a| - 1]] && b == b[..|b| - 1] + [b[|b| - 1]];
  }

  lemma SameParents(digest: Bytes -> Bytes, a: seq<seq<int>>, b: seq<seq<int>>, model: string)
    requires Parent(digest, a, model) == Parent(digest, b, model)
    ensures a == [] <==> b == []
    ensures a != [] ==> ChainHash(digest, a, model) == ChainHash(digest, b, model)
  {
  }

  lemma BlocksHashed(
      digest: Bytes -> Bytes, request: Entry, stored: set<Entry>, size: int, entry: Entry, k: nat)
    requires entry in stored + {request} && k <= |Blocks(entry.tokens, size)|
    ensures HashedAlong(digest, Hashed(digest, request, stored, size), Blocks(entry.tokens, size)[..k], entry.model)
  {
    var blocks := Blocks(entry.tokens, size);
    forall i | 0 < i <= k
      ensures ChainPreimage(digest, blocks[..k][..i], entry.model) in Hashed(digest, request, stored, size)
    {
      assert blocks[..k][..i] == blocks[..i];
    }
  }

  // What the index is asked to tell apart.
  ghost predicate Distinguishes(
      digest: Bytes -> Bytes, has: Option<Bytes -> bool>, request: Entry, stored: set<Entry>, size: int) {
    var preimages := Hashed(digest, request, stored, size);
    && IsDigest(digest) && HoldsExactly(digest, has, stored, size)
    && NoCollision(digest, preimages)
    && forall entry :: entry in stored ==> Apart(digest, preimages, request.model, entry.model)
  }

  // The first k blocks are those of a list stored for the same model.
  ghost predicate StoredOn(request: Entry, stored: set<Entry>, size: int, k: nat) {
    exists entry ::
      && entry in stored && entry.model == request.model
      && AgreeOn(Blocks(request.tokens, size), Blocks(entry.tokens, size), k)
  }

  // A lookup chain is held exactly when some list stored for this model starts with it:
  // neither other tokens nor other models answer.
  lemma HeldIffStored(
      digest: Bytes -> Bytes, request: Entry, stored: set<Entry>, size: int,
      has: Option<Bytes -> bool>, k: nat, h: Bytes)
    requires Distinguishes(digest, has, request, stored, size)
    requires 0 < k <= |Blocks(request.tokens, size)|
    requires h == ChainHash(digest, Blocks(request.tokens, size)[..k], request.model)
    ensures Holds(has, h) <==> StoredOn(request, stored, size, k)
  {
    hide ChainHash, Hashed, NoCollision, Apart, Blocks;
    var blocks := Blocks(request.tokens, size);
    forall entry, j | entry in stored && 0 < j <= |Blocks(entry.tokens, size)|
      ensures h == ChainHash(digest, Blocks(entry.tokens, size)[..j], entry.model) ==>
                entry.model == request.model && j == k && AgreeOn(blocks, Blocks(entry.tokens, size), k)
    {
      var chain, other := blocks[..k], Blocks(entry.tokens, size)[..j];
      BlocksHashed(digest, request, stored, size, request, k);
      BlocksHashed(digest, request, stored, size, entry, j);
      if h == ChainHash(digest, other, entry.model) {
        HashesAgree(digest, Hashed(digest, request, stored, size), chain, request.model, other, entry.model);
      }
    }
    forall entry | entry in stored && entry.model == request.model && AgreeOn(blocks, Blocks(entry.tokens, size), k)
      ensures Chained(digest, Blocks(entry.tokens, size), entry.model, h)
    {
    }
  }

  // What FindSharedPrefix returns is the longest common block prefix: some list stored for
  // the model agrees with the tokens on all the shared blocks, and none on one block more.
  lemma SharedIsLongestCommonPrefix(
      digest: Bytes -> Bytes, request: Entry, stored: set<Entry>, size: int,
      has: Option<Bytes -> bool>, shared: seq<Bytes>)
    requires Distinguishes(digest, has, request, stored, size)
    requires IsShared(digest, Blocks(request.tokens, size), request.model, has, shared)
    ensures shared != [] ==> StoredOn(request, stored, size, |shared|)
    ensures forall n: nat :: StoredOn(request, stored, size, n) ==> n <= |shared|
  {
    hide ChainHash, Distinguishes, Blocks;
    var blocks, k := Blocks(request.tokens, size), |shared|;
    if k > 0 {
      assert Holds(has, shared[k - 1]);
      HeldIffStored(digest, request, stored, size, has, k, shared[k - 1]);
    }
    if k < |blocks| {
      HeldIffStored(digest, request, stored, size, has, k + 1, ChainHash(digest, blocks[..k + 1], request.model));
      forall n: nat | StoredOn(request, stored, size, n)
        ensures n <= k
      {
        var entry :|
          && entry in stored && entry.model == request.model
          && AgreeOn(blocks, Blocks(entry.tokens, size), n);
        NoLongerAgreement(blocks, Blocks(entry.tokens, size), n, k);
      }
    }
  }

  lemma NoLongerAgreement(a: seq<seq<int>>, b: seq<seq<int>>, n: nat, k: nat)
    requires AgreeOn(a, b, n)
    ensures n > k ==> AgreeOn(a, b, k + 1)
  {
    if n > k {
      assert a[..k + 1] == a[..n][..k + 1] && b[..k + 1] == b[..n][..k + 1];
    }
  }

  // Agreement on k full blocks is agreement on the first k * size tokens.
  lemma {:induction false} BlocksAreTokens(a: seq<int>, b: seq<int>, size: int, k: nat)
    requires size > 0 && k <= |a| / size && k <= |b| / size
    ensures k * size <= |a| && k * size <= |b|
    ensures AgreeOn(Blocks(a, size), Blocks(b, size), k) <==> a[..k * size] == b[..k * size]
  {
    if k > 0 {
      var i := k - 1;
      BlocksAreTokens(a, b, size, i);
      BlockBounds(|a|, size, i);
      BlockBounds(|b|, size, i);
      var m, n := i * size, i * size + size;
      assert a[..n] == a[..m] + a[m..n] && b[..n] == b[..m] + b[m..n];
      assert a[..n][..m] == a[..m] && b[..n][..m] == b[..m] && a[..n][m..] == a[m..n] && b[..n][m..] == b[m..n];
      var x, y := Blocks(a, size), Blocks(b, size);
      assert x[..k] == x[..i] + [x[i]] && y[..k] == y[..i] + [y[i]];
      assert x[..k][..i] == x[..i] && y[..k][..i] == y[..i] && x[..k][i] == x[i] && y[..k][i] == y[i];
    }
  }
}
