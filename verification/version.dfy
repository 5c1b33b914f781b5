// The PEP 440 version order of release/version.go.
module Versions {
  import opened Sorting
  import opened Wrappers

  datatype LetterNum = LetterNum(letter: string, num: int)

  datatype LocalElem = Int(num: int) | Str(str: string)

  datatype Version = Version(
    epoch: int, release: seq<int>,
    pre: Option<LetterNum>, post: Option<LetterNum>, dev: Option<LetterNum>,
    local: Option<seq<LocalElem>>)
  {
    predicate IsPrerelease() {
      pre.Some? || dev.Some?
    }
  }

  function CmpInt(a: int, b: int): int {
    if a < b then -1 else if a > b then 1 else 0
  }

  // strings.Compare
  function CmpString(a: string, b: string): int {
    if StringLess(a, b) then -1 else if StringLess(b, a) then 1 else 0
  }

  function StripTrailingZeros(r: seq<int>): seq<int> {
    if r != [] && r[|r| - 1] == 0 then StripTrailingZeros(r[..|r| - 1]) else r
  }

  method ComputeStripTrailingZeros(r: seq<int>) returns (s: seq<int>)
    ensures s == StripTrailingZeros(r)
  {
    var n := |r|;
    assert r[..n] == r;
    while n > 0 && r[n - 1] == 0
      invariant 0 <= n <= |r|
      invariant StripTrailingZeros(r[..n]) == StripTrailingZeros(r)
    {
      assert r[..n][..n - 1] == r[..n - 1];
      n := n - 1;
    }
    return r[..n];
  }

  function CmpInts(a: seq<int>, b: seq<int>): int {
    if a == [] || b == [] then CmpInt(|a|, |b|)
    else if CmpInt(a[0], b[0]) != 0 then CmpInt(a[0], b[0])
    else CmpInts(a[1..], b[1..])
  }

  method ComputeCmpInts(a: seq<int>, b: seq<int>) returns (c: int)
    ensures c == CmpInts(a, b)
  {
    var i := 0;
    while i < |a| && i < |b|
      invariant 0 <= i <= |a| && i <= |b|
      invariant CmpInts(a[i..], b[i..]) == CmpInts(a, b)
    {
      assert a[i..][1..] == a[i + 1..] && b[i..][1..] == b[i + 1..];
      if CmpInt(a[i], b[i]) != 0 {
        return CmpInt(a[i], b[i]);
      }
      i := i + 1;
    }
    return CmpInt(|a|, |b|);
  }

  // A dev-only release before any pre-release, a final one after.
  function PreRank(v: Version): int {
    if v.pre.None? && v.post.None? && v.dev.Some? then -1
    else if v.pre.None? then 1
    else 0
  }

  function CmpPre(a: Version, b: Version): int {
    if PreRank(a) != PreRank(b) then CmpInt(PreRank(a), PreRank(b))
    else if PreRank(a) != 0 then 0
    else if CmpString(a.pre.value.letter, b.pre.value.letter) != 0 then CmpString(a.pre.value.letter, b.pre.value.letter)
    else CmpInt(a.pre.value.num, b.pre.value.num)
  }

  function BoolRank(present: bool, absent: int): int {
    if present then 0 else absent
  }

  // Segments of which an absent one has the given rank.
  function CmpSegment(a: Option<LetterNum>, b: Option<LetterNum>, absent: int): int {
    var ra, rb := BoolRank(a.Some?, absent), BoolRank(b.Some?, absent);
    if ra != rb then CmpInt(ra, rb)
    else if a.None? || b.None? then 0
    else CmpInt(a.value.num, b.value.num)
  }

  function CmpPost(a: Option<LetterNum>, b: Option<LetterNum>): int {
    CmpSegment(a, b, -1)
  }

  function CmpDev(a: Option<LetterNum>, b: Option<LetterNum>): int {
    CmpSegment(a, b, 1)
  }

  function CmpLocalElem(a: LocalElem, b: LocalElem): int {
    if a.Int? && b.Int? then CmpInt(a.num, b.num)
    else if a.Int? then 1
    else if b.Int? then -1
    else CmpString(a.str, b.str)
  }

  function CmpElems(a: seq<LocalElem>, b: seq<LocalElem>): int {
    if a == [] || b == [] then CmpInt(|a|, |b|)
    else if CmpLocalElem(a[0], b[0]) != 0 then CmpLocalElem(a[0], b[0])
    else CmpElems(a[1..], b[1..])
  }

  function CmpLocal(a: Version, b: Version): int {
    if a.local.Some? != b.local.Some? then BoolRank(a.local.Some?, -1) - BoolRank(b.local.Some?, -1)
    else if a.local.None? || b.local.None? then 0
    else CmpElems(a.local.value, b.local.value)
  }

  method ComputeCmpLocal(a: Version, b: Version) returns (c: int)
    ensures c == CmpLocal(a, b)
  {
    if a.local.Some? != b.local.Some? {
      return BoolRank(a.local.Some?, -1) - BoolRank(b.local.Some?, -1);
    }
    if a.local.None? {
      return 0;
    }
    var x, y := a.local.value, b.local.value;
    var i := 0;
    while i < |x| && i < |y|
      invariant 0 <= i <= |x| && i <= |y|
      invariant CmpElems(x[i..], y[i..]) == CmpElems(x, y)
    {
      assert x[i..][1..] == x[i + 1..] && y[i..][1..] == y[i + 1..];
      if CmpLocalElem(x[i], y[i]) != 0 {
        return CmpLocalElem(x[i], y[i]);
      }
      i := i + 1;
    }
    return CmpInt(|x|, |y|);
  }

  // The first comparison that decides.
  function Then(c: int, d: int): int {
    if c != 0 then c else d
  }

  function Compare(a: Version, b: Version): int {
    Then(CmpInt(a.epoch, b.epoch),
      Then(CmpInts(StripTrailingZeros(a.release), StripTrailingZeros(b.release)),
        Then(CmpPre(a, b),
          Then(CmpPost(a.post, b.post),
            Then(CmpDev(a.dev, b.dev), CmpLocal(a, b))))))
  }

  method ComputeCompare(a: Version, b: Version) returns (c: int)
    ensures c == Compare(a, b)
  {
    hide CmpInt, CmpInts, StripTrailingZeros, CmpPre, CmpPost, CmpDev, CmpLocal;
    c := CmpInt(a.epoch, b.epoch);
    if c != 0 {
      return c;
    }
    var ra := ComputeStripTrailingZeros(a.release);
    var rb := ComputeStripTrailingZeros(b.release);
    c := ComputeCmpInts(ra, rb);
    if c != 0 {
      return c;
    }
    c := CmpPre(a, b);
    if c != 0 {
      return c;
    }
    c := CmpPost(a.post, b.post);
    if c != 0 {
      return c;
    }
    c := CmpDev(a.dev, b.dev);
    if c != 0 {
      return c;
    }
    c := ComputeCmpLocal(a, b);
  }

  // ---------------------------------------------------------------------------
  // A total preorder

  // A comparison and the reverse one: -1, 0 or 1, and opposite.
  predicate Opposite(ab: int, ba: int) {
    -1 <= ab <= 1 && ab == -ba
  }

  // Comparisons of a with b, b with c and a with c.
  predicate Follows(ab: int, bc: int, ac: int) {
    ab <= 0 && bc <= 0 ==> ac <= 0 && (ac == 0 ==> ab == 0 && bc == 0)
  }

  lemma StringsOrdered(a: string, b: string, c: string)
    ensures Opposite(CmpString(a, b), CmpString(b, a))
    ensures CmpString(a, b) == 0 <==> a == b
    ensures Follows(CmpString(a, b), CmpString(b, c), CmpString(a, c))
  {
    StringLessAsymmetric(a, b);
    StringLessConnected(a, b);
    StringLessConnected(b, c);
    StringLessAsymmetric(a, c);
    StringLessConnected(a, c);
    StringLessTransitive(a, b, c);
  }

  lemma {:induction false} IntsOrdered(a: seq<int>, b: seq<int>, c: seq<int>)
    ensures Opposite(CmpInts(a, b), CmpInts(b, a))
    ensures CmpInts(a, b) == 0 <==> a == b
    ensures Follows(CmpInts(a, b), CmpInts(b, c), CmpInts(a, c))
  {
    if a != [] && b != [] {
      IntsOrdered(a[1..], b[1..], if c == [] then [] else c[1..]);
      assert a == [a[0]] + a[1..] && b == [b[0]] + b[1..];
    }
  }

  lemma ElemOrdered(a: LocalElem, b: LocalElem, c: LocalElem)
    ensures Opposite(CmpLocalElem(a, b), CmpLocalElem(b, a))
    ensures CmpLocalElem(a, b) == 0 <==> a == b
    ensures Follows(CmpLocalElem(a, b), CmpLocalElem(b, c), CmpLocalElem(a, c))
  {
    hide CmpString;
    StringsOrdered(if a.Str? then a.str else "", if b.Str? then b.str else "", if c.Str? then c.str else "");
  }

  lemma {:induction false} ElemsOrdered(a: seq<LocalElem>, b: seq<LocalElem>, c: seq<LocalElem>)
    ensures Opposite(CmpElems(a, b), CmpElems(b, a))
    ensures CmpElems(a, b) == 0 <==> a == b
    ensures Follows(CmpElems(a, b), CmpElems(b, c), CmpElems(a, c))
  {
    hide CmpLocalElem;
    if a != [] && b != [] {
      ElemsOrdered(a[1..], b[1..], if c == [] then [] else c[1..]);
      ElemOrdered(a[0], b[0], if c == [] then a[0] else c[0]);
      assert a == [a[0]] + a[1..] && b == [b[0]] + b[1..];
    }
  }

  lemma PreOrdered(a: Version, b: Version, c: Version)
    ensures Opposite(CmpPre(a, b), CmpPre(b, a))
    ensures CmpPre(a, b) == 0 <==> PreRank(a) == PreRank(b) && a.pre == b.pre
    ensures Follows(CmpPre(a, b), CmpPre(b, c), CmpPre(a, c))
  {
    hide CmpString;
    var letter := (v: Version) => if v.pre.Some? then v.pre.value.letter else "";
    StringsOrdered(letter(a), letter(b), letter(c));
  }

  lemma LocalOrdered(a: Version, b: Version, c: Version)
    ensures Opposite(CmpLocal(a, b), CmpLocal(b, a))
    ensures CmpLocal(a, b) == 0 <==> a.local == b.local
    ensures Follows(CmpLocal(a, b), CmpLocal(b, c), CmpLocal(a, c))
  {
    hide CmpElems;
    var elems := (v: Version) => if v.local.Some? then v.local.value else [];
    ElemsOrdered(elems(a), elems(b), elems(c));
  }

  function Num(s: Option<LetterNum>): Option<int> {
    if s.None? then None else Some(s.value.num)
  }

  // What the order can see of a version: trailing zeros and the letters of post and dev
  // segments are not part of it.
  predicate SameKey(a: Version, b: Version) {
    && a.epoch == b.epoch && StripTrailingZeros(a.release) == StripTrailingZeros(b.release)
    && PreRank(a) == PreRank(b) && a.pre == b.pre
    && Num(a.post) == Num(b.post) && Num(a.dev) == Num(b.dev) && a.local == b.local
  }

  // Compare is antisymmetric, transitive and total, for all versions, and calls two
  // versions equal exactly when their keys are.
  lemma CompareOrders(a: Version, b: Version, c: Version)
    ensures Opposite(Compare(a, b), Compare(b, a))
    ensures Compare(a, b) == 0 <==> SameKey(a, b)
    ensures Follows(Compare(a, b), Compare(b, c), Compare(a, c))
  {
    hide CmpInts, CmpPre, CmpLocal, StripTrailingZeros, PreRank;
    IntsOrdered(StripTrailingZeros(a.release), StripTrailingZeros(b.release), StripTrailingZeros(c.release));
    PreOrdered(a, b, c);
    LocalOrdered(a, b, c);
  }

  lemma {:induction false} StripIgnoresZeros(r: seq<int>, zeros: seq<int>)
    requires forall i :: 0 <= i < |zeros| ==> zeros[i] == 0
    ensures StripTrailingZeros(r + zeros) == StripTrailingZeros(r)
    decreases |zeros|
  {
    if zeros == [] {
      assert r + zeros == r;
    } else {
      assert (r + zeros)[..|r + zeros| - 1] == r + zeros[..|zeros| - 1];
      StripIgnoresZeros(r, zeros[..|zeros| - 1]);
    }
  }

  // 1.0 and 1.0.0 are the same version to every other one.
  lemma TrailingZerosDoNotMatter(v: Version, zeros: seq<int>, other: Version)
    requires forall i :: 0 <= i < |zeros| ==> zeros[i] == 0
    ensures Compare(v.(release := v.release + zeros), other) == Compare(v, other)
    ensures Compare(other, v.(release := v.release + zeros)) == Compare(other, v)
  {
    hide CmpInts, StripTrailingZeros, CmpElems;
    StripIgnoresZeros(v.release, zeros);
  }

  // PEP 440's relative ordering of suffixes, whatever their numbers: within a release, dev,
  // a, b, rc, final, local, post; and within a pre-release, dev, itself, post.
  lemma SuffixesAreOrdered(v: Version, i: int, j: int, elems: seq<LocalElem>)
    requires v.pre.None? && v.post.None? && v.dev.None? && v.local.None?
    ensures var dev := v.(dev := Some(LetterNum("dev", i)));
            var a, b := v.(pre := Some(LetterNum("a", i))), v.(pre := Some(LetterNum("b", j)));
            var rc, local := v.(pre := Some(LetterNum("rc", i))), v.(local := Some(elems));
            var post := v.(post := Some(LetterNum("post", j)));
            && Compare(dev, a.(dev := Some(LetterNum("dev", j)))) < 0
            && Compare(a.(dev := Some(LetterNum("dev", j))), a) < 0
            && Compare(a, a.(post := Some(LetterNum("post", j)))) < 0
            && Compare(a.(post := Some(LetterNum("post", j))), b) < 0
            && Compare(b, rc) < 0 && Compare(rc, v) < 0 && Compare(v, local) < 0
            && Compare(local, post.(dev := Some(LetterNum("dev", i)))) < 0
            && Compare(post.(dev := Some(LetterNum("dev", i))), post) < 0
  {
    hide CmpInts, StripTrailingZeros;
    IntsOrdered(StripTrailingZeros(v.release), StripTrailingZeros(v.release), []);
  }

  // ---------------------------------------------------------------------------
  // Which version is the older one

  // The number at place i, zero where there is none.
  function NumberAt(r: seq<int>, i: nat): int {
    if i < |r| then r[i] else 0
  }

  predicate SmallerAt(a: seq<int>, b: seq<int>, k: nat) {
    (forall i :: 0 <= i < k ==> NumberAt(a, i) == NumberAt(b, i)) && NumberAt(a, k) < NumberAt(b, k)
  }

  // The first place where two releases differ has the smaller number in a.
  ghost predicate ReleaseBelow(a: seq<int>, b: seq<int>) {
    exists k: nat :: SmallerAt(a, b, k)
  }

  predicate IsDevOnly(v: Version) {
    v.pre.None? && v.post.None? && v.dev.Some?
  }

  // A release with nothing but a dev segment comes before all pre-releases, and those come
  // before everything else; pre-releases go by letter, then number.
  ghost predicate PreBelow(a: Version, b: Version) {
    || (IsDevOnly(a) && !IsDevOnly(b))
    || (a.pre.Some? && b.pre.None? && !IsDevOnly(b))
    || (a.pre.Some? && b.pre.Some?
        && (StringBelow(a.pre.value.letter, b.pre.value.letter)
            || (a.pre.value.letter == b.pre.value.letter && a.pre.value.num < b.pre.value.num)))
  }

  predicate PostBelow(a: Option<LetterNum>, b: Option<LetterNum>) {
    b.Some? && (a.None? || a.value.num < b.value.num)
  }

  predicate DevBelow(a: Option<LetterNum>, b: Option<LetterNum>) {
    a.Some? && (b.None? || a.value.num < b.value.num)
  }

  // Strings before numbers.
  ghost predicate ElemBelow(a: LocalElem, b: LocalElem) {
    match (a, b)
    case (Str(x), Str(y)) => StringBelow(x, y)
    case (Str(_), Int(_)) => true
    case (Int(_), Str(_)) => false
    case (Int(x), Int(y)) => x < y
  }

  ghost predicate ElemsBelowAt(a: seq<LocalElem>, b: seq<LocalElem>, k: nat) {
    k <= |a| && k < |b| && (forall i :: 0 <= i < k ==> a[i] == b[i]) && (k == |a| || ElemBelow(a[k], b[k]))
  }

  ghost predicate LocalBelow(a: Option<seq<LocalElem>>, b: Option<seq<LocalElem>>) {
    b.Some? && (a.None? || exists k: nat :: ElemsBelowAt(a.value, b.value, k))
  }

  // One key decides before the next.
  predicate Decides(ab: bool, ba: bool, next: bool) {
    ab || (!ba && next)
  }

  // The order of PEP 440, key by key.
  ghost predicate Precedes(a: Version, b: Version) {
    Decides(a.epoch < b.epoch, b.epoch < a.epoch,
      Decides(ReleaseBelow(a.release, b.release), ReleaseBelow(b.release, a.release),
        Decides(PreBelow(a, b), PreBelow(b, a),
          Decides(PostBelow(a.post, b.post), PostBelow(b.post, a.post),
            Decides(DevBelow(a.dev, b.dev), DevBelow(b.dev, a.dev), LocalBelow(a.local, b.local))))))
  }

  // A version as it is parsed: no number of its release is negative.
  predicate IsParsed(v: Version) {
    forall i :: 0 <= i < |v.release| ==> v.release[i] >= 0
  }

  lemma {:induction false} StripKeepsNumbers(r: seq<int>, i: nat)
    ensures NumberAt(StripTrailingZeros(r), i) == NumberAt(r, i)
    decreases |r|
  {
    if r != [] && r[|r| - 1] == 0 {
      StripKeepsNumbers(r[..|r| - 1], i);
    }
  }

  lemma {:induction false} StripLeavesLast(r: seq<int>)
    requires forall i :: 0 <= i < |r| ==> r[i] >= 0
    ensures var s := StripTrailingZeros(r);
            (s != [] ==> s[|s| - 1] > 0) && forall i :: 0 <= i < |s| ==> s[i] >= 0
    decreases |r|
  {
    if r != [] && r[|r| - 1] == 0 {
      StripLeavesLast(r[..|r| - 1]);
    }
  }

  lemma {:induction false} CmpIntsDiffer(a: seq<int>, b: seq<int>) returns (k: nat)
    requires CmpInts(a, b) < 0
    ensures k <= |a| && k < |b| && (forall i :: 0 <= i < k ==> a[i] == b[i]) && (k == |a| || a[k] < b[k])
  {
    if a == [] || a[0] != b[0] {
      k := 0;
    } else {
      var j := CmpIntsDiffer(a[1..], b[1..]);
      k := j + 1;
      assert forall i :: 0 < i < k ==> a[i] == a[1..][i - 1] && b[i] == b[1..][i - 1];
    }
  }

  lemma {:induction false} FirstPositive(b: seq<int>, from: nat) returns (k: nat)
    requires from < |b| && b[|b| - 1] > 0 && forall i :: 0 <= i < |b| ==> b[i] >= 0
    ensures from <= k < |b| && b[k] > 0 && forall i :: from <= i < k ==> b[i] == 0
    decreases |b| - from
  {
    if b[from] > 0 {
      k := from;
    } else {
      k := FirstPositive(b, from + 1);
    }
  }

  lemma NotBothBelow(a: seq<int>, b: seq<int>, j: nat, k: nat)
    ensures !(SmallerAt(a, b, j) && SmallerAt(b, a, k))
  {
  }

  lemma ReleaseIsBelow(a: seq<int>, b: seq<int>)
    requires forall i :: 0 <= i < |a| ==> a[i] >= 0
    requires forall i :: 0 <= i < |b| ==> b[i] >= 0
    requires CmpInts(StripTrailingZeros(a), StripTrailingZeros(b)) < 0
    ensures ReleaseBelow(a, b)
  {
    hide CmpInts, StripTrailingZeros;
    var s, t := StripTrailingZeros(a), StripTrailingZeros(b);
    StripLeavesLast(a);
    StripLeavesLast(b);
    var k := CmpIntsDiffer(s, t);
    if k == |s| {
      var j := FirstPositive(t, k);
      k := j;
    }
    forall i: nat
      ensures NumberAt(s, i) == NumberAt(a, i) && NumberAt(t, i) == NumberAt(b, i)
    {
      StripKeepsNumbers(a, i);
      StripKeepsNumbers(b, i);
    }
    assert SmallerAt(s, t, k);
    assert SmallerAt(a, b, k);
  }

  lemma ReleasesIff(a: seq<int>, b: seq<int>)
    requires forall i :: 0 <= i < |a| ==> a[i] >= 0
    requires forall i :: 0 <= i < |b| ==> b[i] >= 0
    ensures CmpInts(StripTrailingZeros(a), StripTrailingZeros(b)) < 0 <==> ReleaseBelow(a, b)
  {
    hide CmpInts, StripTrailingZeros, SmallerAt;
    var s, t := StripTrailingZeros(a), StripTrailingZeros(b);
    IntsOrdered(s, t, s);
    if ReleaseBelow(a, b) && CmpInts(s, t) >= 0 {
      var j: nat :| SmallerAt(a, b, j);
      if CmpInts(s, t) == 0 {
        StripKeepsNumbers(a, j);
        StripKeepsNumbers(b, j);
        NotBelowAlike(a, b, j);
      } else {
        ReleaseIsBelow(b, a);
        var k: nat :| SmallerAt(b, a, k);
        NotBothBelow(a, b, j, k);
      }
    }
    if CmpInts(s, t) < 0 {
      ReleaseIsBelow(a, b);
    }
  }

  lemma NotBelowAlike(a: seq<int>, b: seq<int>, j: nat)
    ensures NumberAt(a, j) == NumberAt(b, j) ==> !SmallerAt(a, b, j)
  {
  }

  lemma ElemsIffOne(a: LocalElem, b: LocalElem)
    ensures CmpLocalElem(a, b) < 0 <==> ElemBelow(a, b)
  {
    hide StringLess, StringBelow;
    if a.Str? && b.Str? {
      StringLessIff(a.str, b.str);
    }
  }

  lemma {:induction false} ElemsDiffer(a: seq<LocalElem>, b: seq<LocalElem>) returns (k: nat)
    requires CmpElems(a, b) < 0
    ensures ElemsBelowAt(a, b, k)
  {
    hide CmpLocalElem, ElemBelow;
    if a == [] {
      k := 0;
    } else if CmpLocalElem(a[0], b[0]) != 0 {
      k := 0;
      ElemsIffOne(a[0], b[0]);
    } else {
      var j := ElemsDiffer(a[1..], b[1..]);
      ElemOrdered(a[0], b[0], a[0]);
      k := j + 1;
      assert forall i :: 0 < i < k ==> a[i] == a[1..][i - 1] && b[i] == b[1..][i - 1];
    }
  }

  lemma NotBothElems(a: seq<LocalElem>, b: seq<LocalElem>, j: nat, k: nat)
    requires ElemsBelowAt(a, b, j)
    ensures !ElemsBelowAt(b, a, k) && a != b
  {
    hide ElemBelow;
    if j < |a| {
      ElemsIffOne(a[j], b[j]);
      ElemsIffOne(b[j], a[j]);
      ElemOrdered(a[j], b[j], a[j]);
    }
    if ElemsBelowAt(b, a, k) && k < j {
      ElemsIffOne(b[k], a[k]);
      ElemOrdered(b[k], a[k], a[k]);
    }
  }

  lemma ElemsIff(a: seq<LocalElem>, b: seq<LocalElem>)
    ensures CmpElems(a, b) < 0 <==> exists k: nat :: ElemsBelowAt(a, b, k)
  {
    hide CmpElems, ElemsBelowAt;
    ElemsOrdered(a, b, a);
    if CmpElems(a, b) < 0 {
      var k := ElemsDiffer(a, b);
    } else if exists k: nat :: ElemsBelowAt(a, b, k) {
      var j: nat :| ElemsBelowAt(a, b, j);
      if CmpElems(a, b) > 0 {
        var k := ElemsDiffer(b, a);
        NotBothElems(a, b, j, k);
      } else {
        NotBothElems(a, b, j, 0);
      }
    }
  }

  lemma PreIff(a: Version, b: Version)
    ensures CmpPre(a, b) < 0 <==> PreBelow(a, b)
  {
    hide StringLess, StringBelow;
    if a.pre.Some? && b.pre.Some? {
      var x, y := a.pre.value.letter, b.pre.value.letter;
      StringLessIff(x, y);
      StringLessConnected(x, y);
      StringLessAsymmetric(x, y);
      StringLessAsymmetric(x, x);
    }
  }

  lemma LocalIff(a: Version, b: Version)
    ensures CmpLocal(a, b) < 0 <==> LocalBelow(a.local, b.local)
  {
    hide CmpElems, ElemsBelowAt;
    if a.local.Some? && b.local.Some? {
      ElemsIff(a.local.value, b.local.value);
    }
  }

  // Compare is the order of PEP 440: of two parsed versions it gives -1, 0 or 1 as the first
  // precedes the second, neither does, or the second precedes the first.
  lemma CompareIsTheOrder(a: Version, b: Version)
    requires IsParsed(a) && IsParsed(b)
    ensures Compare(a, b) == if Precedes(a, b) then -1 else if Precedes(b, a) then 1 else 0
  {
    hide CmpInts, CmpPre, CmpLocal, StripTrailingZeros, ReleaseBelow, PreBelow, LocalBelow;
    var s, t := StripTrailingZeros(a.release), StripTrailingZeros(b.release);
    ReleasesIff(a.release, b.release);
    ReleasesIff(b.release, a.release);
    IntsOrdered(s, t, s);
    PreIff(a, b);
    PreIff(b, a);
    PreOrdered(a, b, a);
    LocalIff(a, b);
    LocalIff(b, a);
    LocalOrdered(a, b, a);
  }

  // In particular a smaller epoch, or under the same epoch a smaller number where the
  // releases first differ, decides whatever the suffixes.
  lemma ReleaseDecides(a: Version, b: Version, k: nat)
    requires IsParsed(a) && IsParsed(b)
    requires a.epoch < b.epoch || (a.epoch == b.epoch && SmallerAt(a.release, b.release, k))
    ensures Compare(a, b) == -1 && Compare(b, a) == 1
  {
    hide Compare, PreBelow, LocalBelow, SmallerAt;
    CompareIsTheOrder(a, b);
    CompareIsTheOrder(b, a);
    CompareOrders(a, b, a);
    if a.epoch == b.epoch {
      assert ReleaseBelow(a.release, b.release);
    }
  }
}
