// The stable-release picker of release/select.go.
module Select {
  import opened Versions
  import opened Wrappers

  datatype Release = Release(tagName: string, draft: bool, prerelease: bool, htmlUrl: string)

  // strings.TrimLeft(s, "v")
  function TrimLeftV(s: string): string {
    if s != "" && s[0] == 'v' then TrimLeftV(s[1..]) else s
  }

  // Every leading 'v' and nothing else is cut.
  lemma {:induction false} TrimLeftVCuts(vs: string, rest: string)
    requires (forall i :: 0 <= i < |vs| ==> vs[i] == 'v') && (rest == "" || rest[0] != 'v')
    ensures TrimLeftV(vs + rest) == rest
  {
    if vs == "" {
      assert vs + rest == rest;
    } else {
      assert (vs + rest)[1..] == vs[1..] + rest;
      TrimLeftVCuts(vs[1..], rest);
    }
  }

  // ParseVersion is a parameter.
  function VersionOf(parse: string -> Option<Version>, r: Release): Option<Version> {
    parse(TrimLeftV(r.tagName))
  }

  // Not a draft, not flagged, tagged with a version that is not a pre-release.
  predicate Eligible(parse: string -> Option<Version>, r: Release) {
    && !r.draft && !r.prerelease && r.tagName != ""
    && VersionOf(parse, r).Some? && !VersionOf(parse, r).value.IsPrerelease()
  }

  // What qualifies a release, from its fields: published, not flagged, and tagged, after any
  // number of 'v', with a version that has neither a pre nor a dev segment.
  lemma EligibleIff(parse: string -> Option<Version>, r: Release, vs: string, rest: string)
    requires r.tagName == vs + rest
    requires (forall i :: 0 <= i < |vs| ==> vs[i] == 'v') && (rest == "" || rest[0] != 'v')
    ensures Eligible(parse, r) <==>
              && r.draft == false && r.prerelease == false && vs + rest != ""
              && parse(rest) != None && parse(rest).value.pre == None && parse(rest).value.dev == None
  {
    TrimLeftVCuts(vs, rest);
  }

  // No eligible release is newer, and none before it is as new.
  ghost predicate IsLatest(parse: string -> Option<Version>, releases: seq<Release>, best: nat) {
    && best < |releases| && Eligible(parse, releases[best])
    && forall j :: 0 <= j < |releases| && Eligible(parse, releases[j]) ==>
         var c := Compare(VersionOf(parse, releases[j]).value, VersionOf(parse, releases[best]).value);
         c <= 0 && (j < best ==> c < 0)
  }

  method SelectLatestStableRelease(releases: seq<Release>, parse: string -> Option<Version>)
    returns (best: Option<nat>)
    ensures best.None? <==> forall j :: 0 <= j < |releases| ==> !Eligible(parse, releases[j])
    ensures best.Some? ==> IsLatest(parse, releases, best.value)
  {
    hide Compare;
    best := None;
    for i := 0 to |releases|
      invariant best.None? <==> forall j :: 0 <= j < i ==> !Eligible(parse, releases[j])
      invariant best.Some? ==> best.value < i && IsLatest(parse, releases[..i], best.value)
    {
      var r := releases[i];
      if r.draft || r.prerelease || r.tagName == "" {
        continue;
      }
      var version := parse(TrimLeftV(r.tagName));
      if version.None? || version.value.IsPrerelease() {
        continue;
      }
      ghost var was := best;
      if best.None? {
        best := Some(i);
      } else {
        var c := ComputeCompare(version.value, VersionOf(parse, releases[best.value]).value);
        if c > 0 {
          best := Some(i);
        }
      }
      StillLatest(parse, releases, i, was, best);
    }
    assert releases[..|releases|] == releases;
  }

  // By the order of PEP 440: the release chosen precedes no eligible one, and every eligible
  // one ahead of it in the list precedes it.
  lemma ChosenIsNewest(parse: string -> Option<Version>, releases: seq<Release>, best: nat, j: nat)
    requires IsLatest(parse, releases, best) && j < |releases| && Eligible(parse, releases[j])
    requires IsParsed(VersionOf(parse, releases[j]).value) && IsParsed(VersionOf(parse, releases[best]).value)
    ensures !Precedes(VersionOf(parse, releases[best]).value, VersionOf(parse, releases[j]).value)
    ensures j < best ==> Precedes(VersionOf(parse, releases[j]).value, VersionOf(parse, releases[best]).value)
  {
    hide Compare, Precedes;
    var v, w := VersionOf(parse, releases[j]).value, VersionOf(parse, releases[best]).value;
    CompareIsTheOrder(v, w);
    CompareIsTheOrder(w, v);
    CompareOrders(v, w, v);
  }

  lemma StillLatest(parse: string -> Option<Version>, releases: seq<Release>, i: nat, was: Option<nat>, best: Option<nat>)
    requires i < |releases| && Eligible(parse, releases[i])
    requires was.None? ==> best == Some(i) && forall j :: 0 <= j < i ==> !Eligible(parse, releases[j])
    requires was.Some? ==>
               && was.value < i && IsLatest(parse, releases[..i], was.value)
               && best == (if Compare(VersionOf(parse, releases[i]).value, VersionOf(parse, releases[was.value]).value) > 0
                           then Some(i) else was)
    ensures best.Some? && IsLatest(parse, releases[..i + 1], best.value)
  {
    hide Compare;
    var b := releases[best.value];
    forall j | 0 <= j <= i && Eligible(parse, releases[j])
      ensures var c := Compare(VersionOf(parse, releases[j]).value, VersionOf(parse, b).value);
              c <= 0 && (j < best.value ==> c < 0)
    {
      var v, w := VersionOf(parse, releases[j]).value, VersionOf(parse, releases[i]).value;
      if was.Some? && j < i {
        assert releases[..i][j] == releases[j];
        CompareOrders(v, VersionOf(parse, releases[was.value]).value, w);
        CompareOrders(w, VersionOf(parse, releases[was.value]).value, w);
      } else {
        CompareOrders(v, v, v);
      }
    }
  }
}
