/** Release tags, their order, and the moving image aliases: latest, MAJOR and MAJOR.MINOR. */
module Releases {
  import opened Basics

  // ---------------------------------------------------------------- parsing a tag

  predicate IsDigit(c: char) {
    '0' <= c <= '9'
  }

  predicate AllDigits(s: string) {
    forall i :: 0 <= i < |s| ==> IsDigit(s[i])
  }

  /** 0, or digits that do not start with 0. */
  predicate Canonical(s: string) {
    s != "" && AllDigits(s) && (s[0] == '0' ==> |s| == 1)
  }

  /** The longest run of digits in front. */
  function DigitsOf(s: string): (r: string)
    ensures AllDigits(r) && r <= s && (|r| < |s| ==> !IsDigit(s[|r|]))
  {
    if s == "" || !IsDigit(s[0]) then ""
    else
      assert s == [s[0]] + s[1..];
      [s[0]] + DigitsOf(s[1..])
  }

  function After(s: string, prefix: string): (r: string)
    requires prefix <= s
    ensures s == prefix + r
  {
    s[|prefix|..]
  }

  predicate IdChar(c: char) {
    IsDigit(c) || 'A' <= c <= 'Z' || 'a' <= c <= 'z' || c == '-'
  }

  /** Dot-separated identifiers, none empty; a numeric one has no leading zero. `id` is the one being read. */
  predicate PrereleaseFrom(id: string, s: string)
    decreases |s|
  {
    if s == "" then GoodId(id)
    else if s[0] == '.' then GoodId(id) && PrereleaseFrom("", s[1..])
    else IdChar(s[0]) && PrereleaseFrom(id + [s[0]], s[1..])
  }

  predicate GoodId(id: string) {
    id != "" && (AllDigits(id) && |id| > 1 ==> id[0] != '0')
  }

  datatype Version = Version(major: string, minor: string, patch: string, prerelease: bool)

  function ParseTag(tag: string): (r: Option<Version>)
    ensures r.Some? ==> Canonical(r.value.major) && Canonical(r.value.minor) && Canonical(r.value.patch)
    ensures r.Some? ==> Core(r.value) <= tag
    ensures r.Some? && !r.value.prerelease ==> tag == Core(r.value)
  {
    if |tag| > 120 || tag == "" || tag[0] != 'v' then None
    else
      var major := DigitsOf(tag[1..]);
      var s1 := After(tag[1..], major);
      if !Canonical(major) || s1 == "" || s1[0] != '.' then None
      else
        var minor := DigitsOf(s1[1..]);
        var s2 := After(s1[1..], minor);
        if !Canonical(minor) || s2 == "" || s2[0] != '.' then None
        else
          var patch := DigitsOf(s2[1..]);
          var s3 := After(s2[1..], patch);
          CoreParts(tag, major, s1, minor, s2, patch, s3);
          if !Canonical(patch) then None
          else if s3 == "" then Some(Version(major, minor, patch, false))
          else if s3[0] == '-' && PrereleaseFrom("", s3[1..]) then Some(Version(major, minor, patch, true))
          else None
  }

  function Core(v: Version): string {
    "v" + v.major + "." + v.minor + "." + v.patch
  }

  lemma CoreParts(tag: string, major: string, s1: string, minor: string, s2: string, patch: string, s3: string)
    requires tag != "" && tag[0] == 'v' && tag[1..] == major + s1
    requires s1 != "" && s1[0] == '.' && s1[1..] == minor + s2
    requires s2 != "" && s2[0] == '.' && s2[1..] == patch + s3
    ensures tag == "v" + major + "." + minor + "." + patch + s3
  {
    assert tag == "v" + tag[1..] && s1 == "." + s1[1..] && s2 == "." + s2[1..];
  }

  // ---------------------------------------------------------------- order

  function Number(s: string): nat
    requires AllDigits(s)
  {
    if s == "" then 0 else 10 * Number(s[..|s| - 1]) + (s[|s| - 1] as nat - '0' as nat)
  }

  lemma {:induction false} CanonicalIsPositive(s: string)
    requires Canonical(s) && s[0] != '0'
    ensures Number(s) >= 1
  {
    if |s| > 1 {
      CanonicalIsPositive(s[..|s| - 1]);
    }
  }

  /** Without leading zeros, equal text is equal number. */
  lemma {:induction false} EqualTextIffEqualNumber(a: string, b: string)
    requires Canonical(a) && Canonical(b)
    ensures a == b <==> Number(a) == Number(b)
  {
    if Number(a) == Number(b) {
      var p, q := a[..|a| - 1], b[..|b| - 1];
      assert Number(p) == Number(q) && a[|a| - 1] == b[|b| - 1];
      if |a| > 1 { CanonicalIsPositive(p); }
      if |b| > 1 { CanonicalIsPositive(q); }
      if |a| > 1 && |b| > 1 {
        EqualTextIffEqualNumber(p, q);
      }
      assert a == p + [a[|a| - 1]] && b == q + [b[|b| - 1]];
    }
  }

  predicate Good(v: Version) {
    Canonical(v.major) && Canonical(v.minor) && Canonical(v.patch)
  }

  /** Numeric, lexicographic: major, then minor, then patch. */
  predicate Greater(a: Version, b: Version)
    requires Good(a) && Good(b)
  {
    var (a1, a2, a3) := (Number(a.major), Number(a.minor), Number(a.patch));
    var (b1, b2, b3) := (Number(b.major), Number(b.minor), Number(b.patch));
    a1 > b1 || (a1 == b1 && a2 > b2) || (a1 == b1 && a2 == b2 && a3 > b3)
  }

  /** The comparison of the source: numbers where parts differ, text where they must be equal. */
  predicate Newer(a: Version, b: Version)
    requires Good(a) && Good(b)
  {
    || Number(a.major) > Number(b.major)
    || (a.major == b.major && Number(a.minor) > Number(b.minor))
    || (a.major == b.major && a.minor == b.minor && Number(a.patch) > Number(b.patch))
  }

  lemma NewerIffGreater(a: Version, b: Version)
    requires Good(a) && Good(b)
    ensures Newer(a, b) <==> Greater(a, b)
  {
    EqualTextIffEqualNumber(a.major, b.major);
    EqualTextIffEqualNumber(a.minor, b.minor);
  }

  // ---------------------------------------------------------------- releases

  /** A tag together with what it parses to. */
  datatype Release = Release(tag: string, version: Version)

  predicate Genuine(r: Release) {
    ParseTag(r.tag) == Some(r.version)
  }

  /** What the order and the names need to know about a parsed tag. */
  predicate Sound(r: Release) {
    Good(r.version) && Core(r.version) <= r.tag && (!r.version.prerelease ==> r.tag == Core(r.version))
  }

  predicate AllSound(rs: seq<Release>) {
    forall i :: 0 <= i < |rs| ==> Sound(rs[i])
  }

  lemma GenuineIsSound(r: Release)
    requires Genuine(r)
    ensures Sound(r)
  {
  }

  /** Two stable tags of the same version are the same tag. */
  lemma StableTagsAreOrdered(a: Release, b: Release)
    requires Sound(a) && Sound(b) && !a.version.prerelease && !b.version.prerelease
    ensures a == b || Greater(a.version, b.version) || Greater(b.version, a.version)
  {
    EqualTextIffEqualNumber(a.version.major, b.version.major);
    EqualTextIffEqualNumber(a.version.minor, b.version.minor);
    EqualTextIffEqualNumber(a.version.patch, b.version.patch);
  }

  // ---------------------------------------------------------------- aliases

  datatype Scope = All | Major(major: string) | Minor(major: string, minor: string)

  predicate GoodScope(s: Scope) {
    match s
    case All => true
    case Major(m) => Canonical(m)
    case Minor(m, n) => Canonical(m) && Canonical(n)
  }

  predicate In(v: Version, s: Scope) {
    match s
    case All => true
    case Major(m) => v.major == m
    case Minor(m, n) => v.major == m && v.minor == n
  }

  function AliasName(s: Scope): string {
    match s
    case All => "latest"
    case Major(m) => m
    case Minor(m, n) => m + "." + n
  }

  /** A stable release newer than the current version. */
  predicate Supersedes(r: Release, current: Version)
    requires Good(current) && Sound(r)
  {
    !r.version.prerelease && Newer(r.version, current)
  }

  function NewerThan(rs: seq<Release>, current: Version): seq<Version>
    requires Good(current) && AllSound(rs)
  {
    if rs == [] then []
    else (if Supersedes(rs[0], current) then [rs[0].version] else []) + NewerThan(rs[1..], current)
  }

  /** The aliases a new release takes over. */
  function StableAliases(current: Version, published: seq<Release>): seq<string>
    requires Good(current) && AllSound(published)
  {
    if current.prerelease then []
    else
      var newer := NewerThan(published, current);
      (if newer == [] then ["latest"] else [])
      + (if !(exists i :: 0 <= i < |newer| && newer[i].major == current.major) then [current.major] else [])
      + (if !(exists i :: 0 <= i < |newer| && newer[i].major == current.major && newer[i].minor == current.minor)
         then [current.major + "." + current.minor] else [])
  }

  lemma {:induction false} NewerThanMembers(rs: seq<Release>, current: Version, v: Version)
    requires Good(current) && AllSound(rs)
    ensures v in NewerThan(rs, current) <==>
              exists i :: 0 <= i < |rs| && Supersedes(rs[i], current) && rs[i].version == v
  {
    if rs != [] {
      var rest := rs[1..];
      NewerThanMembers(rest, current, v);
      if v in NewerThan(rest, current) {
        var i :| 0 <= i < |rest| && Supersedes(rest[i], current) && rest[i].version == v;
        assert rs[i + 1] == rest[i];
      }
      if i :| 0 <= i < |rs| && Supersedes(rs[i], current) && rs[i].version == v {
        if i > 0 { assert rest[i - 1] == rs[i]; }
      }
    }
  }

  ghost predicate SupersededIn(rs: seq<Release>, current: Version, s: Scope)
    requires Good(current) && AllSound(rs)
  {
    exists i :: 0 <= i < |rs| && Supersedes(rs[i], current) && In(rs[i].version, s)
  }

  ghost predicate AnyIn(vs: seq<Version>, s: Scope) {
    exists k :: 0 <= k < |vs| && In(vs[k], s)
  }

  lemma SupersededIff(rs: seq<Release>, current: Version, s: Scope)
    requires Good(current) && AllSound(rs)
    ensures SupersededIn(rs, current, s) <==> AnyIn(NewerThan(rs, current), s)
  {
    var newer := NewerThan(rs, current);
    if SupersededIn(rs, current, s) {
      var i :| 0 <= i < |rs| && Supersedes(rs[i], current) && In(rs[i].version, s);
      NewerThanMembers(rs, current, rs[i].version);
      assert rs[i].version in newer;
    }
    if AnyIn(newer, s) {
      var k :| 0 <= k < |newer| && In(newer[k], s);
      assert newer[k] in newer;
      NewerThanMembers(rs, current, newer[k]);
    }
  }

  /** The three scopes of a version are the ones it is in. */
  predicate OwnScope(v: Version, s: Scope) {
    s == All || s == Major(v.major) || s == Minor(v.major, v.minor)
  }

  lemma OwnIffIn(v: Version, s: Scope)
    ensures In(v, s) <==> OwnScope(v, s)
  {
  }

  /** A stable release takes an alias exactly when no newer stable release in its scope is published. */
  lemma AliasTakenIff(v: Version, published: seq<Release>, s: Scope)
    requires Good(v) && !v.prerelease && AllSound(published) && OwnScope(v, s)
    ensures AliasName(s) in StableAliases(v, published) <==> !SupersededIn(published, v, s)
  {
    var newer := NewerThan(published, v);
    SupersededIff(published, v, s);
    NamesDiffer(All, Major(v.major));
    NamesDiffer(All, Minor(v.major, v.minor));
    NamesDiffer(Major(v.major), Minor(v.major, v.minor));
    match s
    case All => assert newer != [] ==> In(newer[0], All);
    case Major(_) => assert forall i :: 0 <= i < |newer| ==> (In(newer[i], s) <==> newer[i].major == v.major);
    case Minor(_, _) =>
      assert forall i :: 0 <= i < |newer| ==> (In(newer[i], s) <==> newer[i].major == v.major && newer[i].minor == v.minor);
  }

  lemma AliasesAreOwn(v: Version, published: seq<Release>, name: string)
    requires Good(v) && AllSound(published) && name in StableAliases(v, published)
    ensures !v.prerelease && exists s :: OwnScope(v, s) && AliasName(s) == name
  {
    assert OwnScope(v, All) && AliasName(All) == "latest";
    assert OwnScope(v, Major(v.major)) && AliasName(Major(v.major)) == v.major;
    assert OwnScope(v, Minor(v.major, v.minor)) && AliasName(Minor(v.major, v.minor)) == v.major + "." + v.minor;
  }

  // ---------------------------------------------------------------- names do not clash

  function Dots(s: string): nat {
    if s == "" then 0 else (if s[0] == '.' then 1 else 0) + Dots(s[1..])
  }

  lemma {:induction false} DotsAdd(a: string, b: string)
    ensures Dots(a + b) == Dots(a) + Dots(b)
  {
    if a == "" {
      assert a + b == b;
    } else {
      DotsAdd(a[1..], b);
      assert (a + b)[1..] == a[1..] + b;
    }
  }

  lemma {:induction false} NoDots(s: string)
    requires AllDigits(s)
    ensures Dots(s) == 0
  {
    if s != "" { NoDots(s[1..]); }
  }

  lemma JoinDots(a: string, b: string)
    requires AllDigits(a)
    ensures Dots(a + "." + b) == 1 + Dots(b)
  {
    NoDots(a);
    DotsAdd(a, ".");
    DotsAdd(a + ".", b);
    assert ("." + "")[1..] == "";
  }

  lemma JoinSplits(a: string, b: string, c: string, d: string)
    requires AllDigits(a) && AllDigits(c) && a + "." + b == c + "." + d
    ensures a == c && b == d
  {
    var s, t := a + "." + b, c + "." + d;
    DigitRun(s, |a|, |c|);
    DigitRun(s, |c|, |a|);
    assert s[..|a|] == a && t[..|c|] == c;
    assert s[|a| + 1..] == b && t[|c| + 1..] == d;
  }

  /** A text whose first m and first n characters are digits followed by a dot has one such length only. */
  lemma DigitRun(s: string, m: nat, n: nat)
    requires m < |s| && n < |s| && s[m] == '.' && forall i :: 0 <= i < n ==> IsDigit(s[i])
    ensures m >= n
  {
  }

  lemma NameDots(s: Scope)
    requires GoodScope(s)
    ensures Dots(AliasName(s)) == if s.Minor? then 1 else 0
  {
    match s
    case All => LatestHasNoDots();
    case Major(m) => NoDots(m);
    case Minor(m, n) => JoinDots(m, n); NoDots(n);
  }

  lemma LatestHasNoDots()
    ensures Dots("latest") == 0
  {
    assert "latest"[1..] == "atest" && "atest"[1..] == "test" && "test"[1..] == "est";
    assert "est"[1..] == "st" && "st"[1..] == "t" && "t"[1..] == "";
  }

  /** Different scopes have different aliases. */
  lemma NamesDiffer(s: Scope, t: Scope)
    requires GoodScope(s) && GoodScope(t) && s != t
    ensures AliasName(s) != AliasName(t)
  {
    NameDots(s);
    NameDots(t);
    if s.Minor? && t.Minor? && AliasName(s) == AliasName(t) {
      JoinSplits(s.major, s.minor, t.major, t.minor);
    }
    assert !IsDigit("latest"[0]);
  }

  /** The immutable image tag of a release: the tag without its v. */
  function VersionName(tag: string): string {
    if tag == "" then "" else tag[1..]
  }

  lemma VersionNameIsNoAlias(r: Release, s: Scope)
    requires Sound(r) && GoodScope(s)
    ensures VersionName(r.tag) != AliasName(s)
  {
    var v := r.version;
    var rest := r.tag[|Core(v)|..];
    VersionNameParts(r, rest);
    JoinDots(v.major, v.minor + "." + (v.patch + rest));
    JoinDots(v.minor, v.patch + rest);
    NameDots(s);
  }

  lemma VersionNameParts(r: Release, rest: string)
    requires r.tag == Core(r.version) + rest
    ensures VersionName(r.tag) == r.version.major + "." + (r.version.minor + "." + (r.version.patch + rest))
  {
  }

  // ---------------------------------------------------------------- publications

  /** `images` maps each image tag to the release it points at. */
  datatype State = State(published: seq<Release>, images: map<string, Release>)

  function PutAll(images: map<string, Release>, names: seq<string>, r: Release): map<string, Release>
    decreases |names|
  {
    if names == [] then images else PutAll(images[names[0] := r], names[1..], r)
  }

  /** One completed publication: promote the version and the aliases, then make the release public. */
  function Publish(s: State, r: Release): State
    requires AllSound(s.published) && Sound(r)
  {
    State(s.published + [r], PutAll(s.images, [VersionName(r.tag)] + StableAliases(r.version, s.published), r))
  }

  function PublishAll(rs: seq<Release>): (s: State)
    requires AllSound(rs)
    ensures s.published == rs
  {
    if rs == [] then State([], map[]) else Publish(PublishAll(rs[..|rs| - 1]), rs[|rs| - 1])
  }

  lemma {:induction false} PutAllPuts(images: map<string, Release>, names: seq<string>, r: Release, name: string)
    ensures name in names ==> name in PutAll(images, names, r) && PutAll(images, names, r)[name] == r
    ensures name !in names ==> (name in PutAll(images, names, r) <==> name in images)
    ensures name !in names && name in images ==> PutAll(images, names, r)[name] == images[name]
    decreases |names|
  {
    if names != [] {
      PutAllPuts(images[names[0] := r], names[1..], r, name);
      assert names == [names[0]] + names[1..];
    }
  }

  /** A stable release in scope. */
  predicate Candidate(r: Release, s: Scope) {
    !r.version.prerelease && In(r.version, s)
  }

  /** The greatest of them. */
  ghost predicate Top(published: seq<Release>, s: Scope, r: Release)
    requires AllSound(published)
  {
    && r in published && Candidate(r, s)
    && forall i :: 0 <= i < |published| && Candidate(published[i], s) ==> !Greater(published[i].version, r.version)
  }

  /** The alias exists exactly when its scope has a stable release, and names the greatest. */
  ghost predicate AliasOk(st: State, s: Scope)
    requires AllSound(st.published)
  {
    && (AliasName(s) in st.images <==> exists i :: 0 <= i < |st.published| && Candidate(st.published[i], s))
    && (AliasName(s) in st.images ==> Top(st.published, s, st.images[AliasName(s)]))
  }

  /** A publication that takes the alias over. */
  lemma TakenIsTop(published: seq<Release>, r: Release, s: Scope)
    requires AllSound(published) && Sound(r) && Candidate(r, s) && !SupersededIn(published, r.version, s)
    ensures Top(published + [r], s, r)
  {
    var all := published + [r];
    assert all[|published|] == r;
    forall i | 0 <= i < |all| && Candidate(all[i], s) ensures !Greater(all[i].version, r.version) {
      if i < |published| {
        assert !Supersedes(published[i], r.version);
        NewerIffGreater(published[i].version, r.version);
      }
    }
  }

  lemma GreaterChains(a: Version, b: Version, c: Version)
    requires Good(a) && Good(b) && Good(c) && Greater(a, b) && !Greater(a, c)
    ensures !Greater(b, c)
  {
  }

  /** A publication that leaves it where it was. */
  lemma KeptIsTop(published: seq<Release>, r: Release, s: Scope, top: Release)
    requires AllSound(published) && Sound(r) && Top(published, s, top)
    requires Candidate(r, s) ==> SupersededIn(published, r.version, s)
    ensures Top(published + [r], s, top)
  {
    var all := published + [r];
    if Candidate(r, s) {
      var i :| 0 <= i < |published| && Supersedes(published[i], r.version) && In(published[i].version, s);
      NewerIffGreater(published[i].version, r.version);
      assert Candidate(published[i], s);
      GreaterChains(published[i].version, r.version, top.version);
    }
    forall i | 0 <= i < |all| && Candidate(all[i], s) ensures !Greater(all[i].version, top.version) {
      if i < |published| { assert all[i] == published[i]; }
    }
  }

  lemma AliasWrittenIff(published: seq<Release>, r: Release, s: Scope)
    requires AllSound(published) && Sound(r) && GoodScope(s)
    ensures AliasName(s) in [VersionName(r.tag)] + StableAliases(r.version, published) <==>
              Candidate(r, s) && !SupersededIn(published, r.version, s)
  {
    VersionNameIsNoAlias(r, s);
    OwnIffIn(r.version, s);
    if Candidate(r, s) {
      AliasTakenIff(r.version, published, s);
    } else if AliasName(s) in StableAliases(r.version, published) {
      AliasesAreOwn(r.version, published, AliasName(s));
      var t :| OwnScope(r.version, t) && AliasName(t) == AliasName(s);
      OwnIffIn(r.version, t);
      NamesDiffer(s, t);
    }
  }

  lemma PublishKeepsAlias(st: State, r: Release, s: Scope)
    requires AllSound(st.published) && Sound(r) && GoodScope(s) && AliasOk(st, s)
    ensures AliasOk(Publish(st, r), s)
  {
    var all := st.published + [r];
    var name := AliasName(s);
    AliasWrittenIff(st.published, r, s);
    PutAllPuts(st.images, [VersionName(r.tag)] + StableAliases(r.version, st.published), r, name);
    assert all[|st.published|] == r;
    assert forall i :: 0 <= i < |st.published| ==> all[i] == st.published[i];
    if Candidate(r, s) && !SupersededIn(st.published, r.version, s) {
      TakenIsTop(st.published, r, s);
    } else {
      if Candidate(r, s) {
        var i :| 0 <= i < |st.published| && Supersedes(st.published[i], r.version) && In(st.published[i].version, s);
        assert Candidate(st.published[i], s);
      }
      if name in st.images {
        KeptIsTop(st.published, r, s, st.images[name]);
      }
    }
  }

  lemma {:induction false} AliasesHold(rs: seq<Release>, s: Scope)
    requires AllSound(rs) && GoodScope(s)
    ensures AliasOk(PublishAll(rs), s)
  {
    if rs != [] {
      AliasesHold(rs[..|rs| - 1], s);
      PublishKeepsAlias(PublishAll(rs[..|rs| - 1]), rs[|rs| - 1], s);
    }
  }

  /**
   * After any sequence of publications of valid tags, in any order, each alias exists exactly when
   * its scope has a stable release, and names the greatest one.
   */
  lemma AliasesNameTheGreatest(rs: seq<Release>, s: Scope)
    requires (forall i :: 0 <= i < |rs| ==> Genuine(rs[i])) && GoodScope(s)
    ensures AllSound(rs) && AliasOk(PublishAll(rs), s)
  {
    forall i | 0 <= i < |rs| ensures Sound(rs[i]) { GenuineIsSound(rs[i]); }
    AliasesHold(rs, s);
  }

  /** The greatest is unique, so the order of publication does not matter. */
  lemma OrderDoesNotMatter(a: seq<Release>, b: seq<Release>, s: Scope)
    requires AllSound(a) && AllSound(b) && GoodScope(s) && (forall r :: r in a <==> r in b)
    requires AliasName(s) in PublishAll(a).images
    ensures AliasName(s) in PublishAll(b).images && PublishAll(a).images[AliasName(s)] == PublishAll(b).images[AliasName(s)]
  {
    AliasesHold(a, s);
    AliasesHold(b, s);
    var x := PublishAll(a).images[AliasName(s)];
    assert x in b;
    var j :| 0 <= j < |b| && b[j] == x;
    assert AliasName(s) in PublishAll(b).images;
    var y := PublishAll(b).images[AliasName(s)];
    assert y in a;
    var i :| 0 <= i < |a| && a[i] == y;
    StableTagsAreOrdered(x, y);
  }

  /** A prerelease never moves an alias. */
  lemma PrereleaseMovesNothing(st: State, r: Release, s: Scope)
    requires AllSound(st.published) && Sound(r) && r.version.prerelease && GoodScope(s)
    ensures var after := Publish(st, r).images;
            && (AliasName(s) in st.images <==> AliasName(s) in after)
            && (AliasName(s) in st.images ==> st.images[AliasName(s)] == after[AliasName(s)])
  {
    AliasWrittenIff(st.published, r, s);
    PutAllPuts(st.images, [VersionName(r.tag)] + StableAliases(r.version, st.published), r, AliasName(s));
  }
}
