/**
 * Docker image references: `parseImageRef` (internal/infra/docker_registry.go), and the
 * base name and profile match built on the same text (internal/infra/docker_matcher.go).
 */
module ImageRef {
  import opened Common
  import opened Strings

  datatype Ref = Ref(registry: string, repo: string, tag: string)

  /** The text before the tag, and the tag: what follows the last colon, unless a slash does too. */
  function SplitTag(image: string): (string, Option<string>) {
    var i := LastIndexOf(image, ':');
    if i.Some? && Free(image[i.value + 1..], '/') then (image[..i.value], Some(image[i.value + 1..]))
    else (image, None)
  }

  predicate IsHost(s: string) {
    !Free(s, '.') || !Free(s, ':') || s == "localhost"
  }

  function Parse(image: string): Ref {
    var (name, tag) := SplitTag(image);
    var t := if tag.Some? then tag.value else "latest";
    var n := IndexOf(name, '/');
    if n == |name| then Ref("docker.io", "library/" + name, t)
    else if IsHost(name[..n]) then Ref(name[..n], name[n + 1..], t)
    else Ref("docker.io", name, t)
  }

  /** The full spelling of a reference. */
  function Canonical(r: Ref): string { r.registry + "/" + r.repo + ":" + r.tag }

  /** A registry host, and a tag that ends the text. */
  predicate WellFormed(r: Ref) {
    Free(r.registry, '/') && IsHost(r.registry) && Free(r.tag, '/') && Free(r.tag, ':')
  }

  lemma ParseIsWellFormed(image: string)
    ensures WellFormed(Parse(image))
  {
    var (name, tag) := SplitTag(image);
    assert "docker.io"[6] == '.';
  }

  lemma SplitTagged(name: string, tag: string)
    requires Free(tag, '/') && Free(tag, ':')
    ensures SplitTag(name + ":" + tag) == (name, Some(tag))
  {
    var s := name + ":" + tag;
    var i := LastIndexOf(s, ':');
    assert s[|name|] == ':';
    assert i.Some? && i.value >= |name|;
    assert forall k | |name| < k < |s| :: s[k] == tag[k - |name| - 1];
    assert s[..|name|] == name && s[|name| + 1..] == tag;
  }

  /** Parsing undoes spelling, for every well-formed reference. */
  lemma ParseCanonical(r: Ref)
    requires WellFormed(r)
    ensures Parse(Canonical(r)) == r
  {
    var name := r.registry + "/" + r.repo;
    SplitTagged(name, r.tag);
    var n := IndexOf(name, '/');
    assert name[|r.registry|] == '/';
    assert forall k | 0 <= k < |r.registry| :: name[k] == r.registry[k];
    assert name[..n] == r.registry && name[n + 1..] == r.repo;
  }

  /** The canonical form: for every text, parsing its full spelling gives the same reference. */
  lemma CanonicalForm(image: string)
    ensures Parse(Canonical(Parse(image))) == Parse(image)
  {
    ParseIsWellFormed(image);
    ParseCanonical(Parse(image));
  }

  /**
   * What is left out of a spelling: without a host the registry is docker.io, without a host
   * and a user the repository is an official one under library/, without a tag it is latest.
   * A host is what contains a dot or a colon, or is localhost.
   */
  lemma ParseDefaults(first: string, rest: string, tag: string)
    requires first != "" && Free(first, '/') && Free(rest, ':') && Free(tag, '/') && Free(tag, ':')
    ensures Free(first, ':') ==> Parse(first) == Ref("docker.io", "library/" + first, "latest")
    ensures Parse(first + ":" + tag) == Ref("docker.io", "library/" + first, tag)
    ensures var host := '.' in first || ':' in first || first == "localhost";
            && Parse(first + "/" + rest) == (if host then Ref(first, rest, "latest") else Ref("docker.io", first + "/" + rest, "latest"))
            && Parse(first + "/" + rest + ":" + tag) == (if host then Ref(first, rest, tag) else Ref("docker.io", first + "/" + rest, tag))
  {
    var path := first + "/" + rest;
    SplitTagged(first, tag);
    SplitTagged(path, tag);
    UntaggedPath(first, rest);
    assert path[|first|] == '/';
    assert forall k | 0 <= k < |first| :: path[k] == first[k];
    var n := IndexOf(path, '/');
    assert n == |first| && path[..n] == first && path[n + 1..] == rest;
    assert IndexOf(first, '/') == |first|;
    if Free(first, ':') {
      assert SplitTag(first) == (first, None);
    }
  }

  lemma UntaggedPath(first: string, rest: string)
    requires Free(rest, ':')
    ensures SplitTag(first + "/" + rest) == (first + "/" + rest, None)
  {
    var s := first + "/" + rest;
    var i := LastIndexOf(s, ':');
    assert s[|first|] == '/';
    assert forall k | |first| < k < |s| :: s[k] == rest[k - |first| - 1];
    if i.Some? {
      assert i.value < |first|;
      assert s[i.value + 1..][|first| - i.value - 1] == '/';
    }
  }

  // ---- Base names -------------------------------------------------------------

  function LastSegment(path: string): string {
    var i := LastIndexOf(path, '/');
    if i.Some? then path[i.value + 1..] else path
  }

  /** The tag is stripped when no slash follows the last colon, then everything up to the last slash. */
  function ImageBaseName(image: string): string {
    var i := LastIndexOf(image, ':');
    var name := if i.Some? && Free(image[i.value..], '/') then image[..i.value] else image;
    LastSegment(name)
  }

  /** What follows the last slash. */
  lemma LastSegmentIs(path: string)
    ensures '/' !in LastSegment(path)
    ensures LastSegment(path) == path || exists front :: path == front + "/" + LastSegment(path)
  {
    var i := LastIndexOf(path, '/');
    if i.Some? {
      assert path == path[..i.value] + "/" + LastSegment(path);
    }
  }

  lemma LastSegmentAfter(front: string, rest: string)
    ensures LastSegment(front + "/" + rest) == LastSegment(rest)
  {
    var s := front + "/" + rest;
    var i, j := LastIndexOf(s, '/'), LastIndexOf(rest, '/');
    assert s[|front|] == '/';
    assert i.Some? && i.value >= |front|;
    assert forall k | 0 <= k < |rest| :: s[|front| + 1 + k] == rest[k];
    if j.Some? {
      assert i.value == |front| + 1 + j.value;
    } else {
      assert i.value == |front|;
    }
  }

  lemma BaseNameIsStripped(image: string)
    ensures ImageBaseName(image) == LastSegment(SplitTag(image).0)
  {
    var i := LastIndexOf(image, ':');
    if i.Some? {
      var from := image[i.value..];
      assert from[0] == ':' && image[i.value + 1..] == from[1..];
      assert forall k | 0 < k < |from| :: from[k] == from[1..][k - 1];
    }
  }

  lemma SplitAtSlash(name: string, n: nat)
    requires n < |name| && name[n] == '/'
    ensures name == name[..n] + "/" + name[n + 1..]
  {
  }

  /** The base name of any text is the last path segment of the repository it parses to. */
  lemma BaseNameOfRepo(image: string)
    ensures ImageBaseName(image) == LastSegment(Parse(image).repo)
  {
    BaseNameIsStripped(image);
    var name := SplitTag(image).0;
    var n := IndexOf(name, '/');
    if n == |name| {
      assert "library/" + name == "library" + "/" + name;
      LastSegmentAfter("library", name);
    } else {
      SplitAtSlash(name, n);
      LastSegmentAfter(name[..n], name[n + 1..]);
    }
  }

  /** The base name does not depend on how the reference is spelled. */
  lemma BaseNameOfCanonical(image: string)
    ensures ImageBaseName(Canonical(Parse(image))) == ImageBaseName(image)
  {
    BaseNameOfRepo(image);
    BaseNameOfRepo(Canonical(Parse(image)));
    CanonicalForm(image);
  }

  // ---- Matching a container to a profile ------------------------------------------

  datatype Match = Match(profileID: string, confidence: nat)

  /** The rules in order of precedence; `lower` stands for strings.ToLower. */
  function Confidence(name: string, image: string, id: string, lower: string -> string): nat {
    var lName, lBase, lID := lower(name), lower(ImageBaseName(image)), lower(id);
    if lName == lID then 95
    else if lBase == lID then 85
    else if Contains(lName, lID) then 80
    else if Contains(lBase, lID) then 70
    else 0
  }

  /** The name before the image, and equality before containment, letter case aside. */
  lemma ConfidenceIs(name: string, image: string, id: string, lower: string -> string)
    ensures var n, b, i := lower(name), lower(ImageBaseName(image)), lower(id);
            var inName, inBase := exists k :: 0 <= k <= |n| && i <= n[k..], exists k :: 0 <= k <= |b| && i <= b[k..];
            Confidence(name, image, id, lower) ==
            if n == i then 95 else if b == i then 85 else if inName then 80 else if inBase then 70 else 0
  {
    ContainsIff(lower(name), lower(id));
    ContainsIff(lower(ImageBaseName(image)), lower(id));
  }

  /** The match is a profile of highest confidence, when any reaches 70. */
  ghost predicate BestMatch(m: Option<Match>, name: string, image: string, profiles: set<string>, lower: string -> string) {
    match m
    case None => forall id | id in profiles :: Confidence(name, image, id, lower) < 70
    case Some(Match(id, confidence)) =>
      && id in profiles && confidence == Confidence(name, image, id, lower) >= 70
      && forall other | other in profiles :: Confidence(name, image, other, lower) <= confidence
  }

  /** Visits the profiles in map order. */
  method MatchContainerToProfile(name: string, image: string, profiles: set<string>, lower: string -> string)
    returns (best: Option<Match>)
    ensures BestMatch(best, name, image, profiles, lower)
    ensures best.None? <==> forall id :: id in profiles ==> Confidence(name, image, id, lower) == 0
    ensures best.Some? ==>
              && best.value.profileID in profiles
              && best.value.confidence == Confidence(name, image, best.value.profileID, lower)
              && forall id :: id in profiles ==> Confidence(name, image, id, lower) <= best.value.confidence
  {
    best := None;
    var rest := profiles;
    while rest != {}
      invariant rest <= profiles
      invariant BestMatch(best, name, image, profiles - rest, lower)
      decreases rest
    {
      var id :| id in rest;
      rest := rest - {id};
      assert profiles - rest == (profiles - rest - {id}) + {id};
      var conf := Confidence(name, image, id, lower);
      if conf >= 70 && (best.None? || conf > best.value.confidence) {
        best := Some(Match(id, conf));
      }
    }
    assert profiles - rest == profiles;
  }

  lemma SpellingKeepsConfidence(name: string, image: string, id: string, lower: string -> string)
    ensures Confidence(name, Canonical(Parse(image)), id, lower) == Confidence(name, image, id, lower)
  {
    BaseNameOfCanonical(image);
  }

  lemma SpellingKeepsMatch(m: Option<Match>, name: string, image: string, profiles: set<string>, lower: string -> string)
    requires BestMatch(m, name, Canonical(Parse(image)), profiles, lower)
    ensures BestMatch(m, name, image, profiles, lower)
  {
    forall id {
      SpellingKeepsConfidence(name, image, id, lower);
    }
  }

  /** Two visits in different orders find the same confidence. */
  lemma OrderKeepsConfidence(a: Option<Match>, b: Option<Match>, name: string, image: string, profiles: set<string>,
                             lower: string -> string)
    requires BestMatch(a, name, image, profiles, lower) && BestMatch(b, name, image, profiles, lower)
    ensures a.None? <==> b.None?
    ensures a.Some? ==> a.value.confidence == b.value.confidence
  {
  }

  /**
   * Whatever the order of the profiles and however the image is spelled, the confidence
   * of the match is the same; only the choice among equals depends on the order.
   */
  lemma MatchIsStable(a: Option<Match>, b: Option<Match>, name: string, image: string, profiles: set<string>,
                      lower: string -> string)
    requires BestMatch(a, name, image, profiles, lower)
    requires BestMatch(b, name, Canonical(Parse(image)), profiles, lower)
    ensures a.None? <==> b.None?
    ensures a.Some? ==> a.value.confidence == b.value.confidence
  {
    SpellingKeepsMatch(b, name, image, profiles, lower);
    OrderKeepsConfidence(a, b, name, image, profiles, lower);
  }
}
