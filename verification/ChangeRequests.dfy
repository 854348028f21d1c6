/** Which repository a change-request link belongs to. */
module ChangeRequests {
  import opened Outcomes
  import opened Strings
  import opened Remotes

  /** The project path inside an identity; a GitLab identity names its host first. */
  function ProjectOf(provider: Provider, identity: string): Option<string> {
    match provider
    case GitHub => Some(identity)
    case GitLab => StripPrefix(identity, "gitlab.com/")
  }

  function SuffixLength(provider: Provider): nat {
    match provider
    case GitHub => 2
    case GitLab => 3
  }

  /** `eq_ignore_ascii_case` on every pair. */
  predicate SameIgnoringCase(actual: seq<string>, expected: seq<string>) {
    |actual| == |expected| && forall i | 0 <= i < |actual| :: EqIgnoreCase(actual[i], expected[i])
  }

  predicate IsSuffix(provider: Provider, segments: seq<string>)
    requires |segments| == SuffixLength(provider)
  {
    match provider
    case GitHub => segments[0] == "pull" && Digits(segments[1])
    case GitLab => segments[0] == "-" && segments[1] == "merge_requests" && Digits(segments[2])
  }

  predicate PathIsRecognized(provider: Provider, project: string, path: string) {
    var segments, expected := Split(path), Split(project);
    && |segments| == |expected| + SuffixLength(provider)
    && SameIgnoringCase(segments[..|expected|], expected)
    && IsSuffix(provider, segments[|expected|..])
  }

  function Recognize(provider: Provider, identity: string, candidate: string): Option<string> {
    var remainder := StripPrefix(candidate, "https://");
    if remainder.None? then None else
    var split := SplitOnce(remainder.value, '/');
    var project := ProjectOf(provider, identity);
    if split.None? || project.None? then None else
    var (host, path) := split.value;
    if !EqIgnoreCase(host, HostOf(provider)) || !PathIsRecognized(provider, project.value, path) then None
    else Some(candidate)
  }

  // ----- The printed shape -----

  datatype Link = Link(host: string, project: string, number: string)

  function Marker(provider: Provider): string {
    match provider
    case GitHub => "/pull/"
    case GitLab => "/-/merge_requests/"
  }

  function LinkPath(provider: Provider, project: string, number: string): string {
    project + (Marker(provider) + number)
  }

  function PrintLink(provider: Provider, link: Link): string {
    "https://" + (link.host + "/" + LinkPath(provider, link.project, link.number))
  }

  /** `link` is, up to case, the change request `link.number` of `project`. */
  predicate IsLinkOf(link: Link, provider: Provider, project: string) {
    && EqIgnoreCase(link.host, if provider == GitHub then "github.com" else "gitlab.com")
    && EqIgnoreCase(link.project, project)
    && link.number != "" && (forall c <- link.number :: '0' <= c <= '9')
  }

  lemma SamePaths(a: string, b: string)
    ensures SameIgnoringCase(Split(a), Split(b)) <==> EqIgnoreCase(a, b)
  {
    SplitOfLower(a);
    SplitOfLower(b);
    if SameIgnoringCase(Split(a), Split(b)) {
      assert LowerAll(Split(a)) == LowerAll(Split(b));
      JoinOfSplit(Lower(a));
      JoinOfSplit(Lower(b));
    }
    if EqIgnoreCase(a, b) {
      forall i | 0 <= i < |Split(a)|
        ensures |Split(a)| == |Split(b)| && EqIgnoreCase(Split(a)[i], Split(b)[i])
      {
        assert LowerAll(Split(a))[i] == LowerAll(Split(b))[i];
      }
    }
  }

  /** The segments that follow the project in the change request `number`. */
  function Suffix(provider: Provider, number: string): (segments: seq<string>)
    ensures |segments| == SuffixLength(provider)
  {
    match provider
    case GitHub => ["pull", number]
    case GitLab => ["-", "merge_requests", number]
  }

  lemma MarkerJoins(provider: Provider, number: string)
    ensures Marker(provider) + number == "/" + Join(Suffix(provider, number))
  {
    var suffix := Suffix(provider, number);
    assert suffix[1..] == if provider == GitHub then [number] else ["merge_requests", number];
    if provider == GitLab {
      assert suffix[1..][1..] == [number];
      assert Join(suffix[1..]) == "merge_requests" + "/" + number;
      assert Join(suffix) == "-" + "/" + Join(suffix[1..]);
      assert "/" + "-" + "/" + "merge_requests" + "/" == Marker(provider);
      assert "/" + ("-" + "/" + ("merge_requests" + "/" + number)) == Marker(provider) + number;
    }
  }

  lemma SuffixSplits(provider: Provider, number: string)
    requires Digits(number)
    ensures Split(Join(Suffix(provider, number))) == Suffix(provider, number)
    ensures IsSuffix(provider, Suffix(provider, number))
  {
    SplitOfJoin(Suffix(provider, number));
  }

  lemma SplitOfLink(provider: Provider, project: string, number: string)
    requires Digits(number)
    ensures Split(LinkPath(provider, project, number)) == Split(project) + Suffix(provider, number)
  {
    hide Marker, Suffix, Digits;
    MarkerJoins(provider, number);
    SuffixSplits(provider, number);
    var tail := Join(Suffix(provider, number));
    SplitOfPath(project, tail);
    Regroup(project, "/", tail);
  }

  lemma SuffixIsPrinted(provider: Provider, suffix: seq<string>)
    requires |suffix| == SuffixLength(provider) && IsSuffix(provider, suffix)
    ensures suffix == Suffix(provider, suffix[|suffix| - 1]) && Digits(suffix[|suffix| - 1])
  {
  }

  /** A path that splits into `project` and a suffix is printed that way. */
  lemma PathOfParts(provider: Provider, project: seq<string>, number: string, path: string)
    requires project != [] && Split(path) == project + Suffix(provider, number)
    ensures path == LinkPath(provider, Join(project), number)
    ensures Split(Join(project)) == project
  {
    hide Marker, Suffix;
    JoinOfSplit(path);
    assert forall segment <- project :: segment in Split(path);
    SplitOfJoin(project);
    JoinOfAppend(project, Suffix(provider, number));
    MarkerJoins(provider, number);
    var tail := Join(Suffix(provider, number));
    Regroup(Join(project), "/", tail);
  }

  lemma RecognizedPathIsPrinted(provider: Provider, project: string, path: string)
      returns (actual: string, number: string)
    requires PathIsRecognized(provider, project, path)
    ensures path == LinkPath(provider, actual, number)
    ensures EqIgnoreCase(actual, project) && Digits(number)
  {
    var segments, n := Split(path), |Split(project)|;
    assert segments == segments[..n] + segments[n..];
    SuffixIsPrinted(provider, segments[n..]);
    actual, number := Join(segments[..n]), segments[|segments| - 1];
    PathOfParts(provider, segments[..n], number, path);
    SamePaths(actual, project);
  }

  lemma PrintedPathIsRecognized(provider: Provider, project: string, link: Link)
    requires IsLinkOf(link, provider, project)
    ensures PathIsRecognized(provider, project, LinkPath(provider, link.project, link.number))
  {
    var path := LinkPath(provider, link.project, link.number);
    SplitOfLink(provider, link.project, link.number);
    SamePaths(link.project, project);
    SuffixSplits(provider, link.number);
    assert Split(path)[..|Split(project)|] == Split(link.project);
    assert Split(path)[|Split(project)|..] == Suffix(provider, link.number);
  }

  lemma HostHasNoSlash(host: string, provider: Provider)
    requires EqIgnoreCase(host, HostOf(provider))
    ensures '/' !in host
  {
    LowerKeepsSigns(host, '/');
    LowerKeepsSigns(HostOf(provider), '/');
    assert '/' !in HostOf(provider);
  }

  lemma PartsOfPrinted(provider: Provider, link: Link)
    requires EqIgnoreCase(link.host, HostOf(provider))
    ensures StripPrefix(PrintLink(provider, link), "https://").Some?
    ensures SplitOnce(StripPrefix(PrintLink(provider, link), "https://").value, '/')
            == Some((link.host, LinkPath(provider, link.project, link.number)))
  {
    hide EqIgnoreCase, LinkPath;
    var path := LinkPath(provider, link.project, link.number);
    StripOfPrefixed("https://", link.host + "/" + path);
    HostHasNoSlash(link.host, provider);
    SplitOnceAt(link.host, '/', path);
  }

  lemma PrintedIsRecognized(provider: Provider, identity: string, link: Link)
    requires ProjectOf(provider, identity).Some?
    requires IsLinkOf(link, provider, ProjectOf(provider, identity).value)
    ensures Recognize(provider, identity, PrintLink(provider, link)) == Some(PrintLink(provider, link))
  {
    hide PathIsRecognized, EqIgnoreCase, LinkPath, Digits, ProjectOf, PrintLink;
    var path := LinkPath(provider, link.project, link.number);
    PrintedPathIsRecognized(provider, ProjectOf(provider, identity).value, link);
    PartsOfPrinted(provider, link);
  }

  lemma PartsOfRecognized(provider: Provider, identity: string, candidate: string) returns (host: string, path: string)
    requires Recognize(provider, identity, candidate).Some?
    ensures candidate == "https://" + (host + "/" + path)
    ensures EqIgnoreCase(host, HostOf(provider))
    ensures ProjectOf(provider, identity).Some? && PathIsRecognized(provider, ProjectOf(provider, identity).value, path)
  {
    hide PathIsRecognized, EqIgnoreCase, ProjectOf;
    var remainder := candidate[|"https://"|..];
    host, path := SplitOnce(remainder, '/').value.0, SplitOnce(remainder, '/').value.1;
    assert candidate == "https://" + remainder;
  }

  lemma RecognizedIsPrinted(provider: Provider, identity: string, candidate: string) returns (link: Link)
    requires Recognize(provider, identity, candidate).Some?
    ensures ProjectOf(provider, identity).Some?
    ensures IsLinkOf(link, provider, ProjectOf(provider, identity).value)
    ensures candidate == PrintLink(provider, link)
  {
    hide PathIsRecognized, EqIgnoreCase, LinkPath, Digits, Recognize, ProjectOf;
    var host, path := PartsOfRecognized(provider, identity, candidate);
    var project, number := RecognizedPathIsPrinted(provider, ProjectOf(provider, identity).value, path);
    link := Link(host, project, number);
  }

  /** Recognition holds exactly for the printed shape, with its letters in any case. */
  lemma RecognizedExactlyWhenPrinted(provider: Provider, identity: string, candidate: string)
    ensures Recognize(provider, identity, candidate).Some?
            <==> ProjectOf(provider, identity).Some?
                 && exists link :: IsLinkOf(link, provider, ProjectOf(provider, identity).value)
                                   && candidate == PrintLink(provider, link)
    ensures Recognize(provider, identity, candidate).Some? ==>
        Recognize(provider, identity, candidate).value == candidate
  {
    hide PathIsRecognized, IsLinkOf, PrintLink;
    if Recognize(provider, identity, candidate).Some? {
      var link := RecognizedIsPrinted(provider, identity, candidate);
    }
    if ProjectOf(provider, identity).Some? {
      forall link | IsLinkOf(link, provider, ProjectOf(provider, identity).value)
          && candidate == PrintLink(provider, link)
        ensures Recognize(provider, identity, candidate).Some?
      {
        PrintedIsRecognized(provider, identity, link);
      }
    }
  }

  // ----- One owner -----

  lemma ProjectsAgree(provider: Provider, p: string, q: string, path: string)
    requires PathIsRecognized(provider, p, path) && PathIsRecognized(provider, q, path)
    ensures EqIgnoreCase(p, q)
  {
    var n := |Split(p)|;
    assert n == |Split(q)|;
    forall i | 0 <= i < n
      ensures EqIgnoreCase(Split(p)[i], Split(q)[i])
    {
      assert EqIgnoreCase(Split(path)[..n][i], Split(p)[i]);
      assert EqIgnoreCase(Split(path)[..n][i], Split(q)[i]);
    }
    SamePaths(p, q);
  }

  lemma HostsDiffer(host: string, p: Provider, q: Provider)
    requires EqIgnoreCase(host, HostOf(p)) && EqIgnoreCase(host, HostOf(q))
    ensures p == q
  {
    assert Lower(HostOf(p))[3] == Lower(HostOf(q))[3];
  }

  lemma IdentityOfProject(provider: Provider, i: string, j: string)
    requires ProjectOf(provider, i).Some? && ProjectOf(provider, j).Some?
    requires EqIgnoreCase(ProjectOf(provider, i).value, ProjectOf(provider, j).value)
    ensures EqIgnoreCase(i, j)
  {
    if provider == GitLab {
      LowerConcat("gitlab.com/", ProjectOf(provider, i).value);
      LowerConcat("gitlab.com/", ProjectOf(provider, j).value);
      assert i == "gitlab.com/" + ProjectOf(provider, i).value;
      assert j == "gitlab.com/" + ProjectOf(provider, j).value;
    }
  }

  /** A link belongs to at most one repository. */
  lemma OneOwner(p: Provider, i: string, q: Provider, j: string, candidate: string)
    requires Recognize(p, i, candidate).Some? && Recognize(q, j, candidate).Some?
    ensures p == q && EqIgnoreCase(i, j)
  {
    hide PathIsRecognized, EqIgnoreCase, ProjectOf;
    var (host, path) := SplitOnce(candidate[|"https://"|..], '/').value;
    HostsDiffer(host, p, q);
    ProjectsAgree(p, ProjectOf(p, i).value, ProjectOf(q, j).value, path);
    IdentityOfProject(p, i, j);
  }

  lemma IdentityIsLower(r: Ref)
    ensures Lower(Identity(r)) == Identity(r)
  {
  }

  /** Two repositories that both own a link have the same identity, so both parsed
      remotes name the same repository up to case. */
  lemma OneOwnerAmongParsedRemotes(r: Ref, s: Ref, candidate: string)
    requires Canonical(r) && Canonical(s)
    requires Recognize(r.provider, Identity(r), candidate).Some?
    requires Recognize(s.provider, Identity(s), candidate).Some?
    ensures Identity(r) == Identity(s) && Lowered(r) == Lowered(s)
  {
    hide Recognize, Identity, Lowered, FromSegments;
    OneOwner(r.provider, Identity(r), s.provider, Identity(s), candidate);
    IdentityIsLower(r);
    IdentityIsLower(s);
    IdentityNamesOne(r, s);
  }

  lemma LowerPathOf(r: Ref)
    requires Canonical(r)
    ensures Split(Lower(Path(r))) == LowerAll(Split(r.namespace)) + [Lower(r.name)]
  {
    assert r.name in Segments(r);
    SplitOfLower(Path(r));
    SplitOfPath(r.namespace, r.name);
    SplitOfSegment(r.name);
  }

  lemma IdentityPath(r: Ref)
    requires Canonical(r)
    ensures ProjectOf(r.provider, Identity(r)) == Some(Lower(Path(r)))
  {
    IdentityMeans(r);
    if r.provider == GitLab {
      assert Identity(r)[|"gitlab.com/"|..] == Lower(Path(r));
    }
  }

  lemma IdentityNamesOne(r: Ref, s: Ref)
    requires Canonical(r) && Canonical(s)
    requires r.provider == s.provider && Identity(r) == Identity(s)
    ensures Lowered(r) == Lowered(s)
  {
    hide Identity, FromSegments, Path;
    IdentityPath(r);
    IdentityPath(s);
    LowerPathOf(r);
    LowerPathOf(s);
    var a, b := LowerAll(Split(r.namespace)), LowerAll(Split(s.namespace));
    assert (a + [Lower(r.name)])[..|a|] == a;
    assert (b + [Lower(s.name)])[..|b|] == b;
    assert a == b;
    SplitOfLower(r.namespace);
    SplitOfLower(s.namespace);
    JoinOfSplit(Lower(r.namespace));
    JoinOfSplit(Lower(s.namespace));
    HostOfCanonical(r);
    HostOfCanonical(s);
  }

  lemma HostOfCanonical(r: Ref)
    requires Canonical(r)
    ensures r.host == HostOf(r.provider)
  {
  }

  /** Every change request of a parsed repository is recognised for its identity. */
  lemma OwnLinksAreRecognized(r: Ref, number: string)
    requires Canonical(r) && Digits(number)
    ensures Recognize(r.provider, Identity(r), PrintLink(r.provider, Link(r.host, Path(r), number))).Some?
  {
    hide Recognize, Clean;
    IdentityPath(r);
    HostOfCanonical(r);
    PrintedIsRecognized(r.provider, Identity(r), Link(r.host, Path(r), number));
  }
}
