/** Remote URLs of repositories: parsing, printing and identities. */
module Remotes {
  import opened Outcomes
  import opened Strings

  datatype Provider = GitHub | GitLab

  datatype Ref = Ref(provider: Provider, host: string, namespace: string, name: string)

  function HostOf(provider: Provider): string {
    match provider
    case GitHub => "github.com"
    case GitLab => "gitlab.com"
  }

  predicate BadSegment(segment: string) {
    segment == "" || segment == "." || segment == ".." || EndsWith(segment, ".git")
  }

  /** The repository that a list of path segments names. */
  function FromSegments(provider: Provider, segments: seq<string>): Result<Ref>
    requires segments != []
  {
    if exists segment <- segments :: BadSegment(segment) then Failure
    else if provider == GitLab && "-" in segments then Failure
    else if |segments| < 2 || (provider == GitHub && |segments| != 2) then Failure
    else Success(Ref(provider, HostOf(provider), Join(segments[..|segments| - 1]), segments[|segments| - 1]))
  }

  /** The host of a URL's `host[:port]`. */
  function ParseHost(hostAndPort: string, userRequired: bool): Result<string> {
    var colon := RSplitOnce(hostAndPort, ':');
    var host := if colon.Some? then colon.value.0 else hostAndPort;
    if host == "" || (colon.Some? && !Digits(colon.value.1)) then Failure
    else if EqIgnoreCase(host, "ssh.github.com") && colon.Some? && colon.value.1 != "443" then Failure
    else if !userRequired && EqIgnoreCase(host, "ssh.github.com") then Failure
    else Success(host)
  }

  function ParseAuthority(authority: string, requiredUser: Option<string>): Result<string> {
    var at := RSplitOnce(authority, '@');
    var user := if at.Some? then Some(at.value.0) else None;
    if requiredUser.Some? && user != requiredUser then Failure
    else ParseHost(if at.Some? then at.value.1 else authority, requiredUser.Some?)
  }

  function ParseUrlRemote(remote: string, requiredUser: Option<string>): Result<(string, string)> {
    var split := SplitOnce(remote, '/');
    if split.None? then Failure else
    var (authority, path) := split.value;
    if authority == "" || path == "" then Failure else
    var host :- ParseAuthority(authority, requiredUser);
    Success((host, path))
  }

  function ParseScpRemote(remote: string): Result<(string, string)> {
    var split := SplitOnce(remote, ':');
    if split.None? then Failure else
    var (authority, path) := split.value;
    var at := SplitOnce(authority, '@');
    if at.None? then Failure else
    var (user, host) := at.value;
    if user != "git" || host == "" || path == "" then Failure
    else if EqIgnoreCase(host, "ssh.github.com") then Failure
    else Success((host, path))
  }

  function ProviderOf(host: string): Option<Provider> {
    if Lower(host) == "github.com" || Lower(host) == "ssh.github.com" then Some(GitHub)
    else if Lower(host) == "gitlab.com" then Some(GitLab)
    else None
  }

  function Transport(remote: string): Result<(string, string)> {
    var https := StripPrefix(remote, "https://");
    if https.Some? then ParseUrlRemote(https.value, None) else
    var ssh := StripPrefix(remote, "ssh://");
    if ssh.Some? then ParseUrlRemote(ssh.value, Some("git")) else ParseScpRemote(remote)
  }

  function Stripped(path: string): string {
    StripSuffix(TrimEnd(path, '/'), ".git")
  }

  function Parse(remote: string): Result<Ref> {
    if remote == "" || '?' in remote || '#' in remote then Failure else
    var (host, path) :- Transport(remote);
    var provider := ProviderOf(host);
    if provider.None? then Failure
    else FromSegments(provider.value, Split(Stripped(path)))
  }

  function PrintPath(provider: Provider, path: string): string {
    "https://" + HostOf(provider) + "/" + path + ".git"
  }

  function Path(r: Ref): string {
    r.namespace + "/" + r.name
  }

  function Print(r: Ref): string {
    PrintPath(r.provider, Path(r))
  }

  // ----- Which references parsing can produce -----

  function Segments(r: Ref): (segments: seq<string>) {
    Split(r.namespace) + [r.name]
  }

  /** A segment that a path may have. */
  ghost predicate Clean(segment: string) {
    && segment != "" && segment != "." && segment != ".."
    && (forall prefix: string :: segment != prefix + ".git")
    && '/' !in segment && '?' !in segment && '#' !in segment
  }

  /** Exactly the values that `Parse` returns for some remote: clean segments, on GitHub just
      two, on GitLab none that is a dash. */
  ghost predicate Canonical(r: Ref) {
    && (forall segment <- Segments(r) :: Clean(segment))
    && match r.provider
       case GitHub => r.host == "github.com" && '/' !in r.namespace
       case GitLab => r.host == "gitlab.com" && "-" !in Segments(r)
  }

  /** The same, as the checks of the parser put it. */
  predicate Accepted(r: Ref) {
    && FromSegments(r.provider, Segments(r)) == Success(r)
    && '/' !in r.name
    && '?' !in Path(r) && '#' !in Path(r)
  }

  lemma {:induction false} TrimKeepsPrefix(s: string, c: char)
    ensures TrimEnd(s, c) <= s
  {
    if s != [] && s[|s| - 1] == c {
      TrimKeepsPrefix(s[..|s| - 1], c);
    }
  }

  lemma InTail(a: string, b: string, c: char)
    requires c in b
    ensures c in a + b
  {
    var i :| 0 <= i < |b| && b[i] == c;
    assert (a + b)[|a| + i] == c;
  }

  lemma UrlPathIsTail(remote: string, user: Option<string>)
    ensures ParseUrlRemote(remote, user).Success? ==>
              && SplitOnce(remote, '/').Some?
              && remote == SplitOnce(remote, '/').value.0 + "/" + ParseUrlRemote(remote, user).value.1
  {
  }

  lemma TransportKeepsChars(remote: string, c: char)
    ensures Transport(remote).Success? && c in Transport(remote).value.1 ==> c in remote
  {
    hide ParseUrlRemote, EqIgnoreCase;
    if Transport(remote).Success? && c in Transport(remote).value.1 {
      var path := Transport(remote).value.1;
      if "https://" <= remote {
        var rest := remote[|"https://"|..];
        UrlPathIsTail(rest, None);
        InTail(SplitOnce(rest, '/').value.0 + "/", path, c);
      } else if "ssh://" <= remote {
        var rest := remote[|"ssh://"|..];
        UrlPathIsTail(rest, Some("git"));
        InTail(SplitOnce(rest, '/').value.0 + "/", path, c);
      } else {
        InTail(SplitOnce(remote, ':').value.0 + ":", path, c);
      }
    }
  }

  lemma SegmentsOfParsed(provider: Provider, path: string)
    requires FromSegments(provider, Split(path)).Success?
    ensures var r := FromSegments(provider, Split(path)).value;
            && r.provider == provider && Path(r) == path && Segments(r) == Split(path) && '/' !in r.name
  {
    hide BadSegment;
    var segments := Split(path);
    var last := |segments| - 1;
    JoinOfSplit(path);
    assert segments[last] in segments;
    assert forall segment <- segments[..last] :: segment in segments;
    SplitOfJoin(segments[..last]);
    JoinOfAppend(segments[..last], [segments[last]]);
    assert segments[..last] + [segments[last]] == segments;
  }

  lemma StrippedIsPrefix(path: string)
    ensures Stripped(path) <= path
  {
    TrimKeepsPrefix(path, '/');
  }

  lemma ParsedIsAccepted(remote: string)
    ensures Parse(remote).Success? ==> Accepted(Parse(remote).value)
  {
    hide Transport, FromSegments, StripSuffix, TrimEnd;
    if Parse(remote).Success? {
      var (host, path) := Transport(remote).value;
      var provider := ProviderOf(host).value;
      SegmentsOfParsed(provider, Stripped(path));
      StrippedIsPrefix(path);
      forall c | c in Stripped(path)
        ensures c in remote
      {
        assert c in path;
        TransportKeepsChars(remote, c);
      }
    }
  }

  // ----- The two descriptions of what parses -----

  lemma SuffixMeans(segment: string, suffix: string)
    ensures EndsWith(segment, suffix) <==> exists prefix: string :: segment == prefix + suffix
  {
    if EndsWith(segment, suffix) {
      assert segment == segment[..|segment| - |suffix|] + suffix;
    }
  }

  lemma CharOfPath(r: Ref, c: char) returns (segment: string)
    requires c in Path(r) && c != '/'
    ensures segment in Segments(r) && c in segment
  {
    if c in r.name {
      segment := r.name;
    } else {
      assert c in r.namespace;
      segment := CharInSegment(r.namespace, c);
    }
  }

  lemma SegmentOfPath(r: Ref, segment: string, c: char)
    requires segment in Segments(r) && c in segment
    ensures c in Path(r)
  {
    if segment == r.name {
      InTail(r.namespace + "/", r.name, c);
    } else {
      SegmentChars(r.namespace, segment, c);
      assert Path(r) == r.namespace + ("/" + r.name);
    }
  }

  lemma CharsAgree(r: Ref, c: char)
    requires c != '/'
    ensures c in Path(r) <==> exists segment <- Segments(r) :: c in segment
  {
    if c in Path(r) {
      var segment := CharOfPath(r, c);
    }
    forall segment <- Segments(r) | c in segment
      ensures c in Path(r)
    {
      SegmentOfPath(r, segment, c);
    }
  }

  lemma SegmentsAgree(r: Ref)
    ensures (forall segment <- Segments(r) :: Clean(segment))
            <==> && (forall segment <- Segments(r) :: !BadSegment(segment))
                 && '/' !in r.name && '?' !in Path(r) && '#' !in Path(r)
  {
    hide Path, EndsWith;
    CharsAgree(r, '?');
    CharsAgree(r, '#');
    JoinOfSplit(r.namespace);
    forall segment <- Segments(r)
      ensures Clean(segment) <==>
              !BadSegment(segment) && '/' !in segment && '?' !in segment && '#' !in segment
      ensures segment != r.name ==> '/' !in segment
    {
      SuffixMeans(segment, ".git");
    }
    assert r.name in Segments(r);
  }

  /** `Segments` splits the namespace and appends the name. */
  lemma CheckOfSegments(r: Ref)
    ensures FromSegments(r.provider, Segments(r)) == Success(r)
            <==> && (forall segment <- Segments(r) :: !BadSegment(segment))
                 && match r.provider
                    case GitHub => r.host == "github.com" && '/' !in r.namespace
                    case GitLab => r.host == "gitlab.com" && "-" !in Segments(r)
  {
    hide BadSegment;
    var segments := Segments(r);
    SplitCount(r.namespace);
    JoinOfSplit(r.namespace);
    assert segments[..|segments| - 1] == Split(r.namespace);
  }

  lemma CanonicalIsAccepted(r: Ref)
    ensures Canonical(r) <==> Accepted(r)
  {
    hide FromSegments, Segments, Clean, BadSegment, Path;
    SegmentsAgree(r);
    CheckOfSegments(r);
  }

  /** Whatever parses has clean segments, the right number of them and the host of its
      provider. */
  lemma ParsedIsCanonical(remote: string)
    ensures Parse(remote).Success? ==> Canonical(Parse(remote).value)
  {
    if Parse(remote).Success? {
      ParsedIsAccepted(remote);
      CanonicalIsAccepted(Parse(remote).value);
    }
  }

  // ----- Printing and parsing -----

  lemma UrlOfPrinted(host: string, path: string)
    requires host == "github.com" || host == "gitlab.com"
    requires path != ""
    ensures ParseUrlRemote(host + "/" + path, None) == Success((host, path))
  {
    SplitOnceAt(host, '/', path);
    assert host + "/" + path == host + ['/'] + path;
    assert '@' !in host && ':' !in host;
    assert |Lower("ssh.github.com")| != |Lower(host)|;
  }

  lemma TransportOfPrinted(host: string, path: string)
    requires host == "github.com" || host == "gitlab.com"
    requires path != ""
    ensures Transport("https://" + host + "/" + path) == Success((host, path))
  {
    hide ParseUrlRemote, ParseScpRemote;
    var remote := "https://" + host + "/" + path;
    assert remote[|"https://"|..] == host + "/" + path;
    UrlOfPrinted(host, path);
  }

  lemma HostIsKnown(provider: Provider)
    ensures HostOf(provider) == "github.com" || HostOf(provider) == "gitlab.com"
  {
  }

  lemma ProviderOfHost(provider: Provider)
    ensures ProviderOf(HostOf(provider)) == Some(provider)
  {
    assert Lower(HostOf(provider)) == HostOf(provider);
    assert |Lower("ssh.github.com")| != |HostOf(provider)|;
  }

  lemma PrintedHasNoQuery(provider: Provider, path: string)
    requires '?' !in path && '#' !in path
    ensures '?' !in PrintPath(provider, path) && '#' !in PrintPath(provider, path)
  {
    var head := "https://" + HostOf(provider) + "/";
    assert '?' !in head && '#' !in head;
    assert PrintPath(provider, path) == head + path + ".git";
  }

  lemma StripOfPrinted(path: string)
    ensures Stripped(path + ".git") == path
  {
    var printed := path + ".git";
    assert printed[|printed| - 1] == 't';
    assert printed[..|path|] == path;
  }

  lemma RegroupPrinted(provider: Provider, path: string)
    ensures PrintPath(provider, path) == "https://" + HostOf(provider) + "/" + (path + ".git")
  {
  }

  /** Parsing a printed path decides it by its segments alone. */
  lemma ParseOfPrinted(provider: Provider, path: string)
    requires '?' !in path && '#' !in path
    ensures Parse(PrintPath(provider, path)) == FromSegments(provider, Split(path))
  {
    hide Transport, FromSegments, StripSuffix, TrimEnd, ProviderOf, HostOf, Stripped, PrintPath;
    PrintedHasNoQuery(provider, path);
    RegroupPrinted(provider, path);
    HostIsKnown(provider);
    TransportOfPrinted(HostOf(provider), path + ".git");
    ProviderOfHost(provider);
    StripOfPrinted(path);
  }

  /** Printing any parsed remote and parsing it again gives the same value. */
  lemma PrintParseRoundTrip(remote: string)
    ensures Parse(remote).Success? ==> Parse(Print(Parse(remote).value)) == Parse(remote)
  {
    hide Parse, Print;
    if Parse(remote).Success? {
      ParsedIsAccepted(remote);
      ParseOfAccepted(Parse(remote).value);
    }
  }

  lemma ParseOfAccepted(r: Ref)
    requires Accepted(r)
    ensures Parse(Print(r)) == Success(r)
  {
    ParseOfPrinted(r.provider, Path(r));
    SplitOfPath(r.namespace, r.name);
    SplitOfSegment(r.name);
  }

  /** The values that parsing can produce are exactly the canonical ones. */
  lemma CanonicalExactlyWhenParsed(r: Ref)
    ensures Canonical(r) <==> exists remote :: Parse(remote) == Success(r)
  {
    hide Parse, Print, Accepted, Canonical;
    CanonicalIsAccepted(r);
    if Canonical(r) {
      ParseOfAccepted(r);
    }
    forall remote | Parse(remote) == Success(r)
      ensures Canonical(r)
    {
      ParsedIsAccepted(remote);
    }
  }

  // ----- Identities -----

  function Identity(r: Ref): string {
    match r.provider
    case GitHub => Lower(Path(r))
    case GitLab => Lower(r.host + "/" + Path(r))
  }

  /** The path in lower case, on GitLab behind the host. */
  lemma IdentityMeans(r: Ref)
    requires Canonical(r)
    ensures Identity(r) ==
            if r.provider == GitHub then Lower(r.namespace + "/" + r.name)
            else "gitlab.com/" + Lower(r.namespace + "/" + r.name)
  {
    if r.provider == GitLab {
      LowerConcat("gitlab.com/", Path(r));
      assert r.host + "/" + Path(r) == "gitlab.com/" + Path(r);
      assert Lower("gitlab.com/") == "gitlab.com/";
    }
  }

  function Lowered(r: Ref): Ref {
    r.(namespace := Lower(r.namespace), name := Lower(r.name))
  }

  /** The remote that an identity stands for; a GitLab identity names its host. */
  function RemoteOfIdentity(provider: Provider, identity: string): Option<string> {
    match provider
    case GitHub => Some(PrintPath(GitHub, identity))
    case GitLab =>
      var project := StripPrefix(identity, "gitlab.com/");
      if project.None? then None else Some(PrintPath(GitLab, project.value))
  }

  lemma IdentityPrintsLowered(r: Ref)
    requires Canonical(r)
    ensures RemoteOfIdentity(r.provider, Identity(r)) == Some(Print(Lowered(r)))
  {
    LowerConcat(r.namespace + "/", r.name);
    LowerConcat(r.namespace, "/");
    assert Lower("/") == "/";
    if r.provider == GitLab {
      LowerConcat(r.host + "/", Path(r));
      assert r.host == "gitlab.com";
      assert Lower("gitlab.com/") == "gitlab.com/";
      assert r.host + "/" == "gitlab.com/";
      assert r.host + "/" + Path(r) == "gitlab.com/" + Path(r);
      assert ("gitlab.com/" + Lower(Path(r)))[|"gitlab.com/"|..] == Lower(Path(r));
    }
  }

  predicate AnyGitSuffix(segments: seq<string>) {
    exists segment <- segments :: EndsWith(Lower(segment), ".git")
  }

  /** Through the lower-cased identity the round trip holds exactly when no segment ends
      in ".git" ignoring case; otherwise the identity is refused. */
  lemma IdentityRoundTripExactlyWhen(r: Ref)
    requires Canonical(r)
    ensures Parse(Print(Lowered(r))) == if AnyGitSuffix(Segments(r)) then Failure else Success(Lowered(r))
  {
    CanonicalIsAccepted(r);
    var l, segments := Lowered(r), Segments(r);
    LowerKeepsSigns(Path(r), '?');
    LowerKeepsSigns(Path(r), '#');
    LowerKeepsSigns(r.name, '/');
    LowerConcat(r.namespace + "/", r.name);
    LowerConcat(r.namespace, "/");
    assert Lower("/") == "/";
    ParseOfPrinted(l.provider, Path(l));
    SplitOfPath(l.namespace, l.name);
    SplitOfSegment(l.name);
    SplitOfLower(r.namespace);
    assert Split(Path(l)) == LowerAll(segments);
    LoweredSegments(r.provider, r);
  }

  lemma LowerOfSign(segment: string, sign: string)
    requires forall c <- sign :: !('A' <= c <= 'Z') && !('a' <= c <= 'z')
    ensures Lower(segment) == sign <==> segment == sign
  {
    forall i | 0 <= i < |sign|
      ensures LowerChar(sign[i]) == sign[i]
    {
      assert sign[i] in sign;
    }
    assert Lower(sign) == sign;
    if Lower(segment) == sign {
      forall i | 0 <= i < |segment|
        ensures segment[i] == sign[i]
      {
        assert Lower(segment)[i] == LowerChar(segment[i]) && sign[i] in sign;
      }
      assert segment == sign;
    }
  }

  lemma LoweredSegments(provider: Provider, r: Ref)
    requires Accepted(r) && provider == r.provider
    ensures FromSegments(provider, LowerAll(Segments(r)))
            == if AnyGitSuffix(Segments(r)) then Failure else Success(Lowered(r))
  {
    var segments := Segments(r);
    var lower, last := LowerAll(segments), |segments| - 1;
    forall i | 0 <= i < |segments|
      ensures BadSegment(lower[i]) <==> EndsWith(Lower(segments[i]), ".git")
      ensures lower[i] == "-" <==> segments[i] == "-"
    {
      LowerOfSign(segments[i], "");
      LowerOfSign(segments[i], ".");
      LowerOfSign(segments[i], "..");
      LowerOfSign(segments[i], "-");
      assert segments[i] in segments;
    }
    if AnyGitSuffix(segments) {
      var segment :| segment in segments && EndsWith(Lower(segment), ".git");
      var i :| 0 <= i < |segments| && segments[i] == segment;
      assert lower[i] in lower && BadSegment(lower[i]);
    } else {
      assert lower[..last] == LowerAll(Split(r.namespace));
      SplitOfLower(r.namespace);
      JoinOfSplit(Lower(r.namespace));
    }
  }

  /** A repository whose identity does not parse: its name ends in ".GIT". */
  lemma IdentityCanBeRefused() returns (r: Ref)
    ensures Canonical(r) && Parse(Print(Lowered(r))) == Failure
  {
    r := Ref(GitHub, "github.com", "a", "b.GIT");
    SplitOfSegment("a");
    assert Segments(r) == ["a", "b.GIT"];
    assert Lower("b.GIT") == "b.git";
    assert "b.git"[1..] == ".git" && "b.GIT"[1..] != ".git";
    assert Accepted(r);
    CanonicalIsAccepted(r);
    assert r.name in Segments(r) && AnyGitSuffix(Segments(r));
    IdentityRoundTripExactlyWhen(r);
  }
}
