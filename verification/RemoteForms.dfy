/** Every way to write the remote of a repository, and nothing else, is parsed as that
    repository. */
module RemoteForms {
  import opened Outcomes
  import opened Strings
  import opened Remotes

  datatype Form =
    | Https(user: Option<string>, host: string, port: Option<string>)
    | Ssh(host: string, port: Option<string>)
    | Scp(host: string)

  function Authority(user: Option<string>, host: string, port: Option<string>): string {
    (if user.Some? then user.value + "@" else "") + (host + (if port.Some? then ":" + port.value else ""))
  }

  function PrintForm(form: Form, path: string): string {
    match form
    case Https(user, host, port) => "https://" + (Authority(user, host, port) + "/" + path)
    case Ssh(host, port) => "ssh://" + (Authority(Some("git"), host, port) + "/" + path)
    case Scp(host) => "git@" + host + ":" + path
  }

  /** A path may end in ".git", and after that in slashes. */
  function PrintTail(path: string, git: bool, slashes: nat): string {
    path + (if git then ".git" else "") + Slashes(slashes)
  }

  predicate IsPort(port: Option<string>) {
    port.Some? ==> port.value != "" && forall c <- port.value :: '0' <= c <= '9'
  }

  predicate IsHostOf(host: string, provider: Provider) {
    EqIgnoreCase(host, if provider == GitHub then "github.com" else "gitlab.com")
  }

  /** The forms that stand for repositories of `provider`: its host in any case; with https any
      user and any port; with ssh the user `git`, any port, and GitHub's ssh host too, for
      which only port 443 may be named. */
  predicate Stands(form: Form, provider: Provider) {
    match form
    case Https(user, host, port) =>
      && IsHostOf(host, provider) && IsPort(port)
      && (user.Some? ==> '/' !in user.value && '?' !in user.value && '#' !in user.value)
    case Ssh(host, port) =>
      && IsPort(port)
      && (|| IsHostOf(host, provider)
          || (&& provider == GitHub && EqIgnoreCase(host, "ssh.github.com")
              && (port.Some? ==> port.value == "443")))
    case Scp(host) => IsHostOf(host, provider)
  }

  datatype Spelling = Spelling(form: Form, git: bool, slashes: nat)

  predicate Spells(spelling: Spelling, r: Ref, remote: string) {
    && Stands(spelling.form, r.provider)
    && remote == PrintForm(spelling.form, PrintTail(Path(r), spelling.git, spelling.slashes))
  }

  // ----- Hosts -----

  /** What a host name that is some known one in any case looks like. */
  lemma HostChars(host: string, known: string)
    requires EqIgnoreCase(host, known)
    requires known == "github.com" || known == "gitlab.com" || known == "ssh.github.com"
    ensures host != "" && '/' !in host && '@' !in host && ':' !in host && '?' !in host && '#' !in host
  {
    KnownChars(known);
    hide Lower;
    LowerSigns(host);
  }

  lemma KnownChars(known: string)
    requires known == "github.com" || known == "gitlab.com" || known == "ssh.github.com"
    ensures var lower := Lower(known);
            && lower != "" && '/' !in lower && '@' !in lower && ':' !in lower && '?' !in lower && '#' !in lower
  {
    KnownHosts();
  }

  lemma LowerSigns(s: string)
    ensures forall c | c == '/' || c == '@' || c == ':' || c == '?' || c == '#' :: c in Lower(s) <==> c in s
  {
    forall c | c == '/' || c == '@' || c == ':' || c == '?' || c == '#'
      ensures c in Lower(s) <==> c in s
    {
      LowerKeepsSigns(s, c);
    }
  }

  lemma HostsDiffer(host: string)
    ensures EqIgnoreCase(host, "ssh.github.com") ==>
              !EqIgnoreCase(host, "github.com") && !EqIgnoreCase(host, "gitlab.com")
    ensures !(EqIgnoreCase(host, "github.com") && EqIgnoreCase(host, "gitlab.com"))
  {
    assert |Lower("ssh.github.com")| == 14 && |Lower("github.com")| == 10 && |Lower("gitlab.com")| == 10;
    assert Lower("github.com")[3] == 'h' && Lower("gitlab.com")[3] == 'l';
  }

  lemma KnownHosts()
    ensures Lower("github.com") == "github.com" && Lower("gitlab.com") == "gitlab.com"
    ensures Lower("ssh.github.com") == "ssh.github.com"
  {
  }

  lemma ProviderMeans(host: string)
    ensures ProviderOf(host) == Some(GitHub)
            <==> EqIgnoreCase(host, "github.com") || EqIgnoreCase(host, "ssh.github.com")
    ensures ProviderOf(host) == Some(GitLab) <==> EqIgnoreCase(host, "gitlab.com")
  {
    KnownHosts();
    HostsDiffer(host);
  }

  // ----- Spelled remotes parse -----

  lemma PortChars(port: string)
    requires IsPort(Some(port))
    ensures Digits(port) && '/' !in port && '@' !in port && ':' !in port && '?' !in port && '#' !in port
  {
  }

  /** A host, with or without a port, is taken apart again. */
  lemma HostPortSplits(host: string, port: Option<string>, known: string)
    requires EqIgnoreCase(host, known) && IsPort(port)
    requires known == "github.com" || known == "gitlab.com" || known == "ssh.github.com"
    ensures var text := host + (if port.Some? then ":" + port.value else "");
            && text != "" && '/' !in text && '@' !in text && '?' !in text && '#' !in text
            && RSplitOnce(text, ':') == if port.Some? then Some((host, port.value)) else None
  {
    HostChars(host, known);
    if port.Some? {
      PortChars(port.value);
      assert host + (":" + port.value) == host + [':'] + port.value;
      RSplitOnceAt(host, ':', port.value);
    } else {
      assert host + "" == host;
    }
  }

  lemma AuthoritySplits(user: Option<string>, hostAndPort: string)
    requires '@' !in hostAndPort
    ensures RSplitOnce((if user.Some? then user.value + "@" else "") + hostAndPort, '@')
            == if user.Some? then Some((user.value, hostAndPort)) else None
  {
    if user.Some? {
      RSplitOnceAt(user.value, '@', hostAndPort);
    } else {
      assert "" + hostAndPort == hostAndPort;
    }
  }

  /** With a user required, the ssh host will do, on port 443 only. */
  predicate Allowed(known: string, port: Option<string>, userRequired: bool) {
    || known == "github.com" || known == "gitlab.com"
    || (known == "ssh.github.com" && userRequired && (port.Some? ==> port.value == "443"))
  }

  lemma HostParses(host: string, port: Option<string>, known: string, userRequired: bool)
    requires EqIgnoreCase(host, known) && IsPort(port) && Allowed(known, port, userRequired)
    ensures ParseHost(host + (if port.Some? then ":" + port.value else ""), userRequired) == Success(host)
  {
    HostPortSplits(host, port, known);
    HostChars(host, known);
    if known != "ssh.github.com" {
      OtherHost(host, known);
    }
    if port.Some? {
      PortChars(port.value);
    }
    assert host + "" == host;
    hide EqIgnoreCase, IsPort, Digits, RSplitOnce;
  }

  lemma UrlParses(
    user: Option<string>, host: string, port: Option<string>, known: string, path: string, required: Option<string>)
    requires EqIgnoreCase(host, known) && IsPort(port) && path != "" && Allowed(known, port, required.Some?)
    requires user.Some? ==> '/' !in user.value
    requires required.Some? ==> user == required
    ensures ParseUrlRemote(Authority(user, host, port) + "/" + path, required) == Success((host, path))
  {
    hide EqIgnoreCase, IsPort, ParseHost;
    var text := host + (if port.Some? then ":" + port.value else "");
    var authority := Authority(user, host, port);
    HostPortSplits(host, port, known);
    AuthoritySplits(user, text);
    HostParses(host, port, known, required.Some?);
    assert "" + text == text;
    assert '/' !in authority && authority != "";
    SplitOnceAt(authority, '/', path);
    assert authority + "/" + path == authority + ['/'] + path;
  }

  lemma OtherHost(host: string, known: string)
    requires EqIgnoreCase(host, known) && (known == "github.com" || known == "gitlab.com")
    ensures !EqIgnoreCase(host, "ssh.github.com")
  {
    HostsDiffer(host);
  }

  lemma TransportOfUrls(form: Form, path: string)
    requires !form.Scp?
    ensures Transport(PrintForm(form, path)) ==
            if form.Https? then ParseUrlRemote(Authority(form.user, form.host, form.port) + "/" + path, None)
            else ParseUrlRemote(Authority(Some("git"), form.host, form.port) + "/" + path, Some("git"))
  {
    hide ParseUrlRemote, ParseScpRemote, Authority;
    match form
    case Https(user, host, port) => StripOfPrefixed("https://", Authority(user, host, port) + "/" + path);
    case Ssh(host, port) =>
      var remote := PrintForm(form, path);
      StripOfPrefixed("ssh://", Authority(Some("git"), host, port) + "/" + path);
      assert remote[0] == 's' && "https://"[0] == 'h';
  }

  lemma TransportOfScp(host: string, path: string)
    requires ':' !in host && '@' !in host && host != "" && path != "" && !EqIgnoreCase(host, "ssh.github.com")
    ensures Transport(PrintForm(Scp(host), path)) == Success((host, path))
  {
    hide ParseUrlRemote, EqIgnoreCase;
    var remote, authority := PrintForm(Scp(host), path), "git@" + host;
    assert remote[0] == 'g' && "https://"[0] == 'h' && "ssh://"[0] == 's';
    assert remote == authority + [':'] + path;
    SplitOnceAt(authority, ':', path);
    assert authority == "git" + ['@'] + host;
    SplitOnceAt("git", '@', host);
  }

  lemma TransportOfForm(form: Form, provider: Provider, path: string)
    requires Stands(form, provider) && path != ""
    ensures Transport(PrintForm(form, path)) == Success((form.host, path))
  {
    hide EqIgnoreCase, IsPort, ParseUrlRemote, Transport, PrintForm, Authority;
    var known := if provider == GitHub then "github.com" else "gitlab.com";
    match form
    case Https(user, host, port) =>
      TransportOfUrls(form, path);
      UrlParses(user, host, port, known, path, None);
    case Ssh(host, port) =>
      TransportOfUrls(form, path);
      var name := if IsHostOf(host, provider) then known else "ssh.github.com";
      UrlParses(Some("git"), host, port, name, path, Some("git"));
    case Scp(host) =>
      HostChars(host, known);
      OtherHost(host, known);
      TransportOfScp(host, path);
  }

  lemma FormChars(form: Form, provider: Provider, path: string)
    requires Stands(form, provider) && '?' !in path && '#' !in path
    ensures '?' !in PrintForm(form, path) && '#' !in PrintForm(form, path) && PrintForm(form, path) != ""
  {
    var known := if IsHostOf(form.host, provider) then (if provider == GitHub then "github.com" else "gitlab.com")
                 else "ssh.github.com";
    hide EqIgnoreCase, IsPort, Authority;
    HostChars(form.host, known);
    if !form.Scp? {
      HostPortSplits(form.host, form.port, known);
      AuthorityChars(if form.Https? then form.user else Some("git"), form.host, form.port);
    }
  }

  lemma AuthorityChars(user: Option<string>, host: string, port: Option<string>)
    requires user.Some? ==> '?' !in user.value && '#' !in user.value
    requires var text := host + (if port.Some? then ":" + port.value else ""); '?' !in text && '#' !in text
    ensures '?' !in Authority(user, host, port) && '#' !in Authority(user, host, port)
  {
  }

  lemma TailStrips(path: string, git: bool, slashes: nat)
    requires path != "" && path[|path| - 1] != '/' && !EndsWith(path, ".git")
    ensures Stripped(PrintTail(path, git, slashes)) == path && PrintTail(path, git, slashes) != ""
  {
    var text := path + (if git then ".git" else "");
    assert git ==> text[|text| - 1] == 't' && text[..|path|] == path;
    assert !git ==> text == path;
    TrimOfSlashes(text, slashes);
  }

  lemma PathEnds(r: Ref)
    requires Accepted(r)
    ensures Path(r) != "" && Path(r)[|Path(r)| - 1] != '/' && !EndsWith(Path(r), ".git")
    ensures Split(Path(r)) == Segments(r)
  {
    SplitOfPath(r.namespace, r.name);
    SplitOfSegment(r.name);
    assert r.name in Segments(r) && !BadSegment(r.name);
    EndOfPath(r.namespace + "/", r.name);
    assert r.name[|r.name| - 1] in r.name;
  }

  /** A text ends in ".git" only if what follows its last slash does. */
  lemma EndOfPath(before: string, name: string)
    requires before != "" && before[|before| - 1] == '/'
    ensures EndsWith(before + name, ".git") ==> EndsWith(name, ".git")
    ensures name != "" ==> (before + name)[|before + name| - 1] == name[|name| - 1]
  {
    var path, n := before + name, |name|;
    if 4 <= n {
      assert path[|path| - 4..] == name[n - 4..];
    } else if 4 <= |path| {
      assert path[|path| - 4..][3 - n] == '/';
    }
  }

  lemma TailChars(path: string, git: bool, slashes: nat)
    requires '?' !in path && '#' !in path
    ensures '?' !in PrintTail(path, git, slashes) && '#' !in PrintTail(path, git, slashes)
  {
    SlashesAreSlashes(slashes);
  }

  lemma SpelledParses(spelling: Spelling, r: Ref, remote: string)
    requires Canonical(r) && Spells(spelling, r, remote)
    ensures Parse(remote) == Success(r)
  {
    hide Stands, PrintForm, PrintTail, Transport, Stripped, FromSegments, Path, ProviderOf, EqIgnoreCase;
    CanonicalIsAccepted(r);
    var path := Path(r);
    var tail := PrintTail(path, spelling.git, spelling.slashes);
    PathEnds(r);
    TailStrips(path, spelling.git, spelling.slashes);
    TailChars(path, spelling.git, spelling.slashes);
    FormChars(spelling.form, r.provider, tail);
    TransportOfForm(spelling.form, r.provider, tail);
    FormHost(spelling.form, r.provider);
  }

  lemma FormHost(form: Form, provider: Provider)
    requires Stands(form, provider)
    ensures ProviderOf(form.host) == Some(provider)
  {
    hide EqIgnoreCase, ProviderOf;
    ProviderMeans(form.host);
  }

  // ----- Whatever parses is spelled like that -----

  /** The parts of a URL that parses. */
  lemma UrlIsSpelled(remote: string, required: Option<string>)
    returns (user: Option<string>, host: string, port: Option<string>, path: string)
    requires ParseUrlRemote(remote, required).Success?
    ensures ParseUrlRemote(remote, required) == Success((host, path))
    ensures remote == Authority(user, host, port) + "/" + path
    ensures IsPort(port) && path != "" && (user.Some? ==> '/' !in user.value)
    ensures required.Some? ==> user == required
    ensures EqIgnoreCase(host, "ssh.github.com") ==> required.Some? && (port.Some? ==> port.value == "443")
  {
    hide EqIgnoreCase;
    var authority;
    authority, path := SplitOnce(remote, '/').value.0, SplitOnce(remote, '/').value.1;
    var at := RSplitOnce(authority, '@');
    user := if at.Some? then Some(at.value.0) else None;
    var hostAndPort := if at.Some? then at.value.1 else authority;
    host, port := HostIsSpelled(hostAndPort, required.Some?);
    AuthorityIsPrinted(authority, user, host, port, hostAndPort);
    assert at.Some? ==> forall c <- at.value.0 :: c in authority;
  }

  lemma AuthorityIsPrinted(
    authority: string, user: Option<string>, host: string, port: Option<string>, hostAndPort: string)
    requires hostAndPort == host + (if port.Some? then ":" + port.value else "")
    requires authority == if user.Some? then user.value + ['@'] + hostAndPort else hostAndPort
    ensures authority == Authority(user, host, port)
  {
    assert "" + hostAndPort == hostAndPort;
  }

  lemma HostIsSpelled(hostAndPort: string, userRequired: bool) returns (host: string, port: Option<string>)
    requires ParseHost(hostAndPort, userRequired).Success?
    ensures ParseHost(hostAndPort, userRequired) == Success(host) && IsPort(port)
    ensures hostAndPort == host + (if port.Some? then ":" + port.value else "")
    ensures EqIgnoreCase(host, "ssh.github.com") ==> userRequired && (port.Some? ==> port.value == "443")
  {
    hide EqIgnoreCase;
    var colon := RSplitOnce(hostAndPort, ':');
    host := if colon.Some? then colon.value.0 else hostAndPort;
    port := if colon.Some? then Some(colon.value.1) else None;
    if colon.Some? {
      assert hostAndPort == host + (":" + colon.value.1);
    } else {
      assert host + "" == host;
    }
  }

  lemma TransportIsSpelled(remote: string) returns (form: Form, path: string)
    requires Transport(remote).Success?
    ensures remote == PrintForm(form, path) && path != "" && Transport(remote) == Success((form.host, path))
    ensures forall provider |
              IsHostOf(form.host, provider)
              || (provider == GitHub && EqIgnoreCase(form.host, "ssh.github.com")) ::
              (form.Https? && form.user.Some? ==> '?' !in form.user.value && '#' !in form.user.value) ==>
                Stands(form, provider)
  {
    hide EqIgnoreCase, ParseUrlRemote, ParseScpRemote, Authority, IsPort;
    HostNames();
    if "https://" <= remote {
      var user, host, port, rest := UrlIsSpelled(remote[|"https://"|..], None);
      form, path := Https(user, host, port), rest;
      assert remote == "https://" + remote[|"https://"|..];
    } else if "ssh://" <= remote {
      var user, host, port, rest := UrlIsSpelled(remote[|"ssh://"|..], Some("git"));
      form, path := Ssh(host, port), rest;
      assert remote == "ssh://" + remote[|"ssh://"|..];
    } else {
      var host, rest := ScpIsSpelled(remote);
      form, path := Scp(host), rest;
    }
  }

  lemma HostNames()
    ensures forall host, provider :: IsHostOf(host, provider) ==> !EqIgnoreCase(host, "ssh.github.com")
  {
    forall host, provider
      ensures IsHostOf(host, provider) ==> !EqIgnoreCase(host, "ssh.github.com")
    {
      HostsDiffer(host);
    }
  }

  lemma ScpIsSpelled(remote: string) returns (host: string, path: string)
    requires ParseScpRemote(remote).Success?
    ensures ParseScpRemote(remote) == Success((host, path)) && path != ""
    ensures remote == PrintForm(Scp(host), path) && !EqIgnoreCase(host, "ssh.github.com")
  {
    hide EqIgnoreCase;
    var split := SplitOnce(remote, ':').value;
    var at := SplitOnce(split.0, '@').value;
    host, path := at.1, split.1;
    assert split.0 == "git@" + host;
  }

  lemma TailIsSpelled(path: string) returns (git: bool, slashes: nat)
    ensures path == PrintTail(Stripped(path), git, slashes)
  {
    slashes := TrimmedSlashes(path);
    var trimmed := TrimEnd(path, '/');
    git := EndsWith(trimmed, ".git");
    if git {
      assert trimmed == trimmed[..|trimmed| - 4] + ".git";
    } else {
      assert trimmed + "" == trimmed;
    }
  }

  lemma UserIsInside(form: Form, path: string, c: char)
    requires form.Https? && form.user.Some? && c in form.user.value
    ensures c in PrintForm(form, path)
  {
    var i :| 0 <= i < |form.user.value| && form.user.value[i] == c;
    assert PrintForm(form, path)[8 + i] == c;
  }

  lemma ParsedIsSpelled(remote: string, r: Ref) returns (spelling: Spelling)
    requires Parse(remote) == Success(r)
    ensures Canonical(r) && Spells(spelling, r, remote)
  {
    hide Transport, FromSegments, Stripped, PrintForm, PrintTail, Stands, ProviderOf, EqIgnoreCase, Canonical, Path;
    ParsedIsCanonical(remote);
    var form, path := TransportIsSpelled(remote);
    ProviderMeans(form.host);
    SegmentsOfParsed(ProviderOf(form.host).value, Stripped(path));
    var git, slashes := TailIsSpelled(path);
    if form.Https? && form.user.Some? {
      if '?' in form.user.value {
        UserIsInside(form, path, '?');
      }
      if '#' in form.user.value {
        UserIsInside(form, path, '#');
      }
    }
    spelling := Spelling(form, git, slashes);
  }

  /** A remote parses as `r` if and only if `r` is canonical and the remote is one of its
      spellings: https with any user and port, ssh with the user `git`, or scp; the host of
      the provider in any case, or GitHub's ssh host; the path with or without ".git", and
      with any number of slashes after it. */
  lemma ParsedExactlyWhenSpelled(remote: string, r: Ref)
    ensures Parse(remote) == Success(r) <==> Canonical(r) && exists spelling :: Spells(spelling, r, remote)
  {
    hide Parse, Canonical, Spells;
    if Parse(remote) == Success(r) {
      var spelling := ParsedIsSpelled(remote, r);
    }
    if Canonical(r) && exists spelling :: Spells(spelling, r, remote) {
      var spelling :| Spells(spelling, r, remote);
      SpelledParses(spelling, r, remote);
    }
  }

  lemma HostOfItself(r: Ref)
    requires Canonical(r)
    ensures IsHostOf(r.host, r.provider)
  {
  }

  /** The forms that the parser's error text recommends, for every repository of either
      provider. */
  lemma RecommendedForms(r: Ref)
    requires Canonical(r)
    ensures Parse("git@" + r.host + ":" + Path(r) + ".git") == Success(r)
    ensures Parse("https://" + r.host + "/" + Path(r) + ".git") == Success(r)
    ensures Parse("ssh://git@" + r.host + "/" + Path(r) + ".git") == Success(r)
  {
    HostOfItself(r);
    Recommended(r, Scp(r.host));
    Recommended(r, Https(None, r.host, None));
    Recommended(r, Ssh(r.host, None));
    hide Canonical, Parse, IsHostOf, Path;
    assert PrintForm(Scp(r.host), Path(r) + ".git") == "git@" + r.host + ":" + Path(r) + ".git";
    UrlFormPrints(r.host, Path(r) + ".git");
    Regroup("https://" + r.host + "/", Path(r), ".git");
    Regroup("ssh://git@" + r.host + "/", Path(r), ".git");
  }

  lemma UrlFormPrints(host: string, path: string)
    ensures PrintForm(Https(None, host, None), path) == "https://" + host + "/" + path
    ensures PrintForm(Ssh(host, None), path) == "ssh://git@" + host + "/" + path
  {
    AuthorityPrints(host);
    hide Authority;
    Prefixed("https://", host, path);
    Prefixed("ssh://", "git@" + host, path);
    Regroup("ssh://", "git@", host);
  }

  lemma AuthorityPrints(host: string)
    ensures Authority(None, host, None) == host && Authority(Some("git"), host, None) == "git@" + host
  {
    assert host + "" == host && "" + host == host;
  }

  lemma Prefixed(prefix: string, authority: string, path: string)
    ensures prefix + (authority + "/" + path) == (prefix + authority) + "/" + path
  {
  }

  lemma Recommended(r: Ref, form: Form)
    requires Canonical(r) && Stands(form, r.provider)
    ensures Parse(PrintForm(form, Path(r) + ".git")) == Success(r)
  {
    hide Canonical, Parse, Stands, Path, PrintForm;
    assert PrintTail(Path(r), true, 0) == Path(r) + ".git";
    SpelledParses(Spelling(form, true, 0), r, PrintForm(form, Path(r) + ".git"));
  }
}
