// The texts that name an OCI image: how a reference may be written and what it means,
// given without the parser's way of cutting it up, and that the parser reads exactly these.
module ImageText {
  import opened Common
  import opened Strings
  import opened RepositoryGrammar
  import opened ImageReferences
  import Decimal

  // ---- the grammar of a registry: labels with dots between them, and a port or none ----

  ghost predicate Label(s: string) {
    && s != "" && s[0] != '-' && s[|s| - 1] != '-'
    && forall i :: 0 <= i < |s| ==> s[i] == '-' || IsAlnum(s[i])
  }

  ghost predicate HostName(s: string)
    decreases |s|
  {
    Label(s) || exists i :: 0 <= i < |s| && s[i] == '.' && Label(s[..i]) && HostName(s[i + 1..])
  }

  ghost predicate PortDigits(s: string) {
    s != "" && Decimal.AllDigits(s) && 1 <= Decimal.Value(s) <= 65535
  }

  ghost predicate Port(s: string) {
    PortDigits(s) || (s != "" && s[0] == '+' && PortDigits(s[1..]))
  }

  ghost predicate Registry(s: string) {
    HostName(s) || exists i :: 0 <= i < |s| && s[i] == ':' && HostName(s[..i]) && Port(s[i + 1..])
  }

  // What tells a registry from the first part of a path.
  ghost predicate HostLike(s: string) {
    s == "localhost" || exists i :: 0 <= i < |s| && (s[i] == '.' || s[i] == ':')
  }

  ghost predicate Tag(s: string) {
    && 1 <= |s| <= 128 && s[0] != '.' && s[0] != '-'
    && forall i :: 0 <= i < |s| ==> IsAlnum(s[i]) || s[i] in {'.', '-', '_'}
  }

  ghost predicate Digest(s: string) {
    && |s| == 71 && s[..7] == "sha256:"
    && forall i :: 7 <= i < 71 ==> '0' <= s[i] <= '9' || 'a' <= s[i] <= 'f' || 'A' <= s[i] <= 'F'
  }

  // ---- a reference as it is written ----

  datatype Ending = Bare | Tagged(tag: string) | Digested(digest: string)

  datatype Written = Written(scheme: bool, host: Option<string>, path: string, ending: Ending)

  function Name(w: Written): string {
    match w.host
    case Some(host) => host + "/" + w.path
    case None => w.path
  }

  function EndingText(ending: Ending): string {
    match ending
    case Bare => ""
    case Tagged(tag) => ":" + tag
    case Digested(digest) => "@" + digest
  }

  function Text(w: Written): string {
    (if w.scheme then "docker://" else "") + (Name(w) + EndingText(w.ending))
  }

  ghost predicate ProperHost(w: Written) {
    match w.host
    case Some(host) => HostLike(host) && Registry(host)
    case None => forall i :: 0 <= i < |w.path| && w.path[i] == '/' && '/' !in w.path[..i] ==> !HostLike(w.path[..i])
  }

  ghost predicate ProperEnding(ending: Ending) {
    match ending
    case Bare => true
    case Tagged(tag) => Tag(tag)
    case Digested(digest) => Digest(digest)
  }

  ghost predicate Proper(w: Written) {
    ProperHost(w) && OciName(Lower(w.path)) && ProperEnding(w.ending)
  }

  // The registry is the Docker hub unless one is written, and a path of one part on the
  // hub lies under "library"; without a tag or digest the tag is "latest".
  ghost function Meaning(w: Written): ImageReference {
    var registry := if w.host.Some? then Lower(w.host.value) else "docker.io";
    ImageReference(
      registry,
      (if registry == "docker.io" && '/' !in w.path then "library/" else "") + Lower(w.path),
      match w.ending case Bare => Some("latest") case Tagged(tag) => Some(tag) case Digested(_) => None,
      match w.ending case Digested(digest) => Some(digest) case _ => None)
  }

  // ---- the registry checks accept exactly the grammar ----

  lemma {:induction false} HostMatchesGrammar(s: string)
    ensures ValidHost(s) <==> HostName(s)
    decreases |s|
  {
    match First(s, '.')
    case None =>
      assert Split(s, '.') == [s] && s in Split(s, '.');
      assert ValidHostComponent(s) <==> Label(s);
      assert forall i :: 0 <= i < |s| ==> s[i] != '.';
    case Some(k) =>
      HostMatchesGrammar(s[k + 1..]);
      ValidHostSplit(s, k);
      HostNameSplit(s, k);
  }

  lemma ValidHostSplit(s: string, k: nat)
    requires First(s, '.') == Some(k)
    ensures ValidHost(s) <==> Label(s[..k]) && ValidHost(s[k + 1..])
  {
    var rest := Split(s[k + 1..], '.');
    assert Split(s, '.') == [s[..k]] + rest;
    assert ValidHostComponent(s[..k]) <==> Label(s[..k]);
    if s[k + 1..] == "" {
      assert rest[0] == "" && "" in Split(s, '.');
    }
    assert forall p :: p in Split(s, '.') <==> p == s[..k] || p in rest;
  }

  lemma HostNameSplit(s: string, k: nat)
    requires First(s, '.') == Some(k)
    ensures HostName(s) <==> Label(s[..k]) && HostName(s[k + 1..])
  {
    forall i | 0 <= i < |s| && s[i] == '.' && Label(s[..i]) ensures i == k {
      assert forall m :: 0 <= m < i ==> s[m] == s[..i][m];
      assert forall m :: 0 <= m < k ==> s[m] == s[..k][m];
    }
  }

  lemma {:induction false} RegistryMatchesGrammar(s: string)
    ensures ValidRegistry(s) <==> Registry(s)
  {
    hide HostName, ValidHost;
    HostMatchesGrammar(s);
    if ValidHost(s) {
      HostCharacters(s);
    }
    forall i | 0 <= i < |s| && s[i] == ':' && Port(s[i + 1..]) ensures Last(s, ':') == Some(i) {
      PortHasNoColon(s[i + 1..]);
      assert forall j :: i < j < |s| ==> s[j] == s[i + 1..][j - i - 1];
      LastIs(s, ':', i);
    }
    match Last(s, ':')
    case None =>
    case Some(i) =>
      HostMatchesGrammar(s[..i]);
      assert ValidPort(s[i + 1..]) <==> Port(s[i + 1..]) by { PortMatches(s[i + 1..]); }
  }

  lemma PortMatches(s: string)
    ensures ValidPort(s) <==> Port(s)
  {
    if s != "" && s[0] == '+' {
      assert !PortDigits(s);
    }
  }

  lemma PortHasNoColon(s: string)
    requires Port(s)
    ensures ':' !in s
  {
    if !PortDigits(s) {
      assert s == ['+'] + s[1..];
    }
  }

  lemma HostLikeMatches(s: string)
    ensures HostLike(s) <==> IsRegistryHost(s)
  {}

  lemma DigestMatches(s: string)
    ensures Digest(s) <==> ValidDigest(s)
  {
    if ValidDigest(s) {
      assert s[..7] == SHA256;
    }
  }

  lemma TagMatches(s: string)
    ensures Tag(s) <==> ValidTag(s)
  {
    if Tag(s) {
      assert forall i :: 0 <= i < |s| ==> IsTagChar(s[i]);
    }
  }

  lemma LibraryName(s: string)
    ensures OciName("library/" + s) <==> OciName(s)
  {
    var t := "library/" + s;
    FirstIs(t, '/', 7) by { assert t[..7] == "library"; }
    OciNameSplit(t, 7);
    assert t[..7] == "library" && t[8..] == s;
    assert AlnumRun("library");
  }

  // ---- every written reference is read as what it means ----

  ghost predicate White(s: string) {
    forall i :: 0 <= i < |s| ==> IsWhitespace(s[i])
  }

  // The input is this reference with white space around it.
  ghost predicate Writes(input: string, before: string, w: Written, after: string) {
    input == before + (Text(w) + after) && White(before) && White(after) && Proper(w)
  }

  lemma {:induction false} TrimStartSkips(before: string, s: string)
    requires White(before) && s != "" && !IsWhitespace(s[0])
    ensures TrimStart(before + s) == s
  {
    if before == "" {
      assert before + s == s;
    } else {
      assert (before + s)[1..] == before[1..] + s;
      TrimStartSkips(before[1..], s);
    }
  }

  lemma {:induction false} TrimEndSkips(s: string, after: string)
    requires White(after) && s != "" && !IsWhitespace(s[|s| - 1])
    ensures TrimEnd(s + after) == s
  {
    if after == "" {
      assert s + after == s;
    } else {
      assert (s + after)[..|s + after| - 1] == s + after[..|after| - 1];
      TrimEndSkips(s, after[..|after| - 1]);
    }
  }

  lemma {:induction false} TrimStartCuts(s: string) returns (before: string)
    ensures White(before) && s == before + TrimStart(s)
  {
    if s != "" && IsWhitespace(s[0]) {
      before := TrimStartCuts(s[1..]);
      before := [s[0]] + before;
    } else {
      before := "";
    }
  }

  lemma {:induction false} TrimEndCuts(s: string) returns (after: string)
    ensures White(after) && s == TrimEnd(s) + after
  {
    if s != "" && IsWhitespace(s[|s| - 1]) {
      after := TrimEndCuts(s[..|s| - 1]);
      after := after + [s[|s| - 1]];
    } else {
      after := "";
    }
  }

  predicate NameChar(c: char) {
    IsAlnum(c) || c in {'-', '.', ':', '+', '_', '/'}
  }

  // What the characters of a name rule out, and where its last colon stands.
  lemma NameCharacters(w: Written)
    requires ProperHost(w) && OciName(Lower(w.path))
    ensures Name(w) != "" && forall i :: 0 <= i < |Name(w)| ==> NameChar(Name(w)[i])
    ensures ':' !in w.path && (w.host.Some? ==> '/' !in w.host.value)
    ensures IsAlnum(Name(w)[0]) && IsAlnum(Name(w)[|Name(w)| - 1])
  {
    PathCharacters(w.path);
    match w.host
    case None =>
      hide OciName, ProperHost;
      assert Name(w) == w.path;
    case Some(host) =>
      HostCharactersOf(w);
      hide OciName, ProperHost;
      assert Name(w) == host + ['/'] + w.path;
      Around(host, w.path);
  }

  lemma HostCharactersOf(w: Written)
    requires ProperHost(w) && w.host.Some?
    ensures w.host.value != "" && IsAlnum(w.host.value[0])
    ensures forall i :: 0 <= i < |w.host.value| ==> IsRegistryChar(w.host.value[i])
  {
    RegistryMatchesGrammar(w.host.value);
    RegistryCharacters(w.host.value);
    hide ValidRegistry;
  }

  lemma Around(host: string, path: string)
    requires host != "" && path != "" && IsAlnum(host[0]) && IsAlnum(path[|path| - 1])
    requires forall i :: 0 <= i < |host| ==> IsRegistryChar(host[i])
    requires forall i :: 0 <= i < |path| ==> IsRepositoryChar(path[i])
    ensures var s := host + ['/'] + path;
            && (forall i :: 0 <= i < |s| ==> NameChar(s[i]))
            && IsAlnum(s[0]) && IsAlnum(s[|s| - 1])
  {}

  lemma PathCharacters(path: string)
    requires OciName(Lower(path))
    ensures path != "" && IsAlnum(path[0]) && IsAlnum(path[|path| - 1])
    ensures forall i :: 0 <= i < |path| ==> IsRepositoryChar(path[i])
  {
    RepositoryMatchesGrammar(path);
    RepositoryCharacters(path);
    NameEnds(Lower(path));
  }

  lemma {:induction false} ComponentEnds(s: string)
    requires OciComponent(s)
    ensures s != "" && IsLowerAlnum(s[0]) && IsLowerAlnum(s[|s| - 1])
    decreases |s|
  {
    if !AlnumRun(s) {
      var i, j :| 0 < i < j < |s| && OciComponent(s[..i]) && Separator(s[i..j]) && AlnumRun(s[j..]);
      ComponentEnds(s[..i]);
      assert s[j..][|s| - j - 1] == s[|s| - 1];
    }
  }

  lemma {:induction false} NameEnds(s: string)
    requires OciName(s)
    ensures s != "" && IsLowerAlnum(s[0]) && IsLowerAlnum(s[|s| - 1])
    decreases |s|
  {
    hide OciComponent;
    if OciComponent(s) {
      ComponentEnds(s);
    } else {
      var i :| 0 <= i < |s| && s[i] == '/' && OciComponent(s[..i]) && OciName(s[i + 1..]);
      ComponentEnds(s[..i]);
      NameEnds(s[i + 1..]);
    }
  }

  // No tag begins inside a name: its last colon stands before its last slash.
  predicate NoTagIn(name: string) {
    match Last(name, ':')
    case None => true
    case Some(colon) => Last(name, '/').Some? && colon < Last(name, '/').value
  }

  lemma NameHasNoTag(w: Written)
    requires ProperHost(w) && OciName(Lower(w.path))
    ensures NoTagIn(Name(w))
  {
    hide Last;
    NameCharacters(w);
    hide OciName, ProperHost;
    match w.host
    case None =>
    case Some(host) =>
      assert Name(w) == host + "/" + w.path;
      LastInFront(host, '/', w.path, ':');
      assert Name(w)[|host|] == '/';
      LastAtLeast(Name(w), '/', |host|);
  }

  lemma EndingIsRead(name: string, ending: Ending)
    requires name != "" && '@' !in name && NoTagIn(name) && ProperEnding(ending)
    ensures SplitSuffix(name + EndingText(ending)) == Success(Suffixed(name,
              match ending case Bare => Some("latest") case Tagged(tag) => Some(tag) case Digested(_) => None,
              match ending case Digested(digest) => Some(digest) case _ => None))
  {
    match ending
    case Bare => assert name + "" == name;
    case Tagged(tag) => TagIsRead(name, tag);
    case Digested(digest) => DigestIsRead(name, digest);
  }

  lemma TagIsRead(name: string, tag: string)
    requires name != "" && '@' !in name && Tag(tag)
    ensures SplitSuffix(name + (":" + tag)) == Success(Suffixed(name, Some(tag), None))
  {
    hide Last, First, ValidTag, Tag, SplitSuffix;
    TagMatches(tag);
    TagCharacters(tag);
    var value, n := name + (":" + tag), |name|;
    TaggedSlices(name, tag);
    LastIs(value, ':', n);
    LastInFront(name, ':', tag, '/');
    TagIsCut(value, n);
  }

  lemma TaggedSlices(name: string, tag: string)
    requires '@' !in name && '@' !in tag && ':' !in tag
    ensures var value, n := name + (":" + tag), |name|;
            && value[..n] == name && value[n + 1..] == tag && value[n] == ':' && value == name + [':'] + tag
            && '@' !in value && forall j :: n < j < |value| ==> value[j] != ':'
  {
    var value, n := name + (":" + tag), |name|;
    assert forall j :: n < j < |value| ==> value[j] == tag[j - n - 1];
  }

  lemma TagIsCut(value: string, n: nat)
    requires '@' !in value && 0 < n < |value| && Last(value, ':') == Some(n)
    requires Last(value, '/').None? || Last(value, '/').value < n
    requires ValidTag(value[n + 1..])
    ensures SplitSuffix(value) == Success(Suffixed(value[..n], Some(value[n + 1..]), None))
  {
    hide Last, First, ValidTag;
  }

  lemma DigestIsRead(name: string, digest: string)
    requires '@' !in name && NoTagIn(name) && Digest(digest)
    ensures SplitSuffix(name + ("@" + digest)) == Success(Suffixed(name, None, Some(digest)))
  {
    DigestMatches(digest);
    hide Last, First, ValidDigest;
    var value, n := name + ("@" + digest), |name|;
    assert value[..n] == name && value[n + 1..] == digest && value[n] == '@';
    assert '@' !in digest by {
      assert forall i :: 0 <= i < 7 ==> digest[i] == "sha256:"[i];
    }
    FirstIs(value, '@', n);
  }

  // The registry and repository of a name, before lower-casing.
  lemma NameIsCut(w: Written)
    requires ProperHost(w) && OciName(Lower(w.path))
    ensures SplitRegistry(Name(w)) ==
            (if w.host.Some? then w.host.value else "docker.io",
             (if '/' !in w.path && (w.host.None? || Lower(w.host.value) == "docker.io") then "library/" else "") + w.path)
  {
    NameCharacters(w);
    hide OciName, SplitRegistry, ProperHost, Lower;
    assert "" + w.path == w.path;
    match w.host
    case Some(host) =>
      assert HostLike(host) by { HostIsHostLike(w); }
      HostIsCut(host, w.path);
    case None => PathIsCut(w);
  }

  lemma HostIsHostLike(w: Written)
    requires ProperHost(w) && w.host.Some?
    ensures HostLike(w.host.value)
  {}

  lemma HostIsCut(host: string, path: string)
    requires HostLike(host) && '/' !in host
    ensures SplitRegistry(host + "/" + path) ==
            (host, if Lower(host) == "docker.io" && '/' !in path then "library/" + path else path)
  {
    HostLikeMatches(host);
    JoinSplit(path, '/');
    SplitCons(host, path, '/');
    var rest := Split(path, '/');
    hide Split, HostLike, IsRegistryHost, Join, Lower;
    assert host + "/" + path == host + ['/'] + path;
    assert ([host] + rest)[1..] == rest;
  }

  lemma PathIsCut(w: Written)
    requires ProperHost(w) && w.host.None?
    ensures SplitRegistry(w.path) == ("docker.io", if '/' in w.path then w.path else "library/" + w.path)
  {
    match First(w.path, '/')
    case None =>
    case Some(k) =>
      HostLikeMatches(w.path[..k]);
      assert Split(w.path, '/')[0] == w.path[..k];
      hide HostLike, IsRegistryHost;
  }

  lemma PartsAreValid(w: Written)
    requires ProperHost(w) && OciName(Lower(w.path))
    ensures ValidRegistry(SplitRegistry(Name(w)).0)
    ensures ValidRepository(Lower(SplitRegistry(Name(w)).1))
    ensures Lower(SplitRegistry(Name(w)).0) == Meaning(w).registry
    ensures Lower(SplitRegistry(Name(w)).1) == Meaning(w).repository
  {
    NameIsCut(w);
    HubIsRegistry();
    if w.host.Some? {
      RegistryMatchesGrammar(w.host.value);
    }
    var (registry, repository) := SplitRegistry(Name(w));
    hide SplitRegistry, ProperHost;
    LowerLibrary(w.path);
    LibraryName(Lower(w.path));
    LowerTwice(repository);
    assert "" + w.path == w.path && "" + Lower(w.path) == Lower(w.path);
    RepositoryMatchesGrammar(Lower(repository));
  }

  lemma HubIsRegistry()
    ensures ValidRegistry("docker.io") && Lower("docker.io") == "docker.io"
  {
    var s := "docker.io";
    HubLabels(s);
    RegistryMatchesGrammar(s);
    hide ValidRegistry;
  }

  lemma HubLabels(s: string)
    requires s == "docker.io"
    ensures HostName(s)
  {
    assert s[6] == '.' && s[..6] == "docker" && s[7..] == "io";
    assert Label(s[..6]) && Label(s[7..]) && HostName(s[7..]);
  }

  lemma LowerLibrary(path: string)
    ensures Lower("library/" + path) == "library/" + Lower(path)
    ensures Lower("" + path) == "" + Lower(path)
  {
    assert forall i :: 0 <= i < 8 ==> LowerChar("library/"[i]) == "library/"[i];
  }

  // The name and ending behind a scheme, or without one.
  lemma SchemeIsRead(w: Written)
    requires Proper(w)
    ensures StripPrefix(Text(w), DOCKER_SCHEME) == Name(w) + EndingText(w.ending)
  {
    var rest := Name(w) + EndingText(w.ending);
    if w.scheme {
      assert Text(w) == DOCKER_SCHEME + rest;
      assert Text(w)[|DOCKER_SCHEME|..] == rest;
    } else {
      assert Text(w) == rest;
      NoSchemeInName(w);
    }
  }

  lemma NoSchemeInName(w: Written)
    requires Proper(w)
    ensures !(DOCKER_SCHEME <= Name(w) + EndingText(w.ending))
  {
    match w.host
    case Some(host) =>
      RegistryMatchesGrammar(host);
      hide ValidRegistry;
      NoScheme(host, w.path + EndingText(w.ending));
      assert Name(w) + EndingText(w.ending) == host + "/" + (w.path + EndingText(w.ending));
    case None =>
      NameCharacters(w);
      EndingCharacters(w.ending);
      hide OciName, ProperHost, ProperEnding, EndingText;
      NoSchemeInPath(w.path, EndingText(w.ending));
  }

  lemma NoSchemeInPath(path: string, ending: string)
    requires ':' !in path && '/' !in ending
    ensures !(DOCKER_SCHEME <= path + ending)
  {
    var s := path + ending;
    assert DOCKER_SCHEME[6] == ':' && DOCKER_SCHEME[7] == '/';
    assert |s| > 7 ==> s[6] in path || s[7] in ending;
  }

  lemma EndingCharacters(ending: Ending)
    requires ProperEnding(ending)
    ensures forall i :: 0 <= i < |EndingText(ending)| ==>
              IsAlnum(EndingText(ending)[i]) || EndingText(ending)[i] in {':', '@', '.', '-', '_'}
    ensures EndingText(ending) != "" ==> !IsWhitespace(EndingText(ending)[|EndingText(ending)| - 1])
  {
    match ending
    case Bare =>
    case Tagged(tag) =>
    case Digested(digest) =>
      forall i | 0 <= i < |digest| ensures IsAlnum(digest[i]) || digest[i] == ':' {
        if i < 7 {
          assert digest[i] == digest[..7][i];
        }
      }
  }

  // Neither trimming nor the check for control characters changes a written reference.
  lemma TextIsPlain(w: Written)
    requires Proper(w)
    ensures var rest := Name(w) + EndingText(w.ending);
            rest != "" && forall i :: 0 <= i < |rest| ==> !IsAsciiControl(rest[i])
    ensures Text(w) != "" && !IsWhitespace(Text(w)[0]) && !IsWhitespace(Text(w)[|Text(w)| - 1])
  {
    hide OciName, ProperHost, ProperEnding, Lower, IsAlnum, NameChar, IsWhitespace, IsAsciiControl, Name, EndingText, Text;
    NameCharacters(w);
    EndingCharacters(w.ending);
    PlainAround(Name(w), EndingText(w.ending));
    SchemeInFront(w.scheme, Name(w) + EndingText(w.ending));
    assert Text(w) == (if w.scheme then "docker://" else "") + (Name(w) + EndingText(w.ending)) by { TextIs(w); }
  }

  lemma TextIs(w: Written)
    ensures Text(w) == (if w.scheme then "docker://" else "") + (Name(w) + EndingText(w.ending))
  {}

  lemma PlainAround(name: string, ending: string)
    requires name != "" && IsAlnum(name[0]) && IsAlnum(name[|name| - 1])
    requires forall i :: 0 <= i < |name| ==> NameChar(name[i])
    requires forall i :: 0 <= i < |ending| ==> IsAlnum(ending[i]) || ending[i] in {':', '@', '.', '-', '_'}
    requires ending != "" ==> !IsWhitespace(ending[|ending| - 1])
    ensures var rest := name + ending;
            && rest != "" && !IsWhitespace(rest[0]) && !IsWhitespace(rest[|rest| - 1])
            && forall i :: 0 <= i < |rest| ==> !IsAsciiControl(rest[i])
  {
    var rest := name + ending;
    assert rest[|rest| - 1] == if ending == "" then name[|name| - 1] else ending[|ending| - 1];
    forall i | 0 <= i < |rest| ensures !IsAsciiControl(rest[i]) {
      assert rest[i] == if i < |name| then name[i] else ending[i - |name|];
    }
  }

  lemma SchemeInFront(scheme: bool, rest: string)
    requires rest != "" && !IsWhitespace(rest[0]) && !IsWhitespace(rest[|rest| - 1])
    ensures var text := (if scheme then "docker://" else "") + rest;
            text != "" && !IsWhitespace(text[0]) && !IsWhitespace(text[|text| - 1])
  {
    assert "docker://"[0] == 'd';
  }

  // Every way of writing a reference, with any white space around it, is read as what it
  // means.
  lemma {:induction false} WrittenIsRead(input: string, before: string, w: Written, after: string)
    requires Writes(input, before, w, after)
    ensures Parse(input) == Success(Meaning(w))
  {
    hide OciName, ProperHost, ProperEnding, SplitSuffix, SplitRegistry, ValidRegistry, ValidRepository, Trim,
      StripPrefix, Name, EndingText, Text, NoTagIn, White, Lower, IsAsciiControl;
    TextIsPlain(w);
    TrimWritten(before, Text(w), after);
    SchemeIsRead(w);
    NameCharacters(w);
    NameHasNoTag(w);
    EndingIsRead(Name(w), w.ending);
    PartsAreValid(w);
  }

  lemma TrimWritten(before: string, text: string, after: string)
    requires White(before) && White(after)
    requires text != "" && !IsWhitespace(text[0]) && !IsWhitespace(text[|text| - 1])
    ensures Trim(before + (text + after)) == text
  {
    TrimStartSkips(before, text + after);
    TrimEndSkips(text, after);
  }

  // ---- and nothing else is accepted ----

  lemma {:induction false} AcceptedIsWritten(input: string) returns (before: string, w: Written, after: string)
    requires Parse(input).Success?
    ensures Writes(input, before, w, after)
  {
    hide Parse, SplitSuffix, SplitRegistry, TrimStart, TrimEnd, StripPrefix, OciName, ValidRegistry, ValidRepository,
      Registry, HostLike, White, ProperEnding, EndingText, Lower;
    ParseChecks(input);
    before := TrimStartCuts(input);
    after := TrimEndCuts(TrimStart(input));
    var text := Trim(input);
    var value := StripPrefix(text, DOCKER_SCHEME);
    var name := SplitSuffix(value).value.name;
    var ending := EndingWritten(value);
    var host, path := NameWritten(name);
    w := Written(DOCKER_SCHEME <= text, host, path, ending);
    SchemeWritten(text);
    assert Name(w) == name;
    PathIsName(name, host, path);
    if host.Some? {
      RegistryMatchesGrammar(host.value);
    }
  }

  lemma ParseChecks(input: string)
    requires Parse(input).Success?
    ensures var suffixed := SplitSuffix(StripPrefix(Trim(input), DOCKER_SCHEME));
            && suffixed.Success?
            && ValidRegistry(SplitRegistry(suffixed.value.name).0)
            && ValidRepository(Lower(SplitRegistry(suffixed.value.name).1))
  {
    hide SplitSuffix, SplitRegistry, Trim, StripPrefix, ValidRegistry, ValidRepository, Lower;
  }

  lemma SchemeWritten(text: string)
    ensures text == (if DOCKER_SCHEME <= text then "docker://" else "") + StripPrefix(text, DOCKER_SCHEME)
  {}

  lemma EndingWritten(value: string) returns (ending: Ending)
    requires SplitSuffix(value).Success?
    ensures ProperEnding(ending) && value == SplitSuffix(value).value.name + EndingText(ending)
  {
    hide First, Last, ValidTag, ValidDigest, Tag, Digest;
    var s := SplitSuffix(value).value;
    match First(value, '@')
    case Some(at) =>
      ending := Digested(value[at + 1..]);
      DigestMatches(value[at + 1..]);
      assert value == value[..at] + ("@" + value[at + 1..]);
    case None =>
      if |s.name| < |value| {
        var colon := Last(value, ':').value;
        ending := Tagged(value[colon + 1..]);
        TagMatches(value[colon + 1..]);
        assert value == value[..colon] + (":" + value[colon + 1..]);
      } else {
        ending := Bare;
        assert value == value + "";
      }
  }

  // The host is the first part of the name, if that is host-like and not the only one.
  lemma NameWritten(name: string) returns (host: Option<string>, path: string)
    ensures host.Some? ==> HostLike(host.value) && '/' !in host.value && name == host.value + "/" + path
    ensures host.None? ==> name == path
    ensures host.None? ==>
              forall i :: 0 <= i < |path| && path[i] == '/' && '/' !in path[..i] ==> !HostLike(path[..i])
  {
    match First(name, '/')
    case None => host, path := None, name;
    case Some(k) =>
      if HostLike(name[..k]) {
        host, path := Some(name[..k]), name[k + 1..];
        assert name == name[..k] + "/" + name[k + 1..];
      } else {
        host, path := None, name;
        forall i | 0 <= i < |path| && path[i] == '/' && '/' !in path[..i] ensures i == k {
          FirstIs(path, '/', i);
        }
      }
  }

  lemma PathIsName(name: string, host: Option<string>, path: string)
    requires ValidRepository(Lower(SplitRegistry(name).1))
    requires host.Some? ==> HostLike(host.value) && '/' !in host.value && name == host.value + "/" + path
    requires host.None? ==> name == path
    requires host.None? ==>
              forall i :: 0 <= i < |path| && path[i] == '/' && '/' !in path[..i] ==> !HostLike(path[..i])
    ensures OciName(Lower(path))
    ensures host.Some? ==> SplitRegistry(name).0 == host.value
  {
    var repository := SplitRegistry(name).1;
    if host.Some? {
      HostIsCut(host.value, path);
    } else {
      PathIsCut(Written(false, None, path, Bare));
    }
    RepositoryMatchesGrammar(Lower(repository));
    LowerTwice(repository);
    LowerLibrary(path);
    LibraryName(Lower(path));
    hide OciName, ValidRepository, SplitRegistry;
  }
}
