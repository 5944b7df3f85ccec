// OCI image references: the parser, its canonical printer, and the hand-written
// scanner for repository path components.
module RepositoryGrammar {
  import opened Common
  import opened Strings

  // ---- the <name> grammar of the OCI Distribution Specification v1.1, "Pulling manifests":
  //   [a-z0-9]+((\.|_|__|-+)[a-z0-9]+)*(\/[a-z0-9]+((\.|_|__|-+)[a-z0-9]+)*)*

  ghost predicate AlnumRun(s: string) {
    s != "" && forall i :: 0 <= i < |s| ==> IsLowerAlnum(s[i])
  }

  ghost predicate Separator(s: string) {
    s == "." || s == "_" || s == "__" || (s != "" && forall i :: 0 <= i < |s| ==> s[i] == '-')
  }

  ghost predicate OciComponent(s: string)
    decreases |s|
  {
    AlnumRun(s) ||
    exists i, j :: 0 < i < j < |s| && OciComponent(s[..i]) && Separator(s[i..j]) && AlnumRun(s[j..])
  }

  ghost predicate OciName(s: string)
    decreases |s|
  {
    OciComponent(s) ||
    exists i :: 0 <= i < |s| && s[i] == '/' && OciComponent(s[..i]) && OciName(s[i + 1..])
  }

  // ---- the scanner ----

  function DashesEnd(s: string, i: nat): (j: nat)
    requires i <= |s|
    ensures i <= j <= |s|
    ensures forall k :: i <= k < j ==> s[k] == '-'
    ensures j < |s| ==> s[j] != '-'
    decreases |s| - i
  {
    if i < |s| && s[i] == '-' then DashesEnd(s, i + 1) else i
  }

  // Where the separator at i ends; None if there is none.
  function SeparatorEnd(s: string, i: nat): (r: Option<nat>)
    requires i < |s|
    ensures r.Some? ==> i < r.value <= |s|
  {
    match s[i]
    case '.' => Some(i + 1)
    case '_' => Some(if i + 1 < |s| && s[i + 1] == '_' then i + 2 else i + 1)
    case '-' => Some(DashesEnd(s, i))
    case _ => None
  }

  // What the scanner answers once it stands at index.
  function ScanFrom(s: string, index: nat): bool
    requires index <= |s|
    decreases |s| - index
  {
    if index == |s| then true
    else if IsAlnum(s[index]) then ScanFrom(s, index + 1)
    else
      match SeparatorEnd(s, index)
      case None => false
      case Some(j) => j < |s| && IsAlnum(s[j]) && ScanFrom(s, j + 1)
  }

  predicate ValidComponent(s: string) {
    s != "" && IsAlnum(s[0]) && ScanFrom(s, 1)
  }

  // The scanner accepts exactly the components whose lower-case form is in the grammar.
  method ValidRepositoryComponent(value: string) returns (ok: bool)
    ensures ok == ValidComponent(value)
    ensures ok == OciComponent(Lower(value))
  {
    ScannerMatchesGrammar(value);
    hide OciComponent;
    if |value| == 0 || !IsAlnum(value[0]) {
      return false;
    }
    var index := 1;
    while index < |value|
      invariant 1 <= index <= |value|
      invariant ScanFrom(value, 1) == ScanFrom(value, index)
    {
      if IsAlnum(value[index]) {
        index := index + 1;
        continue;
      }
      ghost var start := index;
      match value[index] {
        case '.' =>
          index := index + 1;
        case '_' =>
          index := index + 1;
          if index < |value| && value[index] == '_' {
            index := index + 1;
          }
        case '-' =>
          while index < |value| && value[index] == '-'
            invariant start <= index <= |value|
            invariant DashesEnd(value, start) == DashesEnd(value, index)
          {
            index := index + 1;
          }
        case _ =>
          return false;
      }
      if index >= |value| || !IsAlnum(value[index]) {
        return false;
      }
      index := index + 1;
    }
    return true;
  }

  predicate ValidRepository(s: string) {
    s != "" && forall p :: p in Split(s, '/') ==> ValidComponent(p)
  }

  // ---- scanner and grammar agree ----

  lemma {:induction false} ScanLower(s: string, i: nat)
    requires i <= |s|
    ensures ScanFrom(Lower(s), i) == ScanFrom(s, i)
    decreases |s| - i
  {
    var t := Lower(s);
    if i < |s| {
      if IsAlnum(s[i]) {
        ScanLower(s, i + 1);
      } else {
        SeparatorLower(s, i);
        var r := SeparatorEnd(s, i);
        if r.Some? && r.value < |s| && IsAlnum(s[r.value]) {
          ScanLower(s, r.value + 1);
        }
      }
    }
  }

  lemma {:induction false} DashesLower(s: string, i: nat)
    requires i <= |s|
    ensures DashesEnd(Lower(s), i) == DashesEnd(s, i)
    decreases |s| - i
  {
    if i < |s| && s[i] == '-' {
      DashesLower(s, i + 1);
    }
  }

  lemma SeparatorLower(s: string, i: nat)
    requires i < |s|
    ensures SeparatorEnd(Lower(s), i) == SeparatorEnd(s, i)
  {
    DashesLower(s, i);
  }

  lemma RunGrows(p: string, c: char)
    requires OciComponent(p) && IsLowerAlnum(c)
    ensures OciComponent(p + [c])
  {
    var q := p + [c];
    if AlnumRun(p) {
      assert AlnumRun(q);
    } else {
      var i, j :| 0 < i < j < |p| && OciComponent(p[..i]) && Separator(p[i..j]) && AlnumRun(p[j..]);
      assert q[..i] == p[..i] && q[i..j] == p[i..j] && q[j..] == p[j..] + [c];
      assert AlnumRun(q[j..]);
    }
  }

  lemma ComponentGrows(p: string, sep: string, c: char)
    requires OciComponent(p) && Separator(sep) && IsLowerAlnum(c)
    ensures OciComponent(p + sep + [c])
  {
    var q, i, j := p + sep + [c], |p|, |p| + |sep|;
    assert q[..i] == p && q[i..j] == sep && q[j..] == [c];
    assert AlnumRun(q[j..]) && i > 0;
  }

  // Sound: once the scanned part is a component, an accepted rest keeps it one.
  lemma {:induction false} ScanSound(s: string, i: nat)
    requires 0 < i <= |s| && OciComponent(s[..i]) && ScanFrom(s, i)
    requires forall k :: 0 <= k < |s| ==> !IsUpper(s[k])
    ensures OciComponent(s)
    decreases |s| - i
  {
    hide OciComponent;
    if i == |s| {
      assert s[..i] == s;
    } else if IsAlnum(s[i]) {
      RunGrows(s[..i], s[i]);
      assert s[..i + 1] == s[..i] + [s[i]];
      ScanSound(s, i + 1);
    } else {
      var j := SeparatorEnd(s, i).value;
      SeparatorIs(s, i);
      ComponentGrows(s[..i], s[i..j], s[j]);
      assert s[..j + 1] == s[..i] + s[i..j] + [s[j]];
      ScanSound(s, j + 1);
    }
  }

  lemma SeparatorIs(s: string, i: nat)
    requires i < |s| && SeparatorEnd(s, i).Some?
    ensures Separator(s[i..SeparatorEnd(s, i).value])
  {
    var sep := s[i..SeparatorEnd(s, i).value];
    match s[i]
    case '.' => assert sep == ".";
    case '_' => assert sep == "_" || sep == "__";
    case _ =>
  }

  // A separator followed by an alphanumeric is munched whole.
  lemma SeparatorMunched(s: string, i: nat, j: nat)
    requires i < j < |s| && Separator(s[i..j]) && IsAlnum(s[j])
    ensures SeparatorEnd(s, i) == Some(j) && !IsAlnum(s[i])
  {
    var sep := s[i..j];
    assert forall k :: i <= k < j ==> s[k] == sep[k - i];
    if s[i] == '-' {
      var e := DashesEnd(s, i);
    }
  }

  lemma {:induction false} ScanSeparator(s: string, i: nat, j: nat)
    requires i < j < |s| && Separator(s[i..j]) && IsAlnum(s[j])
    ensures ScanFrom(s, i) == ScanFrom(s, j + 1)
  {
    hide Separator, SeparatorEnd;
    SeparatorMunched(s, i, j);
  }

  lemma {:induction false} ScanRun(s: string, i: nat, j: nat)
    requires i <= j <= |s| && forall k :: i <= k < j ==> IsAlnum(s[k])
    ensures ScanFrom(s, i) == ScanFrom(s, j)
    decreases j - i
  {
    if i < j {
      ScanRun(s, i + 1, j);
    }
  }

  // Complete: the scanner walks through a component to its end.
  lemma {:induction false} ScanThrough(s: string, n: nat)
    requires 0 < n <= |s| && OciComponent(s[..n])
    ensures IsAlnum(s[0]) && ScanFrom(s, 1) == ScanFrom(s, n)
    decreases n
  {
    hide ScanFrom, Separator;
    var p := s[..n];
    if AlnumRun(p) {
      assert forall k :: 0 <= k < n ==> s[k] == p[k];
      ScanRun(s, 1, n);
    } else {
      var i, j :| 0 < i < j < |p| && OciComponent(p[..i]) && Separator(p[i..j]) && AlnumRun(p[j..]);
      assert p[..i] == s[..i] && p[i..j] == s[i..j];
      assert forall k :: j <= k < n ==> s[k] == p[j..][k - j];
      ScanThrough(s, i);
      ScanSeparator(s, i, j);
      ScanRun(s, j + 1, n);
    }
  }

  lemma {:induction false} ScannerMatchesGrammar(s: string)
    ensures ValidComponent(s) <==> OciComponent(Lower(s))
  {
    var t := Lower(s);
    if s != "" {
      ScanLower(s, 1);
      if ValidComponent(s) {
        assert t[..1] == [t[0]];
        assert AlnumRun(t[..1]);
        ScanSound(t, 1);
      }
      if OciComponent(t) {
        assert t[..|t|] == t;
        ScanThrough(t, |t|);
        assert IsAlnum(t[0]) ==> IsAlnum(s[0]);
      }
    }
  }

  lemma {:induction false} ComponentCharacters(s: string)
    requires OciComponent(s)
    ensures forall k :: 0 <= k < |s| ==> IsLowerAlnum(s[k]) || s[k] == '.' || s[k] == '_' || s[k] == '-'
    decreases |s|
  {
    if !AlnumRun(s) {
      var i, j :| 0 < i < j < |s| && OciComponent(s[..i]) && Separator(s[i..j]) && AlnumRun(s[j..]);
      ComponentCharacters(s[..i]);
      forall k | 0 <= k < |s| ensures IsLowerAlnum(s[k]) || s[k] == '.' || s[k] == '_' || s[k] == '-' {
        if k < i {
          assert s[..i][k] == s[k];
        } else if k < j {
          assert s[i..j][k - i] == s[k];
        } else {
          assert s[j..][k - j] == s[k];
        }
      }
    }
  }

  lemma ValidRepositorySplit(s: string, k: nat)
    requires First(s, '/') == Some(k)
    ensures ValidRepository(s) <==> ValidComponent(s[..k]) && ValidRepository(s[k + 1..])
  {
    var rest := Split(s[k + 1..], '/');
    assert Split(s, '/') == [s[..k]] + rest;
    if s[k + 1..] == "" {
      assert rest[0] == "" && "" in Split(s, '/');
    }
    assert forall p :: p in Split(s, '/') <==> p == s[..k] || p in rest;
  }

  lemma OciNameSplit(t: string, k: nat)
    requires First(t, '/') == Some(k)
    ensures OciName(t) <==> OciComponent(t[..k]) && OciName(t[k + 1..])
  {
    if OciComponent(t) {
      ComponentCharacters(t);
    }
    forall i | 0 <= i < |t| && t[i] == '/' && OciComponent(t[..i]) ensures i == k {
      ComponentCharacters(t[..i]);
      assert forall m :: 0 <= m < i ==> t[m] == t[..i][m];
      assert forall m :: 0 <= m < k ==> t[m] == t[..k][m];
    }
  }

  // The split on '/' with the scanner accepts exactly the grammar's names.
  lemma {:induction false} RepositoryMatchesGrammar(s: string)
    ensures ValidRepository(s) <==> OciName(Lower(s))
    decreases |s|
  {
    var t := Lower(s);
    match First(s, '/')
    case None =>
      ScannerMatchesGrammar(s);
      assert Split(s, '/') == [s];
      assert forall i :: 0 <= i < |t| ==> t[i] != '/';
    case Some(k) =>
      ScannerMatchesGrammar(s[..k]);
      RepositoryMatchesGrammar(s[k + 1..]);
      assert t[..k] == Lower(s[..k]) && t[k + 1..] == Lower(s[k + 1..]);
      FirstIs(t, '/', k);
      ValidRepositorySplit(s, k);
      OciNameSplit(t, k);
  }
}

module ImageReferences {
  import opened Common
  import opened Strings
  import opened RepositoryGrammar
  import Decimal

  datatype ImageReference = ImageReference(
    registry: string, repository: string, tag: Option<string>, digest: Option<string>)

  const DOCKER_HUB := "docker.io"
  const DOCKER_SCHEME := "docker://"
  const LIBRARY := "library/"
  const SHA256 := "sha256:"

  predicate IsAsciiControl(c: char) {
    c as int < 32 || c as int == 127
  }

  // ---- validation ----

  predicate IsRegistryHost(s: string) {
    s == "localhost" || '.' in s || ':' in s
  }

  predicate ValidHostComponent(s: string) {
    && s != "" && IsAlnum(s[0]) && IsAlnum(s[|s| - 1])
    && forall i :: 0 <= i < |s| ==> IsAlnum(s[i]) || s[i] == '-'
  }

  predicate ValidHost(s: string) {
    s != "" && forall p :: p in Split(s, '.') ==> ValidHostComponent(p)
  }

  // A u16 as Rust parses it (a leading '+' is accepted), and not zero.
  predicate ValidPort(s: string) {
    var digits := if s != "" && s[0] == '+' then s[1..] else s;
    && digits != ""
    && Decimal.AllDigits(digits) && 0 < Decimal.Value(digits) <= 65535
  }

  predicate ValidRegistry(s: string) {
    match Last(s, ':')
    case None => ValidHost(s)
    case Some(i) => ValidHost(s[..i]) && ValidPort(s[i + 1..])
  }

  predicate IsTagChar(c: char) { IsAlnum(c) || c == '.' || c == '-' || c == '_' }

  predicate ValidTag(s: string) {
    && 0 < |s| <= 128
    && (IsAlnum(s[0]) || s[0] == '_')
    && forall i :: 0 <= i < |s| ==> IsTagChar(s[i])
  }

  predicate IsHexDigit(c: char) { IsDigit(c) || 'a' <= c <= 'f' || 'A' <= c <= 'F' }

  predicate ValidDigest(s: string) {
    && SHA256 <= s && |s| == |SHA256| + 64
    && forall i :: |SHA256| <= i < |s| ==> IsHexDigit(s[i])
  }

  // ---- parse ----

  // Name, and either a tag or a digest.
  datatype Suffixed = Suffixed(name: string, tag: Option<string>, digest: Option<string>)

  function SplitSuffix(value: string): Result<Suffixed, string> {
    match First(value, '@')
    case Some(at) =>
      var name, digest := value[..at], value[at + 1..];
      if digest == "" || '@' in digest then Failure("OCI image digest reference is invalid")
      else
        var slash := match Last(name, '/') case Some(i) => i case None => 0;
        var colon := Last(name, ':');
        if colon.Some? && colon.value > slash then Failure("OCI image reference cannot contain both a tag and a digest")
        else if ValidDigest(digest) then Success(Suffixed(name, None, Some(digest)))
        else Failure("OCI image digest is invalid")
    case None =>
      var slash := match Last(value, '/') case Some(i) => i case None => 0;
      match Last(value, ':')
      case Some(colon) =>
        if colon <= slash then Success(Suffixed(value, Some("latest"), None))
        else if ValidTag(value[colon + 1..]) then Success(Suffixed(value[..colon], Some(value[colon + 1..]), None))
        else Failure("OCI image tag is invalid")
      case None => Success(Suffixed(value, Some("latest"), None))
  }

  // Registry and repository, with the defaults of the Docker hub.
  function SplitRegistry(name: string): (string, string) {
    var parts := Split(name, '/');
    if |parts| > 1 && IsRegistryHost(parts[0]) then
      var repository := Join(parts[1..], '/');
      (parts[0], if Lower(parts[0]) == DOCKER_HUB && '/' !in repository then LIBRARY + repository else repository)
    else
      (DOCKER_HUB, if |parts| > 1 then name else LIBRARY + name)
  }

  function Parse(input: string): Result<ImageReference, string> {
    var value := StripPrefix(Trim(input), DOCKER_SCHEME);
    if value == "" || exists i :: 0 <= i < |value| && IsAsciiControl(value[i]) then
      Failure("OCI image reference cannot be empty or contain control characters")
    else
      match SplitSuffix(value)
      case Failure(e) => Failure(e)
      case Success(s) =>
        var (registry, repository) := SplitRegistry(s.name);
        if !ValidRegistry(registry) then Failure("OCI registry is invalid")
        else if !ValidRepository(Lower(repository)) then Failure("OCI repository is invalid")
        else Success(ImageReference(Lower(registry), Lower(repository), s.tag, s.digest))
  }

  function Repository(r: ImageReference): string {
    r.registry + "/" + r.repository
  }

  function Canonical(r: ImageReference): string {
    match (r.tag, r.digest)
    case (_, Some(digest)) => Repository(r) + "@" + digest
    case (Some(tag), None) => Repository(r) + ":" + tag
    case (None, None) => Repository(r) + ":" + "latest"
  }

  // ---- which references parse produces ----

  ghost predicate WellFormed(r: ImageReference) {
    && r.registry == Lower(r.registry) && ValidRegistry(r.registry) && IsRegistryHost(r.registry)
    && r.repository == Lower(r.repository) && ValidRepository(r.repository)
    && (r.registry == DOCKER_HUB ==> '/' in r.repository)
    && (match (r.tag, r.digest)
        case (Some(tag), None) => ValidTag(tag)
        case (None, Some(digest)) => ValidDigest(digest)
        case _ => false)
  }

  lemma LowerTwice(s: string)
    ensures Lower(Lower(s)) == Lower(s)
  {}

  lemma HostLower(s: string)
    requires ValidHost(s)
    ensures ValidHost(Lower(s))
  {
    SplitLower(s, '.');
    var parts, lowered := Split(s, '.'), Split(Lower(s), '.');
    hide Split, ValidHostComponent;
    forall p | p in lowered ensures ValidHostComponent(p) {
      var i :| 0 <= i < |lowered| && lowered[i] == p;
      assert parts[i] in parts;
      HostComponentLower(parts[i]);
    }
  }

  lemma HostComponentLower(s: string)
    requires ValidHostComponent(s)
    ensures ValidHostComponent(Lower(s))
  {}

  lemma RegistryLower(s: string)
    requires ValidRegistry(s)
    ensures ValidRegistry(Lower(s))
  {
    LastLower(s, ':');
    match Last(s, ':')
    case None => HostLower(s);
    case Some(i) =>
      var host, port := s[..i], s[i + 1..];
      HostLower(host);
      PortLower(port);
      hide ValidHost, ValidPort, Last;
      LowerSlices(s, i);
      assert ValidHost(Lower(s)[..i]) && ValidPort(Lower(s)[i + 1..]);
  }

  lemma LowerSlices(s: string, i: nat)
    requires i < |s|
    ensures Lower(s)[..i] == Lower(s[..i]) && Lower(s)[i + 1..] == Lower(s[i + 1..])
  {}

  lemma PortLower(s: string)
    requires ValidPort(s)
    ensures Lower(s) == s
  {
    var digits := if s != "" && s[0] == '+' then s[1..] else s;
    forall i | 0 <= i < |s| ensures LowerChar(s[i]) == s[i] {
      if digits == s {
        assert IsDigit(digits[i]);
      } else if i > 0 {
        assert IsDigit(digits[i - 1]);
      }
    }
  }

  lemma DotLower(s: string)
    ensures IsRegistryHost(s) ==> IsRegistryHost(Lower(s))
  {
    if '.' in s {
      var i :| 0 <= i < |s| && s[i] == '.';
      assert Lower(s)[i] == '.';
    } else if ':' in s {
      var i :| 0 <= i < |s| && s[i] == ':';
      assert Lower(s)[i] == ':';
    } else if s == "localhost" {
      assert Lower(s) == s;
    }
  }

  lemma SlashLower(s: string)
    ensures '/' in s ==> '/' in Lower(s)
  {
    if '/' in s {
      var i :| 0 <= i < |s| && s[i] == '/';
      assert Lower(s)[i] == '/';
    }
  }

  lemma {:induction false} ParseIsWellFormed(input: string)
    requires Parse(input).Success?
    ensures WellFormed(Parse(input).value)
  {
    var s := SplitSuffix(StripPrefix(Trim(input), DOCKER_SCHEME)).value;
    SuffixValid(StripPrefix(Trim(input), DOCKER_SCHEME));
    var (registry, repository) := SplitRegistry(s.name);
    SplitRegistryHost(s.name);
    RegistryLower(registry);
    DotLower(registry);
    SlashLower(repository);
    LowerTwice(registry);
    LowerTwice(repository);
    hide SplitSuffix, SplitRegistry, ValidRegistry, ValidRepository, IsRegistryHost;
  }

  lemma SuffixValid(value: string)
    requires SplitSuffix(value).Success?
    ensures match (SplitSuffix(value).value.tag, SplitSuffix(value).value.digest)
      case (Some(tag), None) => ValidTag(tag)
      case (None, Some(digest)) => ValidDigest(digest)
      case _ => false
  {
    hide First, Last;
  }

  lemma SplitRegistryHost(name: string)
    ensures var (registry, repository) := SplitRegistry(name);
      IsRegistryHost(registry) && (Lower(registry) == DOCKER_HUB ==> '/' in repository)
  {
    JoinSplit(name, '/');
    var parts := Split(name, '/');
    assert '.' in DOCKER_HUB by { assert DOCKER_HUB[6] == '.'; }
    assert LIBRARY[7] == '/';
    if |parts| > 1 {
      JoinCons(parts[0], parts[1..], '/');
      assert parts == [parts[0]] + parts[1..];
      assert name[|parts[0]|] == '/';
    }
  }

  // ---- every well-formed reference is read back from its canonical form ----

  predicate IsRegistryChar(c: char) { IsAlnum(c) || c == '-' || c == '.' || c == ':' || c == '+' }

  predicate IsRepositoryChar(c: char) { IsAlnum(c) || c == '.' || c == '_' || c == '-' || c == '/' }

  lemma HostCharacters(s: string)
    requires ValidHost(s)
    ensures IsAlnum(s[0])
    ensures forall k :: 0 <= k < |s| ==> IsAlnum(s[k]) || s[k] == '-' || s[k] == '.'
  {
    var parts := Split(s, '.');
    assert parts[0] in parts;
    forall k | 0 <= k < |s| ensures IsAlnum(s[k]) || s[k] == '-' || s[k] == '.' {
      if s[k] != '.' {
        SplitCovers(s, '.', k);
      }
    }
  }

  lemma RegistryCharacters(s: string)
    requires ValidRegistry(s)
    ensures s != "" && IsAlnum(s[0]) && s[|s| - 1] != ':'
    ensures forall k :: 0 <= k < |s| ==> IsRegistryChar(s[k])
  {
    match Last(s, ':')
    case None => HostCharacters(s);
    case Some(i) =>
      HostCharacters(s[..i]);
      var port := s[i + 1..];
      var digits := if port != "" && port[0] == '+' then port[1..] else port;
      assert forall k :: 0 <= k < |digits| ==> IsDigit(digits[k]);
      assert forall k :: 0 <= k < |port| ==> IsDigit(port[k]) || port[k] == '+' by {
        assert digits == port || (forall k :: 1 <= k < |port| ==> port[k] == digits[k - 1]);
      }
      assert forall k :: 0 <= k < i ==> s[k] == s[..i][k];
      assert forall k :: i < k < |s| ==> s[k] == port[k - i - 1];
  }

  lemma RepositoryCharacters(s: string)
    requires ValidRepository(s)
    ensures forall k :: 0 <= k < |s| ==> IsRepositoryChar(s[k])
  {
    forall k | 0 <= k < |s| ensures IsRepositoryChar(s[k]) {
      if s[k] != '/' {
        SplitCovers(s, '/', k);
        var p :| p in Split(s, '/') && s[k] in p;
        ScannerMatchesGrammar(p);
        ComponentCharacters(Lower(p));
        var j :| 0 <= j < |p| && p[j] == s[k];
        assert Lower(p)[j] == LowerChar(s[k]);
      }
    }
  }

  lemma TrimNothing(s: string)
    requires s != "" && !IsWhitespace(s[0]) && !IsWhitespace(s[|s| - 1])
    ensures Trim(s) == s
  {}

  // The scheme prefix cannot be read into a canonical name: "docker:" is no registry.
  lemma NoScheme(registry: string, rest: string)
    requires ValidRegistry(registry)
    ensures !(DOCKER_SCHEME <= registry + "/" + rest)
  {
    RegistryCharacters(registry);
    hide ValidRegistry;
    var s, n := registry + "/" + rest, |registry|;
    var d := if n < 7 then n else if n == 7 then 6 else 7;
    assert s[d] == if n < 7 then '/' else registry[d];
    assert DOCKER_SCHEME[d] == (if d < 6 then "docker"[d] else if d == 6 then ':' else '/');
    assert s[d] != DOCKER_SCHEME[d];
  }

  lemma SplitRegistryOfName(registry: string, repository: string)
    requires '/' !in registry && IsRegistryHost(registry) && registry == Lower(registry)
    requires registry == DOCKER_HUB ==> '/' in repository
    ensures SplitRegistry(registry + "/" + repository) == (registry, repository)
  {
    SplitCons(registry, repository, '/');
    var rest := Split(repository, '/');
    assert ([registry] + rest)[1..] == rest;
    JoinSplit(repository, '/');
  }

  // The last slash of name + sep + rest is the last slash of name.
  lemma LastInFront(name: string, sep: char, rest: string, c: char)
    requires c != sep && c !in rest
    ensures Last(name + [sep] + rest, c) == Last(name, c)
  {
    LastSkips(name, c);
    match Last(name, c)
    case None => assert c !in name + [sep] + rest;
    case Some(k) => LastIs(name + [sep] + rest, c, k);
  }

  lemma TagCharacters(tag: string)
    requires ValidTag(tag)
    ensures '@' !in tag && ':' !in tag && '/' !in tag
  {
    assert forall k :: 0 <= k < |tag| ==> IsTagChar(tag[k]);
  }

  lemma {:induction false} SuffixOfTagged(name: string, tag: string)
    requires '/' in name && '@' !in name && ValidTag(tag)
    ensures SplitSuffix(name + ":" + tag) == Success(Suffixed(name, Some(tag), None))
  {
    hide Last, First, ValidTag;
    var value, n := name + ":" + tag, |name|;
    assert value[..n] == name && value[n + 1..] == tag && value[n] == ':';
    TagCharacters(tag);
    assert '@' !in value;
    LastIs(value, ':', n);
    LastInFront(name, ':', tag, '/');
    assert Last(value, '/') == Last(name, '/');
  }

  lemma SuffixOfDigest(registry: string, repository: string, digest: string)
    requires '@' !in registry && '@' !in repository && '/' !in registry
    requires ':' !in repository && ValidDigest(digest)
    ensures SplitSuffix(registry + "/" + repository + "@" + digest)
         == Success(Suffixed(registry + "/" + repository, None, Some(digest)))
  {
    var name := registry + "/" + repository;
    var value, n := name + "@" + digest, |name|;
    assert value[..n] == name && value[n + 1..] == digest && value[n] == '@';
    assert '@' !in digest by {
      assert forall k :: 0 <= k < 7 ==> digest[k] == SHA256[k];
    }
    assert '@' !in name;
    FirstIs(value, '@', n);
    LastInFront(registry, '/', repository, ':');
    assert name == registry + ['/'] + repository;
    assert name[|registry|] == '/';
    hide First, ValidDigest;
    LastAtLeast(name, '/', |registry|);
  }

  lemma LastAtLeast(s: string, c: char, i: nat)
    requires i < |s| && s[i] == c
    ensures Last(s, c).Some? && i <= Last(s, c).value
  {
    LastSkips(s, c);
  }

  lemma NameCharacters(r: ImageReference)
    requires ValidRegistry(r.registry) && ValidRepository(r.repository)
    ensures r.registry != "" && IsAlnum(r.registry[0])
    ensures '@' !in r.registry && '/' !in r.registry && '@' !in r.repository && ':' !in r.repository
    ensures forall i :: 0 <= i < |Repository(r)| ==> !IsAsciiControl(Repository(r)[i])
  {
    RegistryCharacters(r.registry);
    RepositoryCharacters(r.repository);
    hide ValidRegistry, ValidRepository;
  }

  // A printed reference survives trimming, the control-character check and the scheme prefix.
  lemma NothingStripped(r: ImageReference, suffix: string)
    requires ValidRegistry(r.registry) && ValidRepository(r.repository)
    requires |suffix| > 1 && (suffix[0] == ':' || suffix[0] == '@')
    requires forall i :: 0 < i < |suffix| ==> IsTagChar(suffix[i]) || suffix[i] == ':'
    ensures var value := Repository(r) + suffix;
      && StripPrefix(Trim(value), DOCKER_SCHEME) == value != ""
      && forall i :: 0 <= i < |value| ==> !IsAsciiControl(value[i])
  {
    NameCharacters(r);
    var value := Repository(r) + suffix;
    assert value == r.registry + "/" + (r.repository + suffix);
    NoScheme(r.registry, r.repository + suffix);
    hide ValidRegistry, ValidRepository;
    assert value[0] == r.registry[0] && value[|value| - 1] == suffix[|suffix| - 1];
    TrimNothing(value);
  }

  lemma ParseTagged(r: ImageReference)
    requires WellFormed(r) && r.tag.Some?
    ensures Parse(Repository(r) + ":" + r.tag.value) == Success(r)
  {
    var name, tag := Repository(r), r.tag.value;
    NothingStripped(r, ":" + tag);
    NameCharacters(r);
    assert name + ":" + tag == name + (":" + tag);
    assert name[|r.registry|] == '/';
    SuffixOfTagged(name, tag);
    SplitRegistryOfName(r.registry, r.repository);
    hide SplitSuffix, SplitRegistry, ValidRegistry, ValidRepository, Trim, StripPrefix, IsRegistryHost;
  }

  lemma ParseDigested(r: ImageReference)
    requires WellFormed(r) && r.digest.Some?
    ensures Parse(Repository(r) + "@" + r.digest.value) == Success(r)
  {
    var name, digest := Repository(r), r.digest.value;
    DigestCharacters(digest);
    NothingStripped(r, "@" + digest);
    NameCharacters(r);
    assert name + "@" + digest == name + ("@" + digest);
    SuffixOfDigest(r.registry, r.repository, digest);
    SplitRegistryOfName(r.registry, r.repository);
    hide SplitSuffix, SplitRegistry, ValidRegistry, ValidRepository, Trim, StripPrefix, IsRegistryHost, ValidDigest;
  }

  lemma DigestCharacters(digest: string)
    requires ValidDigest(digest)
    ensures forall i :: 0 <= i < |digest| ==> IsTagChar(digest[i]) || digest[i] == ':'
  {
    assert forall k :: 0 <= k < 7 ==> digest[k] == SHA256[k];
  }

  // Canonical and parse are inverse on well-formed references.
  lemma {:induction false} ParseCanonical(r: ImageReference)
    requires WellFormed(r)
    ensures Parse(Canonical(r)) == Success(r)
  {
    hide Parse;
    if r.tag.Some? {
      ParseTagged(r);
    } else {
      ParseDigested(r);
    }
  }

  // For every input parse accepts, reading its canonical form gives the same reference.
  lemma {:induction false} RoundTrip(input: string)
    requires Parse(input).Success?
    ensures Parse(Canonical(Parse(input).value)) == Parse(input)
  {
    ParseIsWellFormed(input);
    hide Parse, WellFormed;
    ParseCanonical(Parse(input).value);
  }

  // Two accepted inputs mean the same reference exactly when their canonical forms are equal.
  lemma {:induction false} CanonicalDecides(x: string, y: string)
    requires Parse(x).Success? && Parse(y).Success?
    ensures Canonical(Parse(x).value) == Canonical(Parse(y).value) <==> Parse(x) == Parse(y)
  {
    RoundTrip(x);
    RoundTrip(y);
    hide Parse, Canonical;
  }

  // ---- the Docker hub shorthand ----

  const HUB_PREFIX := "docker.io/"

  lemma HubPrefixCharacters()
    ensures '@' !in HUB_PREFIX && Last(HUB_PREFIX, ':') == None && Last(HUB_PREFIX, '/') == Some(9)
    ensures HUB_PREFIX == DOCKER_HUB + "/" && '/' !in DOCKER_HUB && '.' in DOCKER_HUB
  {
    hide Last;
    assert DOCKER_HUB[6] == '.';
    LastIs(HUB_PREFIX, '/', 9);
  }

  lemma SuffixBehindHub(v: string)
    requires '/' !in v && SplitSuffix(v).Success? && ':' !in SplitSuffix(v).value.name
    ensures SplitSuffix(HUB_PREFIX + v) == Success(SplitSuffix(v).value.(name := HUB_PREFIX + SplitSuffix(v).value.name))
  {
    if '@' in v {
      DigestBehindHub(v);
    } else {
      TagBehindHub(v);
    }
  }

  lemma DigestBehindHub(v: string)
    requires '/' !in v && '@' in v && SplitSuffix(v).Success? && ':' !in SplitSuffix(v).value.name
    ensures SplitSuffix(HUB_PREFIX + v) == Success(SplitSuffix(v).value.(name := HUB_PREFIX + SplitSuffix(v).value.name))
  {
    HubPrefixCharacters();
    FirstBehind(HUB_PREFIX, v, '@');
    var at := First(v, '@').value;
    LastBehind(HUB_PREFIX, v[..at], ':');
    SlicesBehind(HUB_PREFIX, v, at);
    hide First, Last, ValidDigest;
  }

  lemma TagBehindHub(v: string)
    requires '/' !in v && '@' !in v && SplitSuffix(v).Success? && ':' !in SplitSuffix(v).value.name
    ensures SplitSuffix(HUB_PREFIX + v) == Success(SplitSuffix(v).value.(name := HUB_PREFIX + SplitSuffix(v).value.name))
  {
    HubPrefixCharacters();
    TagBehind(HUB_PREFIX, v);
  }

  lemma TagBehind(prefix: string, v: string)
    requires '@' !in prefix && Last(prefix, ':').None? && Last(prefix, '/').Some?
    requires '/' !in v && '@' !in v && SplitSuffix(v).Success? && ':' !in SplitSuffix(v).value.name
    ensures SplitSuffix(prefix + v) == Success(SplitSuffix(v).value.(name := prefix + SplitSuffix(v).value.name))
  {
    hide First, Last, ValidTag;
    FirstBehind(prefix, v, '@');
    LastBehind(prefix, v, '/');
    LastBehind(prefix, v, ':');
    match Last(v, ':')
    case Some(colon) =>
      assert colon > 0;
      SlicesBehind(prefix, v, colon);
    case None =>
  }

  lemma RegistryBehindHub(name: string)
    requires '/' !in name
    ensures SplitRegistry(HUB_PREFIX + name) == SplitRegistry(name) == (DOCKER_HUB, LIBRARY + name)
  {
    HubPrefixCharacters();
    assert HUB_PREFIX + name == DOCKER_HUB + ['/'] + name;
    SplitCons(DOCKER_HUB, name, '/');
    assert Split(name, '/') == [name];
    assert ([DOCKER_HUB] + [name])[1..] == [name];
    hide Split, First;
    assert Lower(DOCKER_HUB) == DOCKER_HUB;
  }

  // Neither the trimming nor the scheme prefix nor the control-character check sees the hub prefix.
  lemma HubPrefixStripped(v: string)
    requires '/' !in v && v != "" && Trim(v) == v
    ensures StripPrefix(Trim(v), DOCKER_SCHEME) == v
    ensures StripPrefix(Trim(HUB_PREFIX + v), DOCKER_SCHEME) == HUB_PREFIX + v
    ensures (exists i :: 0 <= i < |HUB_PREFIX + v| && IsAsciiControl((HUB_PREFIX + v)[i]))
        ==> exists i :: 0 <= i < |v| && IsAsciiControl(v[i])
  {
    var w := HUB_PREFIX + v;
    assert DOCKER_SCHEME[7] == '/';
    TrimmedEnds(v);
    assert w[0] == HUB_PREFIX[0] == 'd' && w[|w| - 1] == v[|v| - 1];
    TrimNothing(w);
    assert w[6] == HUB_PREFIX[6] != DOCKER_SCHEME[6];
    assert forall i :: 0 <= i < 10 ==> w[i] == HUB_PREFIX[i] && !IsAsciiControl(w[i]);
    if i :| 0 <= i < |w| && IsAsciiControl(w[i]) {
      assert i >= 10 && v[i - 10] == w[i];
    }
  }

  lemma ColonFree(name: string)
    requires ValidRepository(Lower(LIBRARY + name))
    ensures ':' !in name
  {
    RepositoryCharacters(Lower(LIBRARY + name));
    forall i | 0 <= i < |name| ensures name[i] != ':' {
      assert Lower(LIBRARY + name)[8 + i] == LowerChar(name[i]);
    }
  }

  lemma SuffixNameIn(v: string)
    requires SplitSuffix(v).Success? && '/' !in v
    ensures '/' !in SplitSuffix(v).value.name
  {}

  // A name without a path means the same with "docker.io/" in front of it.
  lemma {:induction false} HubShorthand(v: string)
    requires '/' !in v && Trim(v) == v && Parse(v).Success?
    ensures Parse(HUB_PREFIX + v) == Parse(v)
  {
    assert v != "";
    HubPrefixStripped(v);
    SuffixNameIn(v);
    var name := SplitSuffix(v).value.name;
    RegistryBehindHub(name);
    hide SplitSuffix, SplitRegistry, ValidRegistry, ValidRepository, Trim, StripPrefix;
    ColonFree(name);
    SuffixBehindHub(v);
  }

  lemma TrimmedEnds(s: string)
    requires s != "" && Trim(s) == s
    ensures !IsWhitespace(s[|s| - 1])
  {
    TrimShrinks(s);
    TrimShrinks(TrimStart(s));
  }

  lemma {:induction false} TrimShrinks(s: string)
    ensures |TrimStart(s)| <= |s| && |TrimEnd(s)| <= |s|
    ensures |TrimStart(s)| == |s| ==> TrimStart(s) == s
    ensures s != "" && |TrimEnd(s)| == |s| ==> !IsWhitespace(s[|s| - 1])
  {
    if s != "" {
      TrimShrinks(s[1..]);
      TrimShrinks(s[..|s| - 1]);
    }
  }
}
