// The string operations the components share.
module Strings {
  import opened Common

  predicate IsUpper(c: char) { 'A' <= c <= 'Z' }

  predicate IsDigit(c: char) { '0' <= c <= '9' }

  predicate IsLowerAlnum(c: char) { 'a' <= c <= 'z' || IsDigit(c) }

  predicate IsAlnum(c: char) { IsUpper(c) || IsLowerAlnum(c) }

  function LowerChar(c: char): char {
    if IsUpper(c) then (c as int + 32) as char else c
  }

  function Lower(s: string): (r: string)
    ensures |r| == |s| && forall i :: 0 <= i < |s| ==> r[i] == LowerChar(s[i])
  {
    seq(|s|, i requires 0 <= i < |s| => LowerChar(s[i]))
  }

  function First(s: string, c: char): (r: Option<nat>)
    ensures r.Some? ==> r.value < |s| && s[r.value] == c && c !in s[..r.value]
    ensures r.None? ==> c !in s
  {
    if s == "" then None
    else if s[0] == c then Some(0)
    else
      assert s == [s[0]] + s[1..];
      match First(s[1..], c)
      case None => None
      case Some(i) =>
        assert s[..i + 1] == [s[0]] + s[1..][..i];
        Some(i + 1)
  }

  function Last(s: string, c: char): (r: Option<nat>)
    ensures r.Some? ==> r.value < |s| && s[r.value] == c && c !in s[r.value + 1..]
    ensures r.None? ==> c !in s
  {
    if s == "" then None
    else
      var n := |s| - 1;
      if s[n] == c then Some(n)
      else
        assert s == s[..n] + [s[n]];
        match Last(s[..n], c)
        case None => None
        case Some(i) =>
          assert s[i + 1..] == s[..n][i + 1..] + [s[n]];
          Some(i)
  }

  lemma FirstIs(s: string, c: char, i: nat)
    requires i < |s| && s[i] == c && c !in s[..i]
    ensures First(s, c) == Some(i)
  {
    var k := First(s, c).value;
    assert forall j :: 0 <= j < i ==> s[j] == s[..i][j];
    assert forall j :: 0 <= j < k ==> s[j] == s[..k][j];
  }

  lemma LastIs(s: string, c: char, i: nat)
    requires i < |s| && s[i] == c && forall j :: i < j < |s| ==> s[j] != c
    ensures Last(s, c) == Some(i)
  {
    LastSkips(s, c);
  }

  lemma LastSkips(s: string, c: char)
    ensures Last(s, c).Some? ==> forall j :: Last(s, c).value < j < |s| ==> s[j] != c
  {
    if Last(s, c).Some? {
      var k := Last(s, c).value;
      assert forall j :: k < j < |s| ==> s[j] == s[k + 1..][j - k - 1];
    }
  }

  lemma FirstBehind(prefix: string, s: string, c: char)
    requires c !in prefix
    ensures First(prefix + s, c) == (match First(s, c) case None => None case Some(i) => Some(|prefix| + i))
  {
    match First(s, c)
    case None => assert c !in prefix + s;
    case Some(i) =>
      assert (prefix + s)[..|prefix| + i] == prefix + s[..i];
      FirstIs(prefix + s, c, |prefix| + i);
  }

  lemma LastBehind(prefix: string, s: string, c: char)
    ensures Last(prefix + s, c) == (match Last(s, c) case None => Last(prefix, c) case Some(i) => Some(|prefix| + i))
  {
    LastSkips(s, c);
    LastSkips(prefix, c);
    match Last(s, c)
    case Some(i) => LastIs(prefix + s, c, |prefix| + i);
    case None =>
      match Last(prefix, c)
      case Some(i) => LastIs(prefix + s, c, i);
      case None => assert c !in prefix + s;
  }

  lemma SlicesBehind(prefix: string, s: string, i: nat)
    requires i < |s|
    ensures (prefix + s)[..|prefix| + i] == prefix + s[..i]
    ensures (prefix + s)[|prefix| + i + 1..] == s[i + 1..]
  {}

  function Split(s: string, c: char): (parts: seq<string>)
    ensures |parts| >= 1
    decreases |s|
  {
    match First(s, c)
    case None => [s]
    case Some(i) => [s[..i]] + Split(s[i + 1..], c)
  }

  function Join(parts: seq<string>, c: char): string
    requires |parts| >= 1
  {
    if |parts| == 1 then parts[0] else parts[0] + [c] + Join(parts[1..], c)
  }

  lemma JoinCons(head: string, rest: seq<string>, c: char)
    requires |rest| >= 1
    ensures Join([head] + rest, c) == head + [c] + Join(rest, c)
  {
    assert ([head] + rest)[1..] == rest;
  }

  lemma {:induction false} JoinSplit(s: string, c: char)
    ensures Join(Split(s, c), c) == s
    decreases |s|
  {
    match First(s, c)
    case None =>
    case Some(i) =>
      JoinSplit(s[i + 1..], c);
      JoinCons(s[..i], Split(s[i + 1..], c), c);
      hide Join, Split, First;
      assert s == s[..i] + [s[i]] + s[i + 1..];
  }

  lemma {:induction false} SplitPartsFree(s: string, c: char)
    ensures forall p :: p in Split(s, c) ==> c !in p
    decreases |s|
  {
    match First(s, c)
    case None =>
    case Some(i) => SplitPartsFree(s[i + 1..], c);
  }

  // Every character is the separator or in one of the parts.
  lemma {:induction false} SplitCovers(s: string, c: char, k: nat)
    requires k < |s| && s[k] != c
    ensures exists p :: p in Split(s, c) && s[k] in p
    decreases |s|
  {
    match First(s, c)
    case None =>
      assert s in Split(s, c);
    case Some(i) =>
      var parts := Split(s, c);
      if k < i {
        assert parts[0] == s[..i] && s[..i][k] == s[k];
        assert parts[0] in parts && s[k] in parts[0];
      } else {
        assert s[i + 1..][k - i - 1] == s[k];
        SplitCovers(s[i + 1..], c, k - i - 1);
        var p :| p in Split(s[i + 1..], c) && s[k] in p;
        assert p in parts;
      }
  }

  lemma SplitCons(head: string, rest: string, c: char)
    requires c !in head
    ensures Split(head + [c] + rest, c) == [head] + Split(rest, c)
  {
    var s := head + [c] + rest;
    assert s[..|head|] == head && s[|head| + 1..] == rest;
    FirstIs(s, c, |head|);
  }

  lemma {:induction false} SplitLower(s: string, c: char)
    requires !IsAlnum(c)
    ensures |Split(Lower(s), c)| == |Split(s, c)|
    ensures forall i :: 0 <= i < |Split(s, c)| ==> Split(Lower(s), c)[i] == Lower(Split(s, c)[i])
    decreases |s|
  {
    match First(s, c)
    case None =>
      assert c !in Lower(s);
    case Some(i) =>
      var head, rest := s[..i], s[i + 1..];
      SplitCons(head, rest, c);
      SplitLower(rest, c);
      LowerAround(head, c, rest);
      assert s == head + [c] + rest;
      SplitCons(Lower(head), Lower(rest), c);
      hide Split, First, Lower, IsAlnum;
  }

  lemma LowerAround(head: string, c: char, rest: string)
    requires !IsAlnum(c)
    ensures Lower(head + [c] + rest) == Lower(head) + [c] + Lower(rest)
    ensures c !in head ==> c !in Lower(head)
  {}

  lemma LastLower(s: string, c: char)
    requires !IsAlnum(c)
    ensures Last(Lower(s), c) == Last(s, c)
  {
    LastSkips(s, c);
    match Last(s, c)
    case None => assert c !in Lower(s);
    case Some(i) => LastIs(Lower(s), c, i);
  }

  // Unicode White_Space.
  predicate IsWhitespace(c: char) {
    var n := c as int;
    9 <= n <= 13 || n == 32 || n == 0x85 || n == 0xA0 || n == 0x1680 || 0x2000 <= n <= 0x200A
    || n == 0x2028 || n == 0x2029 || n == 0x202F || n == 0x205F || n == 0x3000
  }

  function TrimStart(s: string): string {
    if s != "" && IsWhitespace(s[0]) then TrimStart(s[1..]) else s
  }

  function TrimEnd(s: string): string {
    if s != "" && IsWhitespace(s[|s| - 1]) then TrimEnd(s[..|s| - 1]) else s
  }

  function Trim(s: string): string {
    TrimEnd(TrimStart(s))
  }

  function StripPrefix(s: string, prefix: string): string {
    if prefix <= s then s[|prefix|..] else s
  }
}
