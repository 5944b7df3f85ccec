// Keyboard and cursor modes of a terminal session.  They are tracked while output
// is processed and replayed as control sequences to a viewer that attaches later.
module TerminalModes {
  import opened Common
  import opened Strings
  import Decimal

  newtype u16 = x: int | 0 <= x < 65536

  const ESC: char := 27 as char
  const STACK_LIMIT := 16

  datatype Modes = Modes(
    headless: bool, replies: string,
    kitty: u16, stack: seq<u16>, modifyKeys: u16, focus: bool,
    cursorStyle: Option<u16>, cursorBlink: Option<bool>)

  const DEFAULT := Modes(false, "", 0, [], 0, false, None, None)

  // A control sequence as the parser reports it: the first intermediate or private
  // marker, the parameters with their sub-parameters, and the final character.
  datatype Csi = Csi(marker: Option<char>, params: seq<seq<u16>>, command: char)

  function Param(params: seq<seq<u16>>, i: nat, default: u16): u16 {
    if i < |params| && params[i] != [] then params[i][0] else default
  }

  // Screen controls that are handled elsewhere and never reach the modes.
  predicate IsScreenExtension(c: Csi) {
    match (c.marker, c.command)
    case (None, 's') => c.params == [] || c.params == [[0]]
    case (None, 'u') => c.params == [] || c.params == [[0]]
    case (Some('?'), 'h') => c.params == [[1047]] || c.params == [[1048]]
    case (Some('?'), 'l') => c.params == [[1047]] || c.params == [[1048]]
    case _ => false
  }

  // The answer given for the terminal while nobody is attached.
  function Reply(kitty: u16, cursor: (nat, nat), c: Csi): Option<string> {
    match (c.marker, c.command, Param(c.params, 0, 0))
    case (None, 'n', 5) => Some([ESC] + "[0n")
    case (None, 'n', 6) => Some([ESC] + "[" + Decimal.Print(cursor.0 + 1) + ";" + Decimal.Print(cursor.1 + 1) + "R")
    case (None, 'c', 0) => Some([ESC] + "[?1;2c")
    case (Some('>'), 'c', 0) => Some([ESC] + "[>0;1;0c")
    case (Some('?'), 'u', _) => Some([ESC] + "[?" + Decimal.Print(kitty as nat) + "u")
    case _ => None
  }

  function Push(m: Modes, flags: u16): Modes {
    var kept := if |m.stack| == STACK_LIMIT then m.stack[1..] else m.stack;
    m.(stack := kept + [m.kitty], kitty := flags)
  }

  // n pops; popping an empty stack leaves no flags.
  function Pop(m: Modes, n: nat): Modes
    decreases n
  {
    if n == 0 then m
    else if m.stack == [] then Pop(m.(kitty := 0), n - 1)
    else Pop(m.(kitty := m.stack[|m.stack| - 1], stack := m.stack[..|m.stack| - 1]), n - 1)
  }

  function Clamp(n: u16): nat {
    if n < 1 then 1 else if n > 16 then 16 else n as nat
  }

  function AddBits(flags: bv16, more: bv16): bv16 {
    flags | more
  }

  function DropBits(flags: bv16, less: bv16): bv16 {
    flags & !less
  }

  function SetFlags(kitty: u16, value: u16, how: u16): u16 {
    if how == 2 then AddBits(kitty as bv16, value as bv16) as u16
    else if how == 3 then DropBits(kitty as bv16, value as bv16) as u16
    else value
  }

  function Answered(m: Modes, cursor: (nat, nat), c: Csi): Modes {
    var reply := Reply(m.kitty, cursor, c);
    if m.headless && reply.Some? then m.(replies := m.replies + reply.value) else m
  }

  function Changed(m: Modes, c: Csi): Modes {
    var value, second := Param(c.params, 0, 0), Param(c.params, 1, 1);
    match (c.marker, c.command)
    case (Some(' '), 'q') => if value <= 6 then m.(cursorStyle := Some(value)) else m
    case (Some('?'), 'h') =>
      if value == 12 then m.(cursorBlink := Some(true)) else if value == 1004 then m.(focus := true) else m
    case (Some('?'), 'l') =>
      if value == 12 then m.(cursorBlink := Some(false)) else if value == 1004 then m.(focus := false) else m
    case (Some('>'), 'u') => Push(m, value)
    case (Some('<'), 'u') => Pop(m, Clamp(value))
    case (Some('='), 'u') => m.(kitty := SetFlags(m.kitty, value, second))
    case (Some('>'), 'm') => if value == 4 then m.(modifyKeys := second) else m
    case _ => m
  }

  function Apply(m: Modes, cursor: (nat, nat), c: Csi): Modes {
    if IsScreenExtension(c) then m else Changed(Answered(m, cursor, c), c)
  }

  ghost predicate Valid(m: Modes) {
    && |m.stack| <= STACK_LIMIT
    && (m.cursorStyle.Some? ==> m.cursorStyle.value <= 6)
  }

  // The tracker the sessions keep, changed in place by each reported sequence.
  class Tracker {
    var headless: bool
    var replies: string
    var kitty: u16
    var stack: seq<u16>
    var modifyKeys: u16
    var focus: bool
    var cursorStyle: Option<u16>
    var cursorBlink: Option<bool>

    ghost function Value(): Modes
      reads this
    {
      Modes(headless, replies, kitty, stack, modifyKeys, focus, cursorStyle, cursorBlink)
    }

    constructor ()
      ensures Value() == DEFAULT && Valid(Value())
    {
      headless, replies, kitty, stack, modifyKeys := false, "", 0, [], 0;
      focus, cursorStyle, cursorBlink := false, None, None;
    }

    method PopFlags(n: nat)
      requires Valid(Value())
      modifies this
      ensures Value() == Pop(old(Value()), n)
      ensures Valid(Value())
    {
      for i := 0 to n
        invariant Pop(old(Value()), n) == Pop(Value(), n - i)
        invariant Valid(Value())
      {
        if stack == [] {
          kitty := 0;
        } else {
          kitty, stack := stack[|stack| - 1], stack[..|stack| - 1];
        }
      }
    }

    // The answer to a query while nobody is attached.
    method Answer(cursor: (nat, nat), c: Csi)
      modifies this
      ensures Value() == Answered(old(Value()), cursor, c)
    {
      hide Reply;
      if headless {
        var reply := Reply(kitty, cursor, c);
        if reply.Some? {
          replies := replies + reply.value;
        }
      }
    }

    method UnhandledCsi(cursor: (nat, nat), c: Csi)
      requires Valid(Value())
      modifies this
      ensures Value() == Apply(old(Value()), cursor, c)
      ensures Valid(Value())
    {
      hide IsScreenExtension, Answered, Changed, Pop;
      ApplyStaysValid(Value(), cursor, c);
      if IsScreenExtension(c) {
        return;
      }
      AnsweredStaysValid(Value(), cursor, c);
      Answer(cursor, c);
      Change(c);
    }

    // What the sequence does to the modes.
    method Change(c: Csi)
      requires Valid(Value())
      modifies this
      ensures Value() == Changed(old(Value()), c)
    {
      hide Param, Clamp, SetFlags, Pop;
      var value, second := Param(c.params, 0, 0), Param(c.params, 1, 1);
      match (c.marker, c.command) {
        case (Some(' '), 'q') =>
          if value <= 6 {
            cursorStyle := Some(value);
          }
        case (Some('?'), 'h') =>
          if value == 12 {
            cursorBlink := Some(true);
          } else if value == 1004 {
            focus := true;
          }
        case (Some('?'), 'l') =>
          if value == 12 {
            cursorBlink := Some(false);
          } else if value == 1004 {
            focus := false;
          }
        case (Some('>'), 'u') =>
          if |stack| == STACK_LIMIT {
            stack := stack[1..];
          }
          stack := stack + [kitty];
          kitty := value;
        case (Some('<'), 'u') =>
          PopFlags(Clamp(value));
        case (Some('='), 'u') =>
          kitty := SetFlags(kitty, value, second);
        case (Some('>'), 'm') =>
          if value == 4 {
            modifyKeys := second;
          }
        case _ =>
      }
    }
  }

  // ---- reading control sequences from a byte stream ----

  function Saturate(n: nat): u16 {
    if n < 65536 then n as u16 else 65535
  }

  // Parameters up to the first character that is not part of them; cur is the
  // number being read.
  function ReadParams(s: string, done: seq<seq<u16>>, cur: u16): (seq<seq<u16>>, string)
    decreases |s|
  {
    if s != "" && IsDigit(s[0]) then
      ReadParams(s[1..], done, Saturate(10 * (cur as nat) + Decimal.DigitValue(s[0])))
    else if s != "" && s[0] == ';' then ReadParams(s[1..], done + [[cur]], 0)
    else (done + [[cur]], s)
  }

  lemma {:induction false} ReadParamsShrinks(s: string, done: seq<seq<u16>>, cur: u16)
    ensures |ReadParams(s, done, cur).1| <= |s|
    decreases |s|
  {
    if s != "" && IsDigit(s[0]) {
      ReadParamsShrinks(s[1..], done, Saturate(10 * (cur as nat) + Decimal.DigitValue(s[0])));
    } else if s != "" && s[0] == ';' {
      ReadParamsShrinks(s[1..], done + [[cur]], 0);
    }
  }

  // What follows the introducer: a private marker, parameters, at most one
  // intermediate, the final character.
  function ReadCsi(s: string): (r: Option<(Csi, string)>)
    ensures r.Some? ==> |r.value.1| < |s|
  {
    var marker := if s != "" && '<' <= s[0] <= '?' then Some(s[0]) else None;
    var t := if marker.Some? then s[1..] else s;
    ReadParamsShrinks(t, [], 0);
    var (params, u) := ReadParams(t, [], 0);
    var inter := if u != "" && ' ' <= u[0] <= '/' then Some(u[0]) else None;
    var v := if inter.Some? then u[1..] else u;
    if v != "" && '@' <= v[0] <= '~' then
      Some((Csi(if marker.Some? then marker else inter, params, v[0]), v[1..]))
    else None
  }

  // The modes after a stretch of output; other output does not touch them.
  function Feed(m: Modes, cursor: (nat, nat), s: string): Modes
    decreases |s|
  {
    if s == "" then m
    else if s[0] == ESC && |s| > 1 && s[1] == '[' then
      match ReadCsi(s[2..])
      case None => m
      case Some((c, rest)) => Feed(Apply(m, cursor, c), cursor, rest)
    else Feed(m, cursor, s[1..])
  }

  // ---- replay ----

  function Num(n: u16): string { Decimal.Print(n as nat) }

  function PushAll(flags: seq<u16>): string {
    if flags == [] then "" else [ESC] + "[>" + Num(flags[0]) + "u" + PushAll(flags[1..])
  }

  function StylePart(m: Modes): string {
    if m.cursorStyle.Some? then [ESC] + "[" + Num(m.cursorStyle.value) + " q" else ""
  }

  function BlinkPart(m: Modes): string {
    if m.cursorBlink.Some? then [ESC] + "[?12" + (if m.cursorBlink.value then "h" else "l") else ""
  }

  function StackPart(m: Modes): string {
    if m.stack != [] then [ESC] + "[=" + Num(m.stack[0]) + "u" + PushAll(m.stack[1..] + [m.kitty])
    else [ESC] + "[=" + Num(m.kitty) + "u"
  }

  function KeysPart(m: Modes): string {
    [ESC] + "[>4;" + Num(m.modifyKeys) + "m"
  }

  function FocusPart(m: Modes): string {
    [ESC] + "[?1004" + (if m.focus then "h" else "l")
  }

  const RESET_PART := [ESC] + "[<16u"

  function RestoreModes(m: Modes): string {
    StylePart(m) + BlinkPart(m) + RESET_PART + StackPart(m) + KeysPart(m) + FocusPart(m)
  }

  // ---- a printed sequence is read back as itself ----

  function Fold(cur: u16, ds: string): u16
    requires Decimal.AllDigits(ds)
    decreases |ds|
  {
    if ds == "" then cur else Fold(Saturate(10 * (cur as nat) + Decimal.DigitValue(ds[0])), ds[1..])
  }

  lemma {:induction false} FoldSnoc(cur: u16, ds: string, c: char)
    requires Decimal.AllDigits(ds) && IsDigit(c)
    ensures Fold(cur, ds + [c]) == Saturate(10 * (Fold(cur, ds) as nat) + Decimal.DigitValue(c))
    decreases |ds|
  {
    if ds == "" {
      assert Fold(cur, [c]) == Fold(Saturate(10 * (cur as nat) + Decimal.DigitValue(c)), "");
      assert "" + [c] == [c];
    } else {
      assert (ds + [c])[1..] == ds[1..] + [c];
      FoldSnoc(Saturate(10 * (cur as nat) + Decimal.DigitValue(ds[0])), ds[1..], c);
    }
  }

  // A number above 65535 counts as that.
  lemma {:induction false} FoldPrint(n: nat)
    ensures Fold(0, Decimal.Print(n)) as nat == if n < 65536 then n else 65535
  {
    if n < 10 {
      assert Decimal.Print(n)[1..] == "";
    } else {
      FoldPrint(n / 10);
      FoldSnoc(0, Decimal.Print(n / 10), Decimal.Digit(n % 10));
    }
  }

  lemma {:induction false} ReadDigits(ds: string, t: string, done: seq<seq<u16>>, cur: u16)
    requires Decimal.AllDigits(ds)
    ensures ReadParams(ds + t, done, cur) == ReadParams(t, done, Fold(cur, ds))
    decreases |ds|
  {
    if ds == "" {
      assert ds + t == t;
    } else {
      assert (ds + t)[1..] == ds[1..] + t;
      ReadDigits(ds[1..], t, done, Saturate(10 * (cur as nat) + Decimal.DigitValue(ds[0])));
    }
  }

  lemma ReadNumber(n: u16, t: string, done: seq<seq<u16>>)
    ensures ReadParams(Num(n) + t, done, 0) == ReadParams(t, done, n)
  {
    FoldPrint(n as nat);
    ReadDigits(Num(n), t, done, 0);
  }

  predicate IsMarker(c: char) { '<' <= c <= '?' }

  predicate IsFinal(c: char) { '@' <= c <= '~' }

  lemma ReadOne(marker: char, n: u16, command: char, t: string)
    requires IsMarker(marker) && IsFinal(command)
    ensures ReadCsi([marker] + Num(n) + [command] + t) == Some((Csi(Some(marker), [[n]], command), t))
  {
    var s := [marker] + Num(n) + [command] + t;
    assert s[1..] == Num(n) + ([command] + t);
    ReadNumber(n, [command] + t, []);
    assert [] + [[n]] == [[n]];
    assert ([command] + t)[1..] == t;
  }

  lemma ReadTwo(marker: char, a: u16, b: u16, command: char, t: string)
    requires IsMarker(marker) && IsFinal(command)
    ensures ReadCsi([marker] + Num(a) + ";" + Num(b) + [command] + t) == Some((Csi(Some(marker), [[a], [b]], command), t))
  {
    var s := [marker] + Num(a) + ";" + Num(b) + [command] + t;
    var u := Num(b) + ([command] + t);
    assert s[1..] == Num(a) + (";" + u);
    ReadNumber(a, ";" + u, []);
    assert (";" + u)[1..] == u;
    ReadNumber(b, [command] + t, [] + [[a]]);
    assert [] + [[a]] + [[b]] == [[a], [b]];
    assert ([command] + t)[1..] == t;
  }

  lemma ReadSpaced(n: u16, t: string)
    ensures ReadCsi(Num(n) + " q" + t) == Some((Csi(Some(' '), [[n]], 'q'), t))
  {
    var s := Num(n) + " q" + t;
    assert s == Num(n) + (" q" + t);
    assert IsDigit(s[0]) by { assert s[0] == Num(n)[0]; }
    ReadNumber(n, " q" + t, []);
    assert [] + [[n]] == [[n]];
    assert (" q" + t)[1..] == "q" + t && ("q" + t)[1..] == t;
  }

  lemma FeedCsi(m: Modes, cursor: (nat, nat), body: string, c: Csi, t: string)
    requires ReadCsi(body + t) == Some((c, t))
    ensures Feed(m, cursor, [ESC] + "[" + body + t) == Feed(Apply(m, cursor, c), cursor, t)
  {
    var s := [ESC] + "[" + body + t;
    assert s[2..] == body + t;
  }

  // ---- each part of a replay does its share ----

  lemma FeedStyle(m: Modes, r: Modes, cursor: (nat, nat), t: string)
    requires Valid(m)
    ensures Feed(r, cursor, StylePart(m) + t) == Feed(r.(cursorStyle := if m.cursorStyle.Some? then m.cursorStyle else r.cursorStyle), cursor, t)
  {
    hide Feed, ReadCsi;
    if m.cursorStyle.Some? {
      var body := Num(m.cursorStyle.value) + " q";
      ReadSpaced(m.cursorStyle.value, t);
      FeedCsi(r, cursor, body, Csi(Some(' '), [[m.cursorStyle.value]], 'q'), t);
      assert StylePart(m) + t == [ESC] + "[" + body + t;
    } else {
      assert StylePart(m) + t == t;
    }
  }

  // The literal numerals of the source, as the printer writes them.
  lemma Literals()
    ensures Num(4) == "4" && Num(12) == "12" && Num(16) == "16" && Num(1004) == "1004"
  {
    assert Decimal.Print(1) == "1" && Decimal.Print(10) == "10" && Decimal.Print(100) == "100";
  }

  lemma FeedSwitch(r: Modes, cursor: (nat, nat), n: u16, on: bool, t: string)
    ensures Feed(r, cursor, [ESC] + "[?" + Num(n) + (if on then "h" else "l") + t)
         == Feed(Apply(r, cursor, Csi(Some('?'), [[n]], if on then 'h' else 'l')), cursor, t)
  {
    hide Feed, ReadCsi, Apply;
    var command := if on then 'h' else 'l';
    var body := ['?'] + Num(n) + [command];
    ReadOne('?', n, command, t);
    FeedCsi(r, cursor, body, Csi(Some('?'), [[n]], command), t);
    assert [ESC] + "[?" + Num(n) + (if on then "h" else "l") + t == [ESC] + "[" + body + t;
  }

  lemma FeedBlink(m: Modes, r: Modes, cursor: (nat, nat), t: string)
    ensures Feed(r, cursor, BlinkPart(m) + t)
         == Feed(r.(cursorBlink := if m.cursorBlink.Some? then m.cursorBlink else r.cursorBlink), cursor, t)
  {
    hide Feed;
    if m.cursorBlink.Some? {
      Literals();
      assert BlinkPart(m) + t == [ESC] + "[?" + Num(12) + (if m.cursorBlink.value then "h" else "l") + t;
      FeedSwitch(r, cursor, 12, m.cursorBlink.value, t);
    } else {
      assert BlinkPart(m) + t == t;
    }
  }

  lemma FeedFocus(m: Modes, r: Modes, cursor: (nat, nat), t: string)
    ensures Feed(r, cursor, FocusPart(m) + t) == Feed(r.(focus := m.focus), cursor, t)
  {
    hide Feed;
    Literals();
    assert FocusPart(m) + t == [ESC] + "[?" + Num(1004) + (if m.focus then "h" else "l") + t;
    FeedSwitch(r, cursor, 1004, m.focus, t);
  }

  lemma FeedKeys(m: Modes, r: Modes, cursor: (nat, nat), t: string)
    ensures Feed(r, cursor, KeysPart(m) + t) == Feed(r.(modifyKeys := m.modifyKeys), cursor, t)
  {
    hide Feed, ReadCsi;
    Literals();
    var body := ['>'] + Num(4) + ";" + Num(m.modifyKeys) + ['m'];
    ReadTwo('>', 4, m.modifyKeys, 'm', t);
    FeedCsi(r, cursor, body, Csi(Some('>'), [[4], [m.modifyKeys]], 'm'), t);
    assert KeysPart(m) + t == [ESC] + "[" + body + t;
  }

  // 16 pops empty any stack of at most 16; the flags left over are overwritten next.
  lemma {:induction false} PopClears(m: Modes, n: nat)
    requires |m.stack| <= n
    ensures Pop(m, n).stack == [] && Pop(m, n) == m.(stack := [], kitty := Pop(m, n).kitty)
    decreases n
  {
    if n > 0 {
      if m.stack != [] {
        PopClears(m.(kitty := m.stack[|m.stack| - 1], stack := m.stack[..|m.stack| - 1]), n - 1);
      } else {
        PopClears(m.(kitty := 0), n - 1);
      }
    }
  }

  lemma FeedReset(r: Modes, cursor: (nat, nat), t: string)
    requires Valid(r)
    ensures exists k :: Feed(r, cursor, RESET_PART + t) == Feed(r.(stack := [], kitty := k), cursor, t)
  {
    hide Feed, ReadCsi;
    Literals();
    var body := ['<'] + Num(16) + ['u'];
    ReadOne('<', 16, 'u', t);
    FeedCsi(r, cursor, body, Csi(Some('<'), [[16]], 'u'), t);
    assert RESET_PART + t == [ESC] + "[" + body + t;
    PopClears(r, 16);
  }

  lemma FeedSet(r: Modes, cursor: (nat, nat), n: u16, t: string)
    ensures Feed(r, cursor, [ESC] + "[=" + Num(n) + "u" + t) == Feed(r.(kitty := n), cursor, t)
  {
    hide Feed, ReadCsi;
    var body := ['='] + Num(n) + ['u'];
    ReadOne('=', n, 'u', t);
    FeedCsi(r, cursor, body, Csi(Some('='), [[n]], 'u'), t);
    assert [ESC] + "[=" + Num(n) + "u" + t == [ESC] + "[" + body + t;
  }

  lemma FeedPush(r: Modes, cursor: (nat, nat), n: u16, t: string)
    ensures Feed(r, cursor, [ESC] + "[>" + Num(n) + "u" + t) == Feed(Push(r, n), cursor, t)
  {
    hide Feed, ReadCsi;
    var body := ['>'] + Num(n) + ['u'];
    ReadOne('>', n, 'u', t);
    FeedCsi(r, cursor, body, Csi(Some('>'), [[n]], 'u'), t);
    assert [ESC] + "[>" + Num(n) + "u" + t == [ESC] + "[" + body + t;
  }

  // Pushing flags one by one rebuilds the stack, as long as nothing is evicted.
  lemma {:induction false} FeedPushes(r: Modes, cursor: (nat, nat), flags: seq<u16>, t: string)
    requires |r.stack| + |flags| <= STACK_LIMIT
    ensures Feed(r, cursor, PushAll(flags) + t) == Feed(Pushed(r, flags), cursor, t)
    decreases |flags|
  {
    hide Feed;
    if flags == [] {
      assert PushAll(flags) + t == t;
    } else {
      var rest := flags[1..];
      FeedPush(r, cursor, flags[0], PushAll(rest) + t);
      assert PushAll(flags) + t == [ESC] + "[>" + Num(flags[0]) + "u" + (PushAll(rest) + t);
      FeedPushes(Push(r, flags[0]), cursor, rest, t);
      PushedStep(r, flags);
      hide PushAll, Pushed, Num;
    }
  }

  // The flags pushed in order: all but the last end up above the current ones.
  function Pushed(r: Modes, flags: seq<u16>): Modes {
    if flags == [] then r
    else r.(stack := r.stack + [r.kitty] + flags[..|flags| - 1], kitty := flags[|flags| - 1])
  }

  lemma PushedStep(r: Modes, flags: seq<u16>)
    requires flags != [] && |r.stack| + |flags| <= STACK_LIMIT
    ensures Pushed(Push(r, flags[0]), flags[1..]) == Pushed(r, flags)
  {
    var rest := flags[1..];
    if rest == [] {
      assert r.stack + [r.kitty] + flags[..0] == r.stack + [r.kitty];
    } else {
      assert r.stack + [r.kitty] + [flags[0]] + rest[..|rest| - 1] == r.stack + [r.kitty] + flags[..|flags| - 1];
    }
  }

  lemma FeedStack(m: Modes, r: Modes, cursor: (nat, nat), t: string)
    requires Valid(m) && r.stack == []
    ensures Feed(r, cursor, StackPart(m) + t) == Feed(r.(stack := m.stack, kitty := m.kitty), cursor, t)
  {
    hide Feed, ReadCsi;
    if m.stack == [] {
      FeedSet(r, cursor, m.kitty, t);
    } else {
      var flags := m.stack[1..] + [m.kitty];
      FeedSet(r, cursor, m.stack[0], PushAll(flags) + t);
      assert StackPart(m) + t == [ESC] + "[=" + Num(m.stack[0]) + "u" + (PushAll(flags) + t);
      FeedPushes(r.(kitty := m.stack[0]), cursor, flags, t);
      assert [] + [m.stack[0]] + flags[..|flags| - 1] == m.stack;
    }
  }

  // Replaying the modes of one terminal to any other: the keyboard flags, their
  // stack, the modified-key and focus settings become the sender's, and so do the
  // cursor style and blink where the sender has them.  Nothing else changes, and no
  // query is answered.
  lemma {:induction false} ReplayRestores(m: Modes, r: Modes, cursor: (nat, nat))
    requires Valid(m) && Valid(r)
    ensures Feed(r, cursor, RestoreModes(m)) == r.(
        kitty := m.kitty, stack := m.stack, modifyKeys := m.modifyKeys, focus := m.focus,
        cursorStyle := if m.cursorStyle.Some? then m.cursorStyle else r.cursorStyle,
        cursorBlink := if m.cursorBlink.Some? then m.cursorBlink else r.cursorBlink)
  {
    hide Feed, RestoreModes, StylePart, BlinkPart, StackPart, KeysPart, FocusPart, RESET_PART;
    var keys := KeysPart(m) + (FocusPart(m) + "");
    var rest := RESET_PART + (StackPart(m) + keys);
    PartsOf(m);
    var style := if m.cursorStyle.Some? then m.cursorStyle else r.cursorStyle;
    var blink := if m.cursorBlink.Some? then m.cursorBlink else r.cursorBlink;
    FeedStyle(m, r, cursor, BlinkPart(m) + rest);
    FeedBlink(m, r.(cursorStyle := style), cursor, rest);
    var r2 := r.(cursorStyle := style, cursorBlink := blink);
    FeedReset(r2, cursor, StackPart(m) + keys);
    var k :| Feed(r2, cursor, rest) == Feed(r2.(stack := [], kitty := k), cursor, StackPart(m) + keys);
    FeedStack(m, r2.(stack := [], kitty := k), cursor, keys);
    var r3 := r2.(stack := m.stack, kitty := m.kitty);
    FeedKeys(m, r3, cursor, FocusPart(m) + "");
    FeedFocus(m, r3.(modifyKeys := m.modifyKeys), cursor, "");
    FeedNothing(r3.(modifyKeys := m.modifyKeys, focus := m.focus), cursor);
  }

  lemma PartsOf(m: Modes)
    ensures RestoreModes(m) ==
      StylePart(m) + (BlinkPart(m) + (RESET_PART + (StackPart(m) + (KeysPart(m) + (FocusPart(m) + "")))))
  {
    hide StylePart, BlinkPart, StackPart, KeysPart, FocusPart, RESET_PART;
  }

  lemma FeedNothing(m: Modes, cursor: (nat, nat))
    ensures Feed(m, cursor, "") == m
  {}

  // What later keyboard sequences depend on.
  function Keyboard(m: Modes): (u16, seq<u16>, u16, bool) {
    (m.kitty, m.stack, m.modifyKeys, m.focus)
  }

  lemma {:induction false} PopKeyboard(a: Modes, b: Modes, n: nat)
    requires Keyboard(a) == Keyboard(b)
    ensures Keyboard(Pop(a, n)) == Keyboard(Pop(b, n))
    decreases n
  {
    if n > 0 {
      if a.stack == [] {
        PopKeyboard(a.(kitty := 0), b.(kitty := 0), n - 1);
      } else {
        var top, rest := a.stack[|a.stack| - 1], a.stack[..|a.stack| - 1];
        PopKeyboard(a.(kitty := top, stack := rest), b.(kitty := top, stack := rest), n - 1);
      }
    }
  }

  lemma ChangedKeyboardFlags(a: Modes, b: Modes, c: Csi)
    requires Keyboard(a) == Keyboard(b) && c.command == 'u'
    ensures Keyboard(Changed(a, c)) == Keyboard(Changed(b, c))
  {
    hide Pop, SetFlags, Param, Clamp, Push;
    PopKeyboard(a, b, Clamp(Param(c.params, 0, 0)));
    PushKeyboard(a, b, Param(c.params, 0, 0));
  }

  lemma ChangedKeyboard(a: Modes, b: Modes, c: Csi)
    requires Keyboard(a) == Keyboard(b)
    ensures Keyboard(Changed(a, c)) == Keyboard(Changed(b, c))
  {
    hide Pop, SetFlags, Param, Clamp, Push;
    if c.command == 'u' {
      hide Changed;
      ChangedKeyboardFlags(a, b, c);
    }
  }

  lemma PushKeyboard(a: Modes, b: Modes, flags: u16)
    requires Keyboard(a) == Keyboard(b)
    ensures Keyboard(Push(a, flags)) == Keyboard(Push(b, flags))
  {}

  lemma ApplyKeyboard(a: Modes, b: Modes, cursor: (nat, nat), c: Csi)
    requires Keyboard(a) == Keyboard(b)
    ensures Keyboard(Apply(a, cursor, c)) == Keyboard(Apply(b, cursor, c))
  {
    hide Changed, Reply, IsScreenExtension;
    ChangedKeyboard(Answered(a, cursor, c), Answered(b, cursor, c), c);
  }

  lemma {:induction false} FeedKeyboard(a: Modes, b: Modes, cursor: (nat, nat), s: string)
    requires Keyboard(a) == Keyboard(b)
    ensures Keyboard(Feed(a, cursor, s)) == Keyboard(Feed(b, cursor, s))
    decreases |s|
  {
    if s != "" {
      if s[0] == ESC && |s| > 1 && s[1] == '[' {
        match ReadCsi(s[2..])
        case None =>
        case Some((c, rest)) =>
          ApplyKeyboard(a, b, cursor, c);
          FeedKeyboard(Apply(a, cursor, c), Apply(b, cursor, c), cursor, rest);
      } else {
        FeedKeyboard(a, b, cursor, s[1..]);
      }
    }
  }

  // After a replay, whatever the application sends next moves both terminals' keyboard modes alike.
  lemma {:induction false} ReplayThenAgree(m: Modes, r: Modes, cursor: (nat, nat), later: string)
    requires Valid(m) && Valid(r)
    ensures Keyboard(Feed(Feed(r, cursor, RestoreModes(m)), cursor, later)) == Keyboard(Feed(m, cursor, later))
  {
    ReplayRestores(m, r, cursor);
    hide Feed, RestoreModes;
    FeedKeyboard(Feed(r, cursor, RestoreModes(m)), m, cursor, later);
  }

  lemma {:induction false} PopStaysValid(m: Modes, n: nat)
    requires Valid(m)
    ensures Valid(Pop(m, n))
    decreases n
  {
    if n > 0 {
      if m.stack == [] {
        PopStaysValid(m.(kitty := 0), n - 1);
      } else {
        PopStaysValid(m.(kitty := m.stack[|m.stack| - 1], stack := m.stack[..|m.stack| - 1]), n - 1);
      }
    }
  }

  // However much output is processed, the stack holds at most 16 entries and a
  // recorded cursor style is one the replay can express.
  lemma {:induction false} FeedStaysValid(m: Modes, cursor: (nat, nat), s: string)
    requires Valid(m)
    ensures Valid(Feed(m, cursor, s))
    decreases |s|
  {
    if s != "" {
      if s[0] == ESC && |s| > 1 && s[1] == '[' {
        match ReadCsi(s[2..])
        case None =>
        case Some((c, rest)) =>
          ApplyStaysValid(m, cursor, c);
          FeedStaysValid(Apply(m, cursor, c), cursor, rest);
      } else {
        FeedStaysValid(m, cursor, s[1..]);
      }
    }
  }

  lemma AnsweredStaysValid(m: Modes, cursor: (nat, nat), c: Csi)
    requires Valid(m)
    ensures Valid(Answered(m, cursor, c))
  {
    hide Reply;
  }

  lemma ApplyStaysValid(m: Modes, cursor: (nat, nat), c: Csi)
    requires Valid(m)
    ensures Valid(Apply(m, cursor, c))
  {
    hide Pop, SetFlags, Reply, IsScreenExtension;
    PopStaysValid(Answered(m, cursor, c), Clamp(Param(c.params, 0, 0)));
  }

  // ---- what the sequences mean ----

  // n pops restore the flags saved by the n-th last push and drop what was pushed since;
  // more pops than there are entries leave no flags.
  lemma {:induction false} PopRestores(m: Modes, n: nat)
    ensures n == 0 ==> Pop(m, n) == m
    ensures 0 < n <= |m.stack| ==> Pop(m, n) == m.(kitty := m.stack[|m.stack| - n], stack := m.stack[..|m.stack| - n])
    ensures n > |m.stack| ==> Pop(m, n) == m.(kitty := 0, stack := [])
    decreases n
  {
    if n > 0 {
      if m.stack == [] {
        PopRestores(m.(kitty := 0), n - 1);
      } else {
        var rest := m.stack[..|m.stack| - 1];
        PopRestores(m.(kitty := m.stack[|m.stack| - 1], stack := rest), n - 1);
        if 1 < n <= |m.stack| {
          assert rest[|rest| - (n - 1)] == m.stack[|m.stack| - n];
          assert rest[..|rest| - (n - 1)] == m.stack[..|m.stack| - n];
        }
      }
    }
  }

  // A pop undoes a push, up to the oldest entry that a full stack loses.
  lemma PopUndoesPush(m: Modes, flags: u16)
    requires |m.stack| <= 16
    ensures Push(m, flags).kitty == flags && |Push(m, flags).stack| <= 16
    ensures |m.stack| < 16 ==> Pop(Push(m, flags), 1) == m
    ensures |m.stack| == 16 ==> Pop(Push(m, flags), 1) == m.(stack := m.stack[1..])
  {
    var pushed := Push(m, flags);
    PopRestores(pushed, 1);
    assert pushed.stack[..|pushed.stack| - 1] == if |m.stack| == STACK_LIMIT then m.stack[1..] else m.stack;
  }

  lemma BitsThere(b: bv16)
    ensures (b as u16) as bv16 == b
  {
  }

  // 2 adds the given flags, 3 removes them, anything else replaces all.
  lemma {:induction false} SetFlagsWord(kitty: u16, value: u16, how: u16)
    ensures how == 2 ==> SetFlags(kitty, value, how) as bv16 == AddBits(kitty as bv16, value as bv16)
    ensures how == 3 ==> SetFlags(kitty, value, how) as bv16 == DropBits(kitty as bv16, value as bv16)
    ensures how != 2 && how != 3 ==> SetFlags(kitty, value, how) == value
  {
    hide AddBits, DropBits;
    BitsThere(AddBits(kitty as bv16, value as bv16));
    BitsThere(DropBits(kitty as bv16, value as bv16));
  }

  // Adding gives the flags that were set before and those added.
  lemma AddsEachBit(flags: bv16, more: bv16, bit: bv16)
    ensures AddBits(flags, more) & bit == (flags & bit) | (more & bit)
  {
  }

  // A flag that is removed is not set, and every other one is as it was.
  lemma DropsEachBit(flags: bv16, less: bv16, bit: bv16)
    ensures less & bit == bit ==> DropBits(flags, less) & bit == 0
    ensures less & bit == 0 ==> DropBits(flags, less) & bit == flags & bit
  {
  }

  // The keyboard sequences by their text: push, pop a number of times from 1 to 16, and
  // set, each with its defaults.
  lemma PushAndPopSequences(m: Modes, cursor: (nat, nat), a: u16)
    requires !m.headless
    ensures Apply(m, cursor, Csi(Some('>'), [[a]], 'u')) == Push(m, a)
    ensures Apply(m, cursor, Csi(Some('>'), [], 'u')) == Push(m, 0)
    ensures Apply(m, cursor, Csi(Some('<'), [], 'u')) == Pop(m, 1)
    ensures Apply(m, cursor, Csi(Some('<'), [[a]], 'u')) == Pop(m, if a == 0 then 1 else if a > 16 then 16 else a as nat)
  {
    hide Pop, Push;
  }

  lemma SetSequences(m: Modes, cursor: (nat, nat), a: u16, b: u16, subs: seq<u16>)
    requires !m.headless
    ensures Apply(m, cursor, Csi(Some('='), [[a] + subs, [b] + subs], 'u')) == m.(kitty := SetFlags(m.kitty, a, b))
    ensures Apply(m, cursor, Csi(Some('='), [[a]], 'u')) == m.(kitty := a)
    ensures Apply(m, cursor, Csi(Some('='), [[a], [b]], 'u')) == m.(kitty := SetFlags(m.kitty, a, b))
    ensures Apply(m, cursor, Csi(Some('>'), [[4], [b]], 'm')) == m.(modifyKeys := b)
    ensures a != 4 ==> Apply(m, cursor, Csi(Some('>'), [[a], [b]], 'm')) == m
  {
    assert SetFlags(m.kitty, a, 1) == a;
    hide SetFlags, Pop, Push;
  }

  // Focus reports, cursor blink and cursor style by their sequences.
  lemma ModeSequences(m: Modes, cursor: (nat, nat), a: u16)
    requires !m.headless
    ensures Apply(m, cursor, Csi(Some('?'), [[1004]], 'h')) == m.(focus := true)
    ensures Apply(m, cursor, Csi(Some('?'), [[1004]], 'l')) == m.(focus := false)
    ensures Apply(m, cursor, Csi(Some('?'), [[12]], 'h')) == m.(cursorBlink := Some(true))
    ensures Apply(m, cursor, Csi(Some('?'), [[12]], 'l')) == m.(cursorBlink := Some(false))
    ensures a != 12 && a != 1004 ==> Apply(m, cursor, Csi(Some('?'), [[a]], 'h')) == Apply(m, cursor, Csi(Some('?'), [[a]], 'l')) == m
    ensures Apply(m, cursor, Csi(Some(' '), [[a]], 'q')) == if a <= 6 then m.(cursorStyle := Some(a)) else m
  {
  }

  // Queries are answered exactly while nobody is attached, and change nothing else.
  lemma QueriesAnswered(m: Modes, row: nat, col: nat)
    ensures var said := reply => if m.headless then m.(replies := m.replies + reply) else m;
            && Apply(m, (row, col), Csi(None, [[5]], 'n')) == said([ESC] + "[0n")
            && Apply(m, (row, col), Csi(None, [[6]], 'n')) ==
               said([ESC] + "[" + Decimal.Print(row + 1) + ";" + Decimal.Print(col + 1) + "R")
            && Apply(m, (row, col), Csi(None, [], 'c')) == said([ESC] + "[?1;2c")
            && Apply(m, (row, col), Csi(Some('>'), [], 'c')) == said([ESC] + "[>0;1;0c")
            && Apply(m, (row, col), Csi(Some('?'), [], 'u')) == said([ESC] + "[?" + Decimal.Print(m.kitty as nat) + "u")
  {
  }

  // Saving and restoring the cursor and switching screens are left to the screen.
  lemma ScreenSequencesIgnored(m: Modes, cursor: (nat, nat))
    ensures forall c :: c in [Csi(None, [], 's'), Csi(None, [[0]], 's'), Csi(None, [], 'u'), Csi(None, [[0]], 'u'),
                              Csi(Some('?'), [[1047]], 'h'), Csi(Some('?'), [[1047]], 'l'),
                              Csi(Some('?'), [[1048]], 'h'), Csi(Some('?'), [[1048]], 'l')] ==>
              Apply(m, cursor, c) == m
  {
  }
}
