// Text and named keys sent to a session, as the bytes typed into its terminal.
//
// Strings here are sequences of characters; the UTF-8 encoding applied to the
// result is outside the model.
module KeyEncoding {
  import opened Common
  import opened Strings
  import opened TerminalModes
  import Decimal

  // What the encoder looks at in the parsed screen.
  datatype Terminal = Terminal(bracketedPaste: bool, applicationCursor: bool, kitty: u16)

  predicate Flag(kitty: u16, bit: bv16) {
    (kitty as bv16) & bit != 0
  }

  datatype Mods = Mods(shift: bool, alt: bool, ctrl: bool) {
    function Value(): (n: nat)
      ensures n < 8
    {
      (if shift then 1 else 0) + (if alt then 2 else 0) + (if ctrl then 4 else 0)
    }

    function With(m: Mods): Mods {
      Mods(shift || m.shift, alt || m.alt, ctrl || m.ctrl)
    }
  }

  const PLAIN := Mods(false, false, false)

  // A key after its name was looked up: its code, what a legacy terminal types for
  // it, and for cursor and function keys the number and final character of its
  // control sequence.
  datatype Named = Named(code: nat, legacy: string, csi: Option<(nat, char)>)

  function Lookup(name: string): Option<Named> {
    if name == "enter" || name == "return" || name == "\n" || name == "\r" then Some(Named(13, "\r", None))
    else if name == "tab" || name == "\t" then Some(Named(9, "\t", None))
    else if name == "escape" || name == "esc" then Some(Named(27, [ESC], None))
    else if name == "backspace" then Some(Named(127, [127 as char], None))
    else if name == "space" then Some(Named(32, " ", None))
    else if name == "up" then Some(Named(57352, "", Some((1, 'A'))))
    else if name == "down" then Some(Named(57353, "", Some((1, 'B'))))
    else if name == "right" then Some(Named(57351, "", Some((1, 'C'))))
    else if name == "left" then Some(Named(57350, "", Some((1, 'D'))))
    else if name == "home" then Some(Named(57356, "", Some((1, 'H'))))
    else if name == "end" then Some(Named(57357, "", Some((1, 'F'))))
    else if name == "insert" then Some(Named(57348, "", Some((2, '~'))))
    else if name == "delete" then Some(Named(57349, "", Some((3, '~'))))
    else if name == "f1" then Some(Named(57364, "", Some((1, 'P'))))
    else if name == "f2" then Some(Named(57365, "", Some((1, 'Q'))))
    else if name == "f3" then Some(Named(57366, "", Some((13, '~'))))
    else if name == "f4" then Some(Named(57367, "", Some((1, 'S'))))
    else if name == "f5" then Some(Named(57368, "", Some((15, '~'))))
    else if name == "f6" then Some(Named(57369, "", Some((17, '~'))))
    else if name == "f7" then Some(Named(57370, "", Some((18, '~'))))
    else if name == "f8" then Some(Named(57371, "", Some((19, '~'))))
    else if name == "f9" then Some(Named(57372, "", Some((20, '~'))))
    else if name == "f10" then Some(Named(57373, "", Some((21, '~'))))
    else if name == "f11" then Some(Named(57374, "", Some((23, '~'))))
    else if name == "f12" then Some(Named(57375, "", Some((24, '~'))))
    else if name == "pageup" then Some(Named(57354, "", Some((5, '~'))))
    else if name == "pagedown" then Some(Named(57355, "", Some((6, '~'))))
    else None
  }

  function Modifier(part: string): Option<Mods> {
    var lower := Lower(part);
    if lower == "shift" then Some(Mods(true, false, false))
    else if lower == "alt" then Some(Mods(false, true, false))
    else if lower == "ctrl" || lower == "control" then Some(Mods(false, false, true))
    else None
  }

  function Modifiers(parts: seq<string>): Option<Mods> {
    if parts == [] then Some(PLAIN)
    else
      match (Modifiers(parts[..|parts| - 1]), Modifier(parts[|parts| - 1]))
      case (Some(a), Some(b)) => Some(a.With(b))
      case _ => None
  }

  // A key name taken apart: modifiers, the base name and what it stands for.
  datatype Press = Press(mods: Mods, name: string, key: Named)

  function Interpret(key: string): Option<Press> {
    var parts := Split(key, '+');
    var name := parts[|parts| - 1];
    match Modifiers(parts[..|parts| - 1])
    case None => None
    case Some(mods) =>
      match Lookup(Lower(name))
      case Some(named) => Some(Press(mods, name, named))
      case None =>
        if |name| != 1 then None
        else
          var c := if mods.ctrl then LowerChar(name[0]) else name[0];
          Some(Press(mods, name, Named(c as nat, [c], None)))
  }

  function Sequence(body: string): string {
    [ESC] + "[" + body
  }

  function ControlCode(code: nat): (r: Option<nat>)
    ensures r.Some? ==> r.value < 128
  {
    if code == 9 || code == 13 || code == 27 then Some(code)
    else if code == 127 then Some(8)
    else if code == 32 || code == 64 then Some(0)
    else if 97 <= code <= 122 then Some(code - 96)
    else if 91 <= code <= 95 then Some(code - 64)
    else if code == 63 then Some(127)
    else None
  }

  // Upper case of a one-character name; only ASCII letters are modelled.
  function Upper(name: string): string
    requires |name| == 1
  {
    if 'a' <= name[0] <= 'z' then [(name[0] as int - 32) as char] else name
  }

  function EncodePress(t: Terminal, p: Press): Option<string> {
    var m, k := p.mods, p.key;
    match k.csi
    case Some((number, suffix)) =>
      if m.Value() != 0 then
        Some(Sequence(Decimal.Print(number) + ";" + Decimal.Print(m.Value() + 1) + [suffix]))
      else if suffix == '~' then Some(Sequence(Decimal.Print(number) + "~"))
      else if (t.applicationCursor || suffix in "PQS") && t.kitty == 0 then Some([ESC] + "O" + [suffix])
      else Some(Sequence([suffix]))
    case None =>
      if Flag(t.kitty, 8) || (Flag(t.kitty, 1) && (m.Value() != 0 || k.code == 27)) then
        Some(Sequence(Decimal.Print(k.code) + ";" + Decimal.Print(m.Value() + 1) + "u"))
      else if k.code == 9 && m == Mods(true, false, false) then Some(Sequence("Z"))
      else
        var prefix := if m.alt then [ESC] else "";
        if m.ctrl then
          match ControlCode(k.code)
          case Some(control) => Some(prefix + [control as char])
          case None => None
        else if m.shift && |p.name| == 1 then Some(prefix + Upper(p.name))
        else Some(prefix + k.legacy)
  }

  function EncodeKey(t: Terminal, key: string): Option<string> {
    match Interpret(key)
    case None => None
    case Some(p) => EncodePress(t, p)
  }

  function EncodeKeys(t: Terminal, keys: seq<string>): Option<string> {
    if keys == [] then Some("")
    else
      match (EncodeKey(t, keys[0]), EncodeKeys(t, keys[1..]))
      case (Some(a), Some(b)) => Some(a + b)
      case _ => None
  }

  // Rust's char::is_control.
  predicate IsControl(c: char) {
    c as int < 0x20 || 0x7f <= c as int <= 0x9f
  }

  predicate TypeableChar(c: char) {
    !IsControl(c) || c == '\n' || c == '\r' || c == '\t'
  }

  function Chars(text: string): seq<string> {
    seq(|text|, i requires 0 <= i < |text| => [text[i]])
  }

  const PASTE_START := Sequence("200~")
  const PASTE_END := Sequence("201~")

  function EncodeText(t: Terminal, text: string): Option<string> {
    if text == "" then Some("")
    else if t.bracketedPaste then Some(PASTE_START + text + PASTE_END)
    else if Flag(t.kitty, 8) then EncodeKeys(t, Chars(text))
    else Some(text)
  }

  function TerminalInput(t: Terminal, text: string, keys: seq<string>): Option<string> {
    if exists i :: 0 <= i < |text| && !TypeableChar(text[i]) then None
    else
      match (EncodeText(t, text), EncodeKeys(t, keys))
      case (Some(a), Some(b)) => Some(a + b)
      case _ => None
  }

  // ---- reading it back ----

  // What a key press means to the application, whatever alias named it.
  datatype Key = Functional(number: nat, suffix: char, mods: Mods) | Coded(code: nat, mods: Mods)

  function Canonical(p: Press): Key {
    match p.key.csi
    case Some((number, suffix)) => Functional(number, suffix, p.mods)
    case None => Coded(p.key.code, p.mods)
  }

  function CanonicalKeys(keys: seq<string>): seq<Key>
    requires forall i :: 0 <= i < |keys| ==> Interpret(keys[i]).Some?
  {
    seq(|keys|, i requires 0 <= i < |keys| => Canonical(Interpret(keys[i]).value))
  }

  function ModsOf(n: nat): Mods {
    Mods(n % 2 == 1, n / 2 % 2 == 1, n / 4 % 2 == 1)
  }

  function TakeDigits(s: string): (r: (string, string))
    ensures Decimal.AllDigits(r.0) && r.0 + r.1 == s
  {
    if s == "" || !IsDigit(s[0]) then ("", s)
    else
      var (ds, rest) := TakeDigits(s[1..]);
      ([s[0]] + ds, rest)
  }

  // One control sequence: introducer, at most two numbers, one final character.
  function DecodeKey(s: string): (r: Option<(Key, string)>)
    ensures r.Some? ==> |r.value.1| < |s|
  {
    if |s| < 3 || s[0] != ESC || s[1] != '[' then None
    else
      var (number, u) := TakeDigits(s[2..]);
      if u == "" then None
      else if number == "" then Some((Functional(1, u[0], PLAIN), u[1..]))
      else if u[0] != ';' then Some((Functional(Decimal.Value(number), u[0], PLAIN), u[1..]))
      else
        var (mods, v) := TakeDigits(u[1..]);
        if v == "" || mods == "" || Decimal.Value(mods) == 0 then None
        else
          var m := ModsOf(Decimal.Value(mods) - 1);
          Some((if v[0] == 'u' then Coded(Decimal.Value(number), m) else Functional(Decimal.Value(number), v[0], m), v[1..]))
  }

  function DecodeKeys(s: string): Option<seq<Key>>
    decreases |s|
  {
    if s == "" then Some([])
    else
      match DecodeKey(s)
      case None => None
      case Some((k, rest)) =>
        match DecodeKeys(rest)
        case None => None
        case Some(ks) => Some([k] + ks)
  }

  const BEGIN_PASTE := Functional(200, '~', PLAIN)
  const FINISH_PASTE := Functional(201, '~', PLAIN)

  function Paired(text: string, keys: Option<seq<Key>>): Option<(string, seq<Key>)> {
    match keys
    case None => None
    case Some(ks) => Some((text, ks))
  }

  // A bracketed paste, if there is one, then keys.
  function Decode(s: string): Option<(string, seq<Key>)> {
    var first := DecodeKey(s);
    if first.None? || first.value.0 != BEGIN_PASTE then Paired("", DecodeKeys(s))
    else
      var rest := first.value.1;
      match First(rest, ESC)
      case None => None
      case Some(i) =>
        var last := DecodeKey(rest[i..]);
        if last.None? || last.value.0 != FINISH_PASTE then None else Paired(rest[..i], DecodeKeys(last.value.1))
  }

  // ---- decoding undoes encoding ----

  lemma {:induction false} TakePrinted(ds: string, c: char, t: string)
    requires Decimal.AllDigits(ds) && !IsDigit(c)
    ensures TakeDigits(ds + ([c] + t)) == (ds, [c] + t)
    decreases |ds|
  {
    if ds == "" {
      assert ds + ([c] + t) == [c] + t;
    } else {
      assert (ds + ([c] + t))[1..] == ds[1..] + ([c] + t);
      TakePrinted(ds[1..], c, t);
      assert [ds[0]] + ds[1..] == ds;
    }
  }

  lemma ModsRoundTrip(m: Mods)
    ensures ModsOf(m.Value()) == m
  {}

  // A cursor or function key that is printed with both numbers, and any coded key.
  lemma DecodeTwo(number: nat, m: Mods, final: char, t: string)
    requires !IsDigit(final)
    ensures DecodeKey(Sequence(Decimal.Print(number) + ";" + Decimal.Print(m.Value() + 1) + [final]) + t)
         == Some((if final == 'u' then Coded(number, m) else Functional(number, final, m), t))
  {
    hide Decimal.Print, Decimal.Value, TakeDigits, ModsOf;
    var a, b := Decimal.Print(number), Decimal.Print(m.Value() + 1);
    Decimal.ValuePrint(number);
    Decimal.ValuePrint(m.Value() + 1);
    ModsRoundTrip(m);
    var s := Sequence(a + ";" + b + [final]) + t;
    assert s[2..] == a + ([';'] + (b + ([final] + t)));
    TakePrinted(a, ';', b + ([final] + t));
    assert ([';'] + (b + ([final] + t)))[1..] == b + ([final] + t);
    TakePrinted(b, final, t);
    assert ([final] + t)[1..] == t;
  }

  lemma DecodeNumbered(number: nat, t: string)
    ensures DecodeKey(Sequence(Decimal.Print(number) + "~") + t) == Some((Functional(number, '~', PLAIN), t))
  {
    var a := Decimal.Print(number);
    var s := Sequence(a + "~") + t;
    assert s[2..] == a + (['~'] + t);
    TakePrinted(a, '~', t);
    Decimal.ValuePrint(number);
    assert (['~'] + t)[1..] == t;
  }

  lemma DecodeLetter(final: char, t: string)
    requires !IsDigit(final)
    ensures DecodeKey(Sequence([final]) + t) == Some((Functional(1, final, PLAIN), t))
  {
    assert (Sequence([final]) + t)[2..] == [final] + t;
    assert ([final] + t)[1..] == t;
  }

  lemma LookupNumbers(name: string)
    ensures match Lookup(name)
      case Some(Named(code, _, Some((number, suffix)))) =>
        number <= 24 && !IsDigit(suffix) && suffix != 'u' && (suffix != '~' ==> number == 1)
      case _ => true
  {}

  // With the flag that reports all keys as escape codes, every accepted key is one
  // control sequence that is read back as the key it stands for, whatever follows.
  lemma {:induction false} KeyDecodes(t: Terminal, key: string, tail: string)
    requires Flag(t.kitty, 8) && EncodeKey(t, key).Some?
    ensures Interpret(key).Some?
    ensures DecodeKey(EncodeKey(t, key).value + tail) == Some((Canonical(Interpret(key).value), tail))
    ensures Canonical(Interpret(key).value) != BEGIN_PASTE
  {
    var p := Interpret(key).value;
    LookupNumbers(Lower(p.name));
    PressDecodes(t, p, tail);
  }

  lemma FlagSet(kitty: u16)
    requires Flag(kitty, 8)
    ensures kitty != 0
  {}

  lemma PressDecodes(t: Terminal, p: Press, tail: string)
    requires Flag(t.kitty, 8) && EncodePress(t, p).Some?
    requires match p.key.csi
      case Some((number, suffix)) => !IsDigit(suffix) && suffix != 'u' && (suffix != '~' ==> number == 1)
      case None => true
    ensures DecodeKey(EncodePress(t, p).value + tail) == Some((Canonical(p), tail))
  {
    hide DecodeKey;
    var m, k := p.mods, p.key;
    FlagSet(t.kitty);
    match k.csi
    case Some((number, suffix)) =>
      if m.Value() != 0 {
        DecodeTwo(number, m, suffix, tail);
      } else if suffix == '~' {
        DecodeNumbered(number, tail);
      } else {
        DecodeLetter(suffix, tail);
      }
    case None =>
      assert "u" == ['u'];
      DecodeTwo(k.code, m, 'u', tail);
  }

  lemma {:induction false} KeysDecode(t: Terminal, keys: seq<string>)
    requires Flag(t.kitty, 8) && EncodeKeys(t, keys).Some?
    ensures forall i :: 0 <= i < |keys| ==> Interpret(keys[i]).Some?
    ensures DecodeKeys(EncodeKeys(t, keys).value) == Some(CanonicalKeys(keys))
    decreases |keys|
  {
    hide EncodeKey, Interpret, DecodeKey, DecodeKeys, Canonical;
    if keys != [] {
      var rest := EncodeKeys(t, keys[1..]).value;
      KeysDecode(t, keys[1..]);
      KeyDecodes(t, keys[0], rest);
      assert EncodeKeys(t, keys).value == EncodeKey(t, keys[0]).value + rest;
      DecodeKeysCons(EncodeKeys(t, keys).value, Canonical(Interpret(keys[0]).value), rest, CanonicalKeys(keys[1..]));
      assert forall i :: 1 <= i < |keys| ==> keys[i] == keys[1..][i - 1];
      assert CanonicalKeys(keys) == [Canonical(Interpret(keys[0]).value)] + CanonicalKeys(keys[1..]);
    } else {
      assert CanonicalKeys(keys) == [];
      NothingDecodes();
    }
  }

  lemma NothingDecodes()
    ensures DecodeKeys("") == Some([])
  {}

  lemma DecodeKeysCons(s: string, k: Key, rest: string, ks: seq<Key>)
    requires DecodeKey(s) == Some((k, rest)) && DecodeKeys(rest) == Some(ks)
    ensures DecodeKeys(s) == Some([k] + ks)
  {
    hide DecodeKey;
  }

  lemma TypeableHasNoEscape(text: string)
    requires forall i :: 0 <= i < |text| ==> TypeableChar(text[i])
    ensures ESC !in text
  {}

  // With bracketed paste and all keys reported as escape codes, what was sent can be
  // read back from the bytes: the text, and each key up to its aliases.
  lemma {:induction false} SentInputDecodes(t: Terminal, text: string, keys: seq<string>)
    requires t.bracketedPaste && Flag(t.kitty, 8) && TerminalInput(t, text, keys).Some?
    ensures forall i :: 0 <= i < |keys| ==> Interpret(keys[i]).Some?
    ensures Decode(TerminalInput(t, text, keys).value) == Some((text, CanonicalKeys(keys)))
  {
    InputParts(t, text, keys);
    hide TerminalInput, DecodeKey, EncodeKeys, DecodeKeys, Interpret, First, Flag, Decode, EncodeText, CanonicalKeys;
    KeysDecode(t, keys);
    FirstKeyIsNoPaste(t, keys);
    var ks := EncodeKeys(t, keys).value;
    if text == "" {
      DecodeUnpasted(ks);
    } else {
      DecodePasted(text, ks);
    }
  }

  lemma InputParts(t: Terminal, text: string, keys: seq<string>)
    requires t.bracketedPaste && TerminalInput(t, text, keys).Some?
    ensures ESC !in text && EncodeKeys(t, keys).Some?
    ensures var ks := EncodeKeys(t, keys).value;
      TerminalInput(t, text, keys).value == if text == "" then ks else PASTE_START + (text + (PASTE_END + ks))
  {
    hide EncodeKeys, PASTE_START, PASTE_END;
    TypeableHasNoEscape(text);
    var ks := EncodeKeys(t, keys).value;
    assert "" + ks == ks;
    assert PASTE_START + text + PASTE_END + ks == PASTE_START + (text + (PASTE_END + ks));
  }

  lemma DecodeUnpasted(ks: string)
    requires DecodeKey(ks).None? || DecodeKey(ks).value.0 != BEGIN_PASTE
    ensures Decode(ks) == Paired("", DecodeKeys(ks))
  {}

  lemma DecodePasted(text: string, ks: string)
    requires ESC !in text
    ensures Decode(PASTE_START + (text + (PASTE_END + ks))) == Paired(text, DecodeKeys(ks))
  {
    hide DecodeKey, DecodeKeys, First, PASTE_START, PASTE_END;
    PasteMarkers(text, ks);
  }

  lemma FirstKeyIsNoPaste(t: Terminal, keys: seq<string>)
    requires Flag(t.kitty, 8) && EncodeKeys(t, keys).Some?
    ensures var first := DecodeKey(EncodeKeys(t, keys).value); first.None? || first.value.0 != BEGIN_PASTE
  {
    if keys != [] {
      KeyDecodes(t, keys[0], EncodeKeys(t, keys[1..]).value);
    }
  }

  lemma PasteSequences()
    ensures PASTE_START == Sequence(Decimal.Print(200) + "~") && PASTE_END == Sequence(Decimal.Print(201) + "~")
  {
    assert Decimal.Print(2) == "2" && Decimal.Print(20) == "20";
    assert Decimal.Print(200) == "200" && Decimal.Print(201) == "201";
    assert Decimal.Print(200) + "~" == "200~" && Decimal.Print(201) + "~" == "201~";
  }

  lemma {:induction false} PasteMarkers(text: string, ks: string)
    requires ESC !in text
    ensures DecodeKey(PASTE_START + (text + (PASTE_END + ks))) == Some((BEGIN_PASTE, text + (PASTE_END + ks)))
    ensures First(text + (PASTE_END + ks), ESC) == Some(|text|)
    ensures (text + (PASTE_END + ks))[..|text|] == text && (text + (PASTE_END + ks))[|text|..] == PASTE_END + ks
    ensures DecodeKey(PASTE_END + ks) == Some((FINISH_PASTE, ks))
  {
    hide DecodeKey, Decimal.Print, First;
    var rest := text + (PASTE_END + ks);
    PasteSequences();
    DecodeNumbered(200, rest);
    DecodeNumbered(201, ks);
    assert rest[..|text|] == text && rest[|text|..] == PASTE_END + ks;
    assert rest[|text|] == ESC;
    FirstIs(rest, ESC, |text|);
  }

  // So equal bytes mean equal text and equal keys.
  lemma {:induction false} SentInputIsUnambiguous(t: Terminal, text: string, keys: seq<string>, text': string, keys': seq<string>)
    requires t.bracketedPaste && Flag(t.kitty, 8)
    requires TerminalInput(t, text, keys).Some? && TerminalInput(t, text, keys) == TerminalInput(t, text', keys')
    ensures text == text'
    ensures forall i :: 0 <= i < |keys| ==> Interpret(keys[i]).Some?
    ensures forall i :: 0 <= i < |keys'| ==> Interpret(keys'[i]).Some?
    ensures CanonicalKeys(keys) == CanonicalKeys(keys')
  {
    SentInputDecodes(t, text, keys);
    SentInputDecodes(t, text', keys');
  }

  // ---- text typed key by key ----

  // Without bracketed paste each character is looked up as a key name, and '+'
  // separates modifiers there: text is accepted exactly when it has no '+'.
  lemma {:induction false} UnpastedTextAccepted(t: Terminal, text: string)
    requires !t.bracketedPaste && Flag(t.kitty, 8)
    requires forall i :: 0 <= i < |text| ==> TypeableChar(text[i])
    ensures TerminalInput(t, text, []).Some? <==> '+' !in text
  {
    hide Flag, EncodeKey;
    CharsAccepted(t, text);
  }

  lemma {:induction false} CharsAccepted(t: Terminal, text: string)
    requires Flag(t.kitty, 8)
    ensures EncodeKeys(t, Chars(text)).Some? <==> '+' !in text
    decreases |text|
  {
    if text != "" {
      hide EncodeKey;
      CharsAccepted(t, text[1..]);
      assert Chars(text)[1..] == Chars(text[1..]);
      CharAccepted(t, text[0]);
      assert text == [text[0]] + text[1..];
    } else {
      assert Chars(text) == [];
    }
  }

  lemma CharAccepted(t: Terminal, c: char)
    requires Flag(t.kitty, 8)
    ensures EncodeKey(t, [c]).Some? <==> c != '+'
  {
    if c == '+' {
      assert First([c], '+') == Some(0);
      assert [c][..0] == "" && [c][1..] == "";
      assert Split([c], '+') == ["", ""];
      assert Modifier("").None?;
    } else {
      assert Split([c], '+') == [[c]];
      LookupNumbers(Lower([c]));
    }
  }

  // For example "1+1" cannot be sent this way.
  lemma PlusIsRejected(t: Terminal)
    requires !t.bracketedPaste && Flag(t.kitty, 8)
    ensures TerminalInput(t, "1+1", []).None?
  {
    UnpastedTextAccepted(t, "1+1");
    assert "1+1"[1] == '+';
  }

  // The key a control sequence stands for, as terminals document it: cursor and
  // PF keys by their final character, the others by the number before '~'.
  function KeyOfSequence(number: nat, suffix: char): string {
    match suffix
    case 'A' => "up" case 'B' => "down" case 'C' => "right" case 'D' => "left"
    case 'H' => "home" case 'F' => "end"
    case 'P' => "f1" case 'Q' => "f2" case 'S' => "f4"
    case _ =>
      match number
      case 2 => "insert" case 3 => "delete" case 5 => "pageup" case 6 => "pagedown"
      case 13 => "f3" case 15 => "f5" case 17 => "f6" case 18 => "f7" case 19 => "f8"
      case 20 => "f9" case 21 => "f10" case 23 => "f11" case 24 => "f12"
      case _ => ""
  }

  lemma NumbersNameTheirKeys(name: string)
    requires Lookup(name).Some? && Lookup(name).value.csi.Some? && Lookup(name).value.csi.value.1 == '~'
    ensures KeyOfSequence(Lookup(name).value.csi.value.0, '~') == name
  {}

  lemma LettersNameTheirKeys(name: string)
    requires Lookup(name).Some? && Lookup(name).value.csi.Some? && Lookup(name).value.csi.value.1 != '~'
    ensures KeyOfSequence(0, Lookup(name).value.csi.value.1) == name
  {}

  // Each named cursor, editing or function key types the sequence that stands for
  // it, so no two of them are confused.
  lemma SequencesNameTheirKeys(name: string)
    requires Lookup(name).Some? && Lookup(name).value.csi.Some?
    ensures var (number, suffix) := Lookup(name).value.csi.value; KeyOfSequence(number, suffix) == name
  {
    hide Lookup;
    var (number, suffix) := Lookup(name).value.csi.value;
    if suffix == '~' {
      NumbersNameTheirKeys(name);
    } else {
      LettersNameTheirKeys(name);
      NamesAreWords(name);
      KnownLetter(number, suffix);
    }
  }

  lemma NamesAreWords(name: string)
    requires Lookup(name).Some?
    ensures name != ""
  {}

  // A final letter that names a key names it whatever the number.
  lemma KnownLetter(number: nat, suffix: char)
    requires KeyOfSequence(0, suffix) != ""
    ensures KeyOfSequence(number, suffix) == KeyOfSequence(0, suffix)
  {}
}
