// What key names type, said without the encoder's own tables: modifier words before a
// name, and what each character, editing key and function key gives with and without the
// kitty keyboard protocol.
module KeyNames {
  import opened Common
  import opened Strings
  import opened TerminalModes
  import opened KeyEncoding
  import Decimal

  datatype Word = ShiftWord | AltWord | CtrlWord | ControlWord

  function Spelling(w: Word): string {
    match w
    case ShiftWord => "shift"
    case AltWord => "alt"
    case CtrlWord => "ctrl"
    case ControlWord => "control"
  }

  // A name behind its modifier words.
  function KeyText(texts: seq<string>, name: string): string {
    if texts == [] then name else texts[0] + "+" + KeyText(texts[1..], name)
  }

  // The words in any mixture of upper and lower case.
  ghost predicate Spelled(texts: seq<string>, words: seq<Word>) {
    |texts| == |words| && forall i :: 0 <= i < |texts| ==> Lower(texts[i]) == Spelling(words[i])
  }

  predicate Ctrl(words: seq<Word>) {
    CtrlWord in words || ControlWord in words
  }

  // 1 and the sum of 1 for shift, 2 for alt and 4 for ctrl, each counted once.
  function ModifierNumber(words: seq<Word>): nat {
    1 + (if ShiftWord in words then 1 else 0) + (if AltWord in words then 2 else 0) + (if Ctrl(words) then 4 else 0)
  }

  lemma WordHasNoPlus(text: string, w: Word)
    requires Lower(text) == Spelling(w)
    ensures '+' !in text
  {
    assert forall i :: 0 <= i < |text| ==> Lower(text)[i] == LowerChar(text[i]);
  }

  lemma SplitNothing(name: string)
    requires '+' !in name
    ensures Split(name, '+') == [name]
  {}

  lemma {:induction false} SplitKeyText(texts: seq<string>, words: seq<Word>, name: string)
    requires Spelled(texts, words) && '+' !in name
    ensures Split(KeyText(texts, name), '+') == texts + [name]
    decreases |texts|
  {
    hide Lower, Split;
    if texts == [] {
      SplitNothing(name);
    } else {
      WordHasNoPlus(texts[0], words[0]);
      var rest := KeyText(texts[1..], name);
      var key := texts[0] + "+" + rest;
      assert key == texts[0] + ['+'] + rest;
      SplitCons(texts[0], rest, '+');
      SplitKeyText(texts[1..], words[1..], name);
      assert texts + [name] == [texts[0]] + (texts[1..] + [name]);
    }
  }

  function ModsIn(words: seq<Word>): Mods {
    Mods(ShiftWord in words, AltWord in words, Ctrl(words))
  }

  lemma ModsInSnoc(words: seq<Word>, w: Word)
    ensures ModsIn(words + [w]) == ModsIn(words).With(ModsIn([w]))
  {}

  lemma ModifierOf(text: string, w: Word)
    requires Lower(text) == Spelling(w)
    ensures Modifier(text) == Some(ModsIn([w]))
  {
    assert Spelling(ShiftWord)[0] == 's' && Spelling(AltWord)[0] == 'a';
    assert Spelling(CtrlWord)[0] == Spelling(ControlWord)[0] == 'c';
  }

  lemma {:induction false} ModifiersOf(texts: seq<string>, words: seq<Word>)
    requires Spelled(texts, words)
    ensures Modifiers(texts) == Some(ModsIn(words))
    decreases |texts|
  {
    hide Modifier, Lower;
    if texts != [] {
      var n := |texts| - 1;
      ModifiersOf(texts[..n], words[..n]);
      ModifierOf(texts[n], words[n]);
      ModsInSnoc(words[..n], words[n]);
      assert words == words[..n] + [words[n]];
    }
  }

  // Any name is read as its base name with the modifiers of the words before it.
  lemma {:induction false} InterpretKeyText(texts: seq<string>, words: seq<Word>, name: string)
    requires Spelled(texts, words) && '+' !in name
    ensures var p := Interpret(KeyText(texts, name));
            && (p.Some? <==> Lookup(Lower(name)).Some? || |name| == 1)
            && (p.Some? ==> p.value.mods == ModsIn(words) && p.value.name == name)
            && (p.Some? && Lookup(Lower(name)).Some? ==> p.value.key == Lookup(Lower(name)).value)
            && (p.Some? && Lookup(Lower(name)).None? ==>
                  var c := if Ctrl(words) then LowerChar(name[0]) else name[0];
                  p.value.key == Named(c as nat, [c], None))
  {
    hide Lookup, Split, KeyText, Modifiers;
    SplitKeyText(texts, words, name);
    ModifiersOf(texts, words);
    assert (texts + [name])[..|texts|] == texts;
  }

  // ---- characters ----

  lemma OneCharacter(c: char)
    requires c != '\n' && c != '\r' && c != '\t'
    ensures Lookup(Lower([c])).None?
  {
    assert Lower([c])[0] == LowerChar(c);
  }

  predicate Typed(c: char) {
    c != '+' && c != '\n' && c != '\r' && c != '\t'
  }

  // With all keys reported as escape codes, and with disambiguation alone when a modifier
  // is held or the character is escape, a character is its code and the modifier number.
  lemma {:induction false} CharacterReported(t: Terminal, texts: seq<string>, words: seq<Word>, c: char)
    requires Spelled(texts, words) && Typed(c)
    requires Flag(t.kitty, 8) || (Flag(t.kitty, 1) && ModifierNumber(words) > 1)
    ensures var code := (if Ctrl(words) then LowerChar(c) else c) as nat;
            EncodeKey(t, KeyText(texts, [c])) ==
            Some([ESC] + "[" + (Decimal.Print(code) + ";" + Decimal.Print(ModifierNumber(words)) + "u"))
  {
    hide Interpret, Lookup, KeyText;
    OneCharacter(c);
    InterpretKeyText(texts, words, [c]);
  }

  // Without the protocol ctrl turns '?' to '_' and the letters into control characters and
  // nothing else but space; alt puts an escape in front.
  lemma {:induction false} ControlCharacter(t: Terminal, texts: seq<string>, words: seq<Word>, c: char)
    requires Spelled(texts, words) && Typed(c) && Ctrl(words) && t.kitty == 0
    ensures var code := (if 'a' <= c <= 'z' then c as nat - 32 else c as nat);
            var prefix := if AltWord in words then [ESC] else "";
            EncodeKey(t, KeyText(texts, [c])) ==
            if 63 <= code <= 95 then Some(prefix + [((code + 64) % 128) as char])
            else if c == ' ' then Some(prefix + [0 as char])
            else if c as nat == 27 then Some(prefix + [27 as char])
            else if c as nat == 127 then Some(prefix + [8 as char])
            else None
  {
    hide Interpret, Lookup, KeyText;
    OneCharacter(c);
    InterpretKeyText(texts, words, [c]);
    NoFlags(t.kitty);
  }

  lemma NoFlags(kitty: u16)
    requires kitty == 0
    ensures !Flag(kitty, 8) && !Flag(kitty, 1)
  {}

  // Without the protocol and without ctrl a character is typed as itself, with shift as its
  // capital, and alt puts an escape in front.
  lemma {:induction false} PlainCharacter(t: Terminal, texts: seq<string>, words: seq<Word>, c: char)
    requires Spelled(texts, words) && Typed(c) && !Ctrl(words) && t.kitty == 0
    ensures var typed := if ShiftWord in words && 'a' <= c <= 'z' then (c as int - 32) as char else c;
            EncodeKey(t, KeyText(texts, [c])) == Some((if AltWord in words then [ESC] else "") + [typed])
  {
    hide Interpret, Lookup, KeyText;
    OneCharacter(c);
    InterpretKeyText(texts, words, [c]);
    NoFlags(t.kitty);
  }

  // ---- editing keys ----

  // The code of an editing key and what it types on a legacy terminal.
  datatype Editing = EnterKey | TabKey | EscapeKey | BackspaceKey | SpaceKey

  function EditingNames(k: Editing): seq<string> {
    match k
    case EnterKey => ["enter", "return", "\n", "\r"]
    case TabKey => ["tab", "\t"]
    case EscapeKey => ["escape", "esc"]
    case BackspaceKey => ["backspace"]
    case SpaceKey => ["space"]
  }

  // The ASCII code of the key's character: carriage return, horizontal tab, escape,
  // delete and space.
  function EditingCode(k: Editing): nat {
    match k
    case EnterKey => 13
    case TabKey => 9
    case EscapeKey => 27
    case BackspaceKey => 127
    case SpaceKey => 32
  }

  lemma EditingLookup(k: Editing, name: string)
    requires Lower(name) in EditingNames(k)
    ensures Lookup(Lower(name)) == Some(Named(EditingCode(k), [EditingCode(k) as char], None))
    ensures '+' !in name && (|name| == 1 ==> name in ["\n", "\r", "\t"])
  {
    assert forall i :: 0 <= i < |name| ==> Lower(name)[i] == LowerChar(name[i]);
    if |name| == 1 {
      assert name == [name[0]] && Lower(name) == [LowerChar(name[0])];
    }
  }

  lemma {:induction false} EditingReported(t: Terminal, texts: seq<string>, words: seq<Word>, k: Editing, name: string)
    requires Spelled(texts, words) && Lower(name) in EditingNames(k)
    requires Flag(t.kitty, 8) || (Flag(t.kitty, 1) && (ModifierNumber(words) > 1 || k.EscapeKey?))
    ensures EncodeKey(t, KeyText(texts, name)) ==
            Some([ESC] + "[" + (Decimal.Print(EditingCode(k)) + ";" + Decimal.Print(ModifierNumber(words)) + "u"))
  {
    hide Interpret, Lookup, KeyText;
    EditingLookup(k, name);
    InterpretKeyText(texts, words, name);
  }

  // On a legacy terminal an editing key types its own character; shift and tab alone are
  // the back tab; ctrl makes backspace 8 and space 0 and leaves the others; alt puts an
  // escape in front. A line feed, as a name for enter, is itself when shifted.
  lemma {:induction false} EditingTyped(t: Terminal, texts: seq<string>, words: seq<Word>, k: Editing, name: string)
    requires Spelled(texts, words) && Lower(name) in EditingNames(k) && t.kitty == 0
    ensures var typed := if Ctrl(words) && k.BackspaceKey? then 8
                         else if Ctrl(words) && k.SpaceKey? then 0
                         else if name == "\n" && ShiftWord in words && !Ctrl(words) then 10
                         else EditingCode(k);
            EncodeKey(t, KeyText(texts, name)) ==
            if k.TabKey? && ModifierNumber(words) == 2 then Some([ESC] + "[" + "Z")
            else Some((if AltWord in words then [ESC] else "") + [typed as char])
  {
    hide Interpret, Lookup, KeyText;
    EditingLookup(k, name);
    InterpretKeyText(texts, words, name);
    NoFlags(t.kitty);
  }

  // ---- cursor and function keys ----

  // The sequence that stands for a key: a final letter always with number 1.
  predicate StandsFor(number: nat, suffix: char, name: string) {
    name != "" && KeyOfSequence(number, suffix) == name
    && (if suffix == '~' then number != 1 else number == 1 && suffix in "ABCDHFPQS")
  }

  lemma LetterLookup(suffix: char, name: string)
    requires StandsFor(1, suffix, name)
    ensures Lookup(name).Some? && Lookup(name).value.csi == Some((1, suffix))
  {}

  lemma NumberLookup(number: nat, name: string)
    requires StandsFor(number, '~', name)
    ensures Lookup(name).Some? && Lookup(name).value.csi == Some((number, '~'))
  {}

  lemma StandsHasNoPlus(number: nat, suffix: char, name: string)
    requires StandsFor(number, suffix, name)
    ensures '+' !in name && Lower(name) == name
  {
    assert forall i :: 0 <= i < |name| ==> Lower(name)[i] == LowerChar(name[i]);
  }

  // A cursor or function key types the sequence that stands for it, with the modifier
  // number if there are modifiers; without them, and only without the protocol, the PF
  // keys, and in application mode the cursor keys too, have the short form.
  lemma {:induction false} FunctionKeyTyped(t: Terminal, texts: seq<string>, words: seq<Word>, number: nat, suffix: char,
                                            name: string)
    requires Spelled(texts, words) && StandsFor(number, suffix, name)
    ensures EncodeKey(t, KeyText(texts, name)) ==
            if ModifierNumber(words) > 1 then
              Some([ESC] + "[" + (Decimal.Print(number) + ";" + Decimal.Print(ModifierNumber(words)) + [suffix]))
            else if suffix == '~' then Some([ESC] + "[" + (Decimal.Print(number) + "~"))
            else if t.kitty == 0 && (t.applicationCursor || suffix in "PQS") then Some([ESC] + "O" + [suffix])
            else Some([ESC] + "[" + [suffix])
  {
    hide Interpret, Lookup, KeyText, KeyOfSequence;
    StandsHasNoPlus(number, suffix, name);
    if suffix == '~' {
      NumberLookup(number, name);
    } else {
      LetterLookup(suffix, name);
    }
    InterpretKeyText(texts, words, name);
  }

  // ---- what is refused ----

  // A name that is neither known nor one character is refused whatever precedes it, and so
  // is anything behind a word that is no modifier.
  lemma {:induction false} UnknownModifierRefused(t: Terminal, word: string, rest: string)
    requires '+' !in word && Lower(word) !in {"shift", "alt", "ctrl", "control"}
    ensures EncodeKey(t, word + "+" + rest) == None
  {
    var key := word + "+" + rest;
    FirstIs(key, '+', |word|);
    assert key[..|word|] == word && key[|word| + 1..] == rest;
    var parts := Split(rest, '+');
    assert Split(key, '+') == [word] + parts;
    var all := [word] + parts;
    FirstWordRefused(all[..|all| - 1], word);
  }

  lemma {:induction false} FirstWordRefused(parts: seq<string>, word: string)
    requires parts != [] && parts[0] == word && Modifier(word) == None
    ensures Modifiers(parts) == None
    decreases |parts|
  {
    hide Modifier;
    if |parts| > 1 {
      FirstWordRefused(parts[..|parts| - 1], word);
    }
  }

  lemma {:induction false} UnknownNameRefused(t: Terminal, texts: seq<string>, words: seq<Word>, name: string)
    requires Spelled(texts, words) && '+' !in name && |name| != 1
    requires forall k: Editing :: Lower(name) !in EditingNames(k)
    requires forall number: nat, suffix :: !StandsFor(number, suffix, Lower(name))
    ensures EncodeKey(t, KeyText(texts, name)) == None
  {
    hide Interpret, KeyText;
    InterpretKeyText(texts, words, name);
    KnownNames(Lower(name));
  }

  lemma {:induction false} KnownNames(name: string)
    requires |name| != 1
    ensures Lookup(name).Some? ==>
            (exists k: Editing :: name in EditingNames(k))
            || exists number: nat, suffix :: StandsFor(number, suffix, name)
  {
    hide Lookup, StandsFor;
    if Lookup(name).Some? {
      if Lookup(name).value.csi.Some? {
        KnownSequence(name);
      } else {
        KnownEditing(name);
      }
    }
  }

  lemma KnownEditing(name: string)
    requires Lookup(name).Some? && Lookup(name).value.csi.None? && |name| != 1
    ensures exists k: Editing :: name in EditingNames(k)
  {
    assert name in EditingNames(EnterKey) || name in EditingNames(TabKey) || name in EditingNames(EscapeKey)
           || name in EditingNames(BackspaceKey) || name in EditingNames(SpaceKey);
  }

  lemma KnownSequence(name: string)
    requires Lookup(name).Some? && Lookup(name).value.csi.Some?
    ensures exists number: nat, suffix :: StandsFor(number, suffix, name)
  {
    var (number, suffix) := Lookup(name).value.csi.value;
    SequencesNameTheirKeys(name);
    SequenceForm(name);
    assert StandsFor(number, suffix, name);
  }

  lemma SequenceForm(name: string)
    requires Lookup(name).Some? && Lookup(name).value.csi.Some?
    ensures name != ""
    ensures var (number, suffix) := Lookup(name).value.csi.value;
            if suffix == '~' then number != 1 else number == 1 && suffix in "ABCDHFPQS"
  {}

  // ---- text ----

  predicate Printable(c: char) {
    c in {'\n', '\r', '\t'} || 0x20 <= c as int < 0x7f || 0x9f < c as int
  }

  // Without bracketed paste and without the all-keys flag, text goes out as it is.
  lemma {:induction false} RawText(t: Terminal, text: string)
    requires !t.bracketedPaste && !Flag(t.kitty, 8)
    requires forall i :: 0 <= i < |text| ==> Printable(text[i])
    ensures TerminalInput(t, text, []) == Some(text)
  {
    hide Flag;
    assert text + "" == text;
  }

  // A paste is the text between its two markers, whatever flags are set.
  lemma {:induction false} PastedText(t: Terminal, text: string)
    requires t.bracketedPaste && text != ""
    requires forall i :: 0 <= i < |text| ==> Printable(text[i])
    ensures TerminalInput(t, text, []) == Some([ESC] + "[200~" + text + ([ESC] + "[201~"))
  {
    hide Flag;
    assert PASTE_START == [ESC] + "[200~" && PASTE_END == [ESC] + "[201~";
    var pasted := PASTE_START + text + PASTE_END;
    assert pasted + "" == pasted;
  }

  // Text with a control character other than a line break or a tab is refused whole.
  lemma {:induction false} ControlTextRefused(t: Terminal, text: string, keys: seq<string>, i: nat)
    requires i < |text| && (text[i] as int < 0x20 || 0x7f <= text[i] as int <= 0x9f)
    requires text[i] != '\n' && text[i] != '\r' && text[i] != '\t'
    ensures TerminalInput(t, text, keys) == None
  {
    assert !TypeableChar(text[i]);
  }
}
