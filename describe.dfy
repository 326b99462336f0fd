/**
 * Writing an event down as a description and parsing it back: the
 * description `shift+ctrl+alt+meta+<key>`, with the modifiers the event
 * holds, parses to one combination that the event matches.
 */
module Describe {
  import opened Wrappers
  import opened JsString
  import opened KeyTables
  import opened ShortcutParser
  import opened Matcher

  /** A token that survives parsing intact: no `+`, no `,`, no whitespace. */
  predicate Clean(token: string) {
    forall i :: 0 <= i < |token| ==> token[i] != '+' && token[i] != ',' && !IsWhitespace(token[i])
  }

  /** A single alternative: no comma and no whitespace. */
  predicate OneSegment(text: string) {
    forall i :: 0 <= i < |text| ==> text[i] != ',' && !IsWhitespace(text[i])
  }

  /** Clean tokens joined with `+` hold no comma and no whitespace. */
  lemma JoinClean(parts: seq<string>)
    requires forall i :: 0 <= i < |parts| ==> Clean(parts[i])
    ensures OneSegment(Join(parts, '+'))
  {
    var text := Join(parts, '+');
    forall i | 0 <= i < |text|
      ensures text[i] != ',' && !IsWhitespace(text[i])
    {
      JoinChars(parts, '+', text[i]);
      if text[i] != '+' {
        var k :| 0 <= k < |parts| && text[i] in parts[k];
        var j :| 0 <= j < |parts[k]| && parts[k][j] == text[i];
        assert Clean(parts[k]);
      }
    }
  }

  /** A segment of clean tokens parses into its last token as key and the others as modifiers. */
  lemma ProcessJoined(modifierNames: seq<string>, key: string)
    requires forall i :: 0 <= i < |modifierNames| ==> '+' !in modifierNames[i]
    requires '+' !in key
    ensures var text := Join(modifierNames + [key], '+');
      ProcessKeyCombination(text) == KeyCombination(ConvertKeyToCode(key), ModifierCodes(modifierNames), text)
  {
    var parts := modifierNames + [key];
    NoPlusAppend(modifierNames, key);
    var text := Join(parts, '+');
    SplitJoin(parts, '+');
    ProcessParts(text);
    assert parts[..|parts| - 1] == modifierNames;
  }

  lemma NoPlusAppend(modifierNames: seq<string>, key: string)
    requires forall i :: 0 <= i < |modifierNames| ==> '+' !in modifierNames[i]
    requires '+' !in key
    ensures forall i :: 0 <= i < |modifierNames + [key]| ==> '+' !in (modifierNames + [key])[i]
  {
    var parts := modifierNames + [key];
    forall i | 0 <= i < |parts| ensures '+' !in parts[i] {
      if i < |modifierNames| {
        assert parts[i] == modifierNames[i];
      }
    }
  }

  /** A text without commas or whitespace is one alternative. */
  lemma AnalyzeSingleSegment(text: string)
    requires OneSegment(text)
    ensures AnalyzeShortcut(text) == [ProcessKeyCombination(text)]
  {
    StripClean(text);
    SplitWhole(text, ',');
    assert Split(StripWhitespace(text), ',') == [text];
  }

  /**
   * Clean modifier tokens and a clean key name joined with `+` parse to a
   * single combination with exactly those modifiers and that key.
   */
  lemma ParseJoined(modifierNames: seq<string>, key: string)
    requires forall i :: 0 <= i < |modifierNames| ==> Clean(modifierNames[i])
    requires Clean(key)
    ensures var text := Join(modifierNames + [key], '+');
      AnalyzeShortcut(text) == [KeyCombination(ConvertKeyToCode(key), ModifierCodes(modifierNames), text)]
  {
    var parts := modifierNames + [key];
    CleanAppend(modifierNames, key);
    JoinClean(parts);
    AnalyzeSingleSegment(Join(parts, '+'));
    CleanNoPlus(modifierNames);
    ProcessJoined(modifierNames, key);
  }

  lemma CleanAppend(modifierNames: seq<string>, key: string)
    requires forall i :: 0 <= i < |modifierNames| ==> Clean(modifierNames[i])
    requires Clean(key)
    ensures forall i :: 0 <= i < |modifierNames + [key]| ==> Clean((modifierNames + [key])[i])
  {
    var parts := modifierNames + [key];
    forall i | 0 <= i < |parts| ensures Clean(parts[i]) {
      if i < |modifierNames| {
        assert parts[i] == modifierNames[i];
      }
    }
  }

  lemma CleanNoPlus(tokens: seq<string>)
    requires forall i :: 0 <= i < |tokens| ==> Clean(tokens[i])
    ensures forall i :: 0 <= i < |tokens| ==> '+' !in tokens[i]
  {
    forall i | 0 <= i < |tokens| ensures '+' !in tokens[i] {
      assert Clean(tokens[i]);
    }
  }

  /** The modifier names of an event, in the order the active list is built. */
  function ModifierNames(e: KeyEvent): seq<string> {
    (if e.shift then ["shift"] else []) +
    (if e.ctrl || e.meta then ["ctrl"] else []) +
    (if e.alt then ["alt"] else []) +
    (if e.meta then ["meta"] else [])
  }

  /** A description of the event, given a name for its key. */
  function Description(e: KeyEvent, key: string): string {
    Join(ModifierNames(e) + [key], '+')
  }

  lemma ModifierNameCodes()
    ensures ModifierCode("shift") == Some(ShiftCode) && ModifierCode("ctrl") == Some(CtrlCode)
    ensures ModifierCode("alt") == Some(AltCode) && ModifierCode("meta") == Some(MetaCode)
    ensures Clean("shift") && Clean("ctrl") && Clean("alt") && Clean("meta")
  {
    ModifierNameLookups();
    ModifierNamesAreClean();
  }

  lemma ModifierNameLookups()
    ensures ModifierCode("shift") == Some(ShiftCode) && ModifierCode("ctrl") == Some(CtrlCode)
    ensures ModifierCode("alt") == Some(AltCode) && ModifierCode("meta") == Some(MetaCode)
  {
    assert ToLower("shift") == "shift" && ToLower("ctrl") == "ctrl";
    assert ToLower("alt") == "alt" && ToLower("meta") == "meta";
  }

  lemma ModifierNamesAreClean()
    ensures Clean("shift") && Clean("ctrl") && Clean("alt") && Clean("meta")
  {
  }

  lemma {:induction false} ModifierCodesSingle(name: string, code: nat)
    requires ModifierCode(name) == Some(code)
    ensures ModifierCodes([name]) == [code]
  {
    assert [name][1..] == [];
  }

  lemma FlagCodes(flag: bool, name: string, code: nat)
    requires ModifierCode(name) == Some(code)
    ensures ModifierCodes(if flag then [name] else []) == if flag then [code] else []
  {
    if flag {
      ModifierCodesSingle(name, code);
    }
  }

  /** The names spell out exactly the active modifier list. */
  lemma ModifierNamesCodes(e: KeyEvent)
    ensures ModifierCodes(ModifierNames(e)) == ActiveModifiers(e)
    ensures forall i :: 0 <= i < |ModifierNames(e)| ==> Clean(ModifierNames(e)[i])
  {
    ModifierNameCodes();
    var s := if e.shift then ["shift"] else [];
    var c := if e.ctrl || e.meta then ["ctrl"] else [];
    var a := if e.alt then ["alt"] else [];
    var m := if e.meta then ["meta"] else [];
    assert ModifierNames(e) == s + c + a + m;
    FlagCodes(e.shift, "shift", ShiftCode);
    FlagCodes(e.ctrl || e.meta, "ctrl", CtrlCode);
    FlagCodes(e.alt, "alt", AltCode);
    FlagCodes(e.meta, "meta", MetaCode);
    ModifierCodesAppend(s + c + a, m);
    ModifierCodesAppend(s + c, a);
    ModifierCodesAppend(s, c);
    ModifierNamesClean(e);
  }

  lemma ModifierNamesClean(e: KeyEvent)
    ensures forall i :: 0 <= i < |ModifierNames(e)| ==> Clean(ModifierNames(e)[i])
  {
    ModifierNameCodes();
    var names := ModifierNames(e);
    forall i | 0 <= i < |names| ensures Clean(names[i]) {
      assert names[i] in ["shift", "ctrl", "alt", "meta"];
    }
  }

  /** A letter, in either case, names the key whose code is its upper-case code point. */
  lemma LetterKey(c: char)
    requires 'a' <= c <= 'z' || 'A' <= c <= 'Z'
    ensures ConvertKeyToCode([c]) == Code(UpperChar(c) as int)
    ensures Clean([c])
  {
    var lower := ToLower([c]);
    assert lower == [LowerChar(c)];
    if lower in SpecialKeys {
      SpecialKeyShape(lower);
    }
    if lower in FunctionKeys() {
      FunctionKeyShape(lower);
      assert false;
    }
    FallbackResolution([c]);
    LetterClean(c);
  }

  lemma LetterClean(c: char)
    requires 'a' <= c <= 'z' || 'A' <= c <= 'Z'
    ensures Clean([c])
  {
    assert !IsWhitespace(c);
  }

  /** A description of an event in terms of a key name that resolves to its key code parses to a combination the event matches. */
  lemma DescriptionRoundTrip(e: KeyEvent, key: string)
    requires Clean(key) && ConvertKeyToCode(key) == Code(e.keyCode)
    ensures AnalyzeShortcut(Description(e, key)) ==
      [KeyCombination(Code(e.keyCode), ActiveModifiers(e), Description(e, key))]
    ensures Matches(e, AnalyzeShortcut(Description(e, key))[0])
  {
    ModifierNamesCodes(e);
    ParseJoined(ModifierNames(e), key);
  }

  /** Every letter-key event (codes 65 to 90) has a description that selects it. */
  lemma LetterEventRoundTrip(e: KeyEvent)
    requires 65 <= e.keyCode <= 90
    ensures var text := Description(e, [(e.keyCode + 32) as char]);
      |AnalyzeShortcut(text)| == 1 && Matches(e, AnalyzeShortcut(text)[0])
  {
    var c := (e.keyCode + 32) as char;
    LetterKey(c);
    assert UpperChar(c) as int == e.keyCode;
    DescriptionRoundTrip(e, [c]);
  }
}
