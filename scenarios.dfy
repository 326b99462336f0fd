/**
 * Concrete events against concrete descriptions: the situations that
 * the hook's test file describes, and the places where the code's
 * behaviour is easy to misread.
 */
module Scenarios {
  import opened Wrappers
  import opened JsString
  import opened KeyTables
  import opened ShortcutParser
  import opened Matcher
  import opened Describe
  import opened JsObject
  import opened Dispatch

  // Events, with modifiers named by what is held.

  function Press(keyCode: nat, shift: bool, ctrl: bool, alt: bool, meta: bool): KeyEvent {
    KeyEvent(keyCode, shift, ctrl, alt, meta, NoElement)
  }

  /** `ctrl+s`, `ctrl+o`, `ctrl+shift+s` and the bare keys, as the parse lemmas below show them parsed. */
  const CtrlS := KeyCombination(Code(83), [CtrlCode], "ctrl+s")
  const CtrlO := KeyCombination(Code(79), [CtrlCode], "ctrl+o")
  const CtrlShiftS := KeyCombination(Code(83), [CtrlCode, ShiftCode], "ctrl+shift+s")
  const ControlS := KeyCombination(Code(83), [CtrlCode], "control+s")
  const Esc := KeyCombination(Code(27), [], "esc")
  const Enter := KeyCombination(Code(13), [], "enter")
  const F1 := KeyCombination(Code(112), [], "f1")
  const Left := KeyCombination(Code(37), [], "left")

  // Parses

  lemma ParseCtrlS()
    ensures AnalyzeShortcut("ctrl+s") == [CtrlS]
  {
    ModifierNameCodes();
    LetterKey('s');
    ModifierCodesSingle("ctrl", CtrlCode);
    assert Join(["ctrl"] + ["s"], '+') == "ctrl+s";
    ParseJoined(["ctrl"], "s");
  }

  lemma ParseCtrlO()
    ensures AnalyzeShortcut("ctrl+o") == [CtrlO]
  {
    ModifierNameCodes();
    LetterKey('o');
    ModifierCodesSingle("ctrl", CtrlCode);
    assert Join(["ctrl"] + ["o"], '+') == "ctrl+o";
    ParseJoined(["ctrl"], "o");
  }

  /** `control` is the second name of the ctrl key. */
  lemma ParseControlS()
    ensures AnalyzeShortcut("control+s") == [ControlS]
  {
    ControlFacts();
    LetterKey('s');
    ModifierCodesSingle("control", CtrlCode);
    assert Join(["control"] + ["s"], '+') == "control+s";
    ParseJoined(["control"], "s");
  }

  lemma ControlFacts()
    ensures ModifierCode("control") == Some(CtrlCode) && Clean("control")
  {
    assert ToLower("control") == "control";
  }

  lemma ParseCtrlShiftS()
    ensures AnalyzeShortcut("ctrl+shift+s") == [CtrlShiftS]
  {
    var names := ["ctrl", "shift"];
    CtrlShiftText();
    CtrlShiftCodes();
    ModifierNameCodes();
    LetterKey('s');
    ParseJoined(names, "s");
  }

  lemma CtrlShiftText()
    ensures Join(["ctrl", "shift"] + ["s"], '+') == "ctrl+shift+s"
  {
    assert ["ctrl", "shift"] + ["s"] == ["ctrl", "shift", "s"];
    assert Join(["shift", "s"], '+') == "shift+s";
  }

  lemma CtrlShiftCodes()
    ensures ModifierCodes(["ctrl", "shift"]) == [CtrlCode, ShiftCode]
  {
    ModifierNameCodes();
    ModifierCodesSingle("ctrl", CtrlCode);
    ModifierCodesSingle("shift", ShiftCode);
    ModifierCodesAppend(["ctrl"], ["shift"]);
    assert ["ctrl"] + ["shift"] == ["ctrl", "shift"];
  }

  /** A bare key name: no modifiers. */
  lemma ParseBare(key: string, code: nat)
    requires Clean(key) && ConvertKeyToCode(key) == Code(code)
    ensures AnalyzeShortcut(key) == [KeyCombination(Code(code), [], key)]
  {
    assert [] + [key] == [key];
    ParseJoined([], key);
  }

  lemma ParseEsc()
    ensures AnalyzeShortcut("esc") == [Esc]
  {
    EscFacts();
    ParseBare("esc", 27);
  }

  lemma EscFacts()
    ensures Clean("esc") && ConvertKeyToCode("esc") == Code(27)
  {
    assert ToLower("esc") == "esc";
    NamedKeyResolution("esc");
  }

  lemma ParseEnter()
    ensures AnalyzeShortcut("enter") == [Enter]
  {
    EnterFacts();
    ParseBare("enter", 13);
  }

  lemma EnterFacts()
    ensures Clean("enter") && ConvertKeyToCode("enter") == Code(13)
  {
    NamedKeyExamples();
  }

  lemma ParseLeft()
    ensures AnalyzeShortcut("left") == [Left]
  {
    LeftFacts();
    ParseBare("left", 37);
  }

  lemma LeftFacts()
    ensures Clean("left") && ConvertKeyToCode("left") == Code(37)
  {
    NamedKeyExamples();
  }

  lemma ParseF1()
    ensures AnalyzeShortcut("f1") == [F1]
  {
    F1Facts();
    ParseBare("f1", 112);
  }

  lemma F1Facts()
    ensures Clean("f1") && ConvertKeyToCode("f1") == Code(112)
  {
    FunctionKeyF1();
    assert !IsWhitespace('f') && !IsWhitespace('1');
  }

  // The single-shortcut hook

  lemma SaveShortcut(h: HandlerId)
    ensures SingleEffects(Press(83, false, true, false, false), [CtrlS], DefaultOptions, h) == [PreventDefault, CallHandler(h)]
    ensures SingleEffects(Press(65, false, true, false, false), [CtrlS], DefaultOptions, h) == []
    ensures SingleEffects(Press(83, true, true, false, false), [CtrlS], DefaultOptions, h) == []
  {
    assert Matches(Press(83, false, true, false, false), CtrlS);
  }

  lemma ModifierCombination(h: HandlerId)
    ensures SingleEffects(Press(83, true, true, false, false), [CtrlShiftS], DefaultOptions, h) == [PreventDefault, CallHandler(h)]
  {
    assert CtrlCode in [CtrlCode, ShiftCode] && ShiftCode in [CtrlCode, ShiftCode];
  }

  lemma OptionsRespected(h: HandlerId)
    ensures SingleEffects(Press(83, false, true, false, false), [CtrlS], Options(false, false, true), h) == [CallHandler(h)]
    ensures SingleEffects(Press(83, false, true, false, false), [CtrlS], Options(true, true, true), h) ==
      [PreventDefault, StopPropagation, CallHandler(h)]
    ensures SingleEffects(Press(83, false, true, false, false), [CtrlS], Options(true, false, false), h) == []
  {
    assert Matches(Press(83, false, true, false, false), CtrlS);
  }

  lemma FormControlsIgnored(h: HandlerId, tag: string)
    requires tag == "INPUT" || tag == "TEXTAREA" || tag == "SELECT"
    ensures SingleEffects(KeyEvent(83, false, true, false, false, Element(tag)), [CtrlS], DefaultOptions, h) == []
  {
  }

  lemma NamedKeysFire(h: HandlerId)
    ensures SingleEffects(Press(13, false, false, false, false), [Enter], DefaultOptions, h) == [PreventDefault, CallHandler(h)]
    ensures SingleEffects(Press(112, false, false, false, false), [F1], DefaultOptions, h) == [PreventDefault, CallHandler(h)]
    ensures SingleEffects(Press(37, false, false, false, false), [Left], DefaultOptions, h) == [PreventDefault, CallHandler(h)]
  {
    assert Matches(Press(13, false, false, false, false), Enter);
    assert Matches(Press(112, false, false, false, false), F1);
    assert Matches(Press(37, false, false, false, false), Left);
  }

  /**
   * Command-s does not fire `ctrl+s`, `meta+s` or `command+s`. It fires a key-83
   * combination exactly when that names two modifiers, each ctrl or meta, so
   * `ctrl+meta+s`, and also `ctrl+ctrl+s` and `meta+command+s`.
   */
  lemma CommandKeyQuirk(h: HandlerId, c: KeyCombination)
    requires c.keyCode == Code(83)
    ensures var e := Press(83, false, false, false, true);
      SingleEffects(e, [c], DefaultOptions, h) == [PreventDefault, CallHandler(h)] <==>
      (|c.modifiers| == 2 && forall m :: m in c.modifiers ==> m == CtrlCode || m == MetaCode)
  {
    var e := Press(83, false, false, false, true);
    MetaOnlyEvent(e);
    assert [c][1..] == [];
  }

  /** `cmd` is not a modifier name: `cmd+s` is a plain `s`. */
  lemma CmdIsNotAModifier()
    ensures AnalyzeShortcut("cmd+s") == [KeyCombination(Code(83), [], "cmd+s")]
  {
    CmdFacts();
    LetterKey('s');
    ParseJoined(["cmd"], "s");
  }

  lemma CmdFacts()
    ensures ModifierCodes(["cmd"]) == [] && Clean("cmd")
    ensures Join(["cmd"] + ["s"], '+') == "cmd+s"
  {
    assert ToLower("cmd") == "cmd";
    assert "cmd" !in KeyModifiers;
    assert ["cmd"][1..] == [];
    assert Clean("cmd");
  }

  /** A trailing comma adds an alternative with no key, which nothing matches. */
  lemma TrailingComma(e: KeyEvent)
    ensures |AnalyzeShortcut("ctrl+s,")| == 2
    ensures AnalyzeShortcut("ctrl+s,")[1].keyCode == NaN
    ensures !Matches(e, AnalyzeShortcut("ctrl+s,")[1])
  {
    TrailingParse();
    EmptySegment();
    NaNMatchesNothing(e, ProcessKeyCombination(""));
  }

  lemma TrailingParse()
    ensures AnalyzeShortcut("ctrl+s,") == [ProcessKeyCombination("ctrl+s"), ProcessKeyCombination("")]
  {
    JsStringFacts();
    AnalyzeTwo("ctrl+s,", "ctrl+s", "");
  }

  lemma AnalyzeTwo(shortcut: string, a: string, b: string)
    requires Split(StripWhitespace(shortcut), ',') == [a, b]
    ensures AnalyzeShortcut(shortcut) == [ProcessKeyCombination(a), ProcessKeyCombination(b)]
  {
  }

  lemma EmptySegment()
    ensures ProcessKeyCombination("").keyCode == NaN
  {
    NaNIffNoPrimaryKey("");
  }

  lemma JsStringFacts()
    ensures StripWhitespace("ctrl+s,") == "ctrl+s,"
    ensures Split("ctrl+s,", ',') == ["ctrl+s", ""]
  {
    StripClean("ctrl+s,");
    assert "ctrl+s," == "ctrl+s" + [','] + "";
    SplitPeel("ctrl+s", "", ',');
  }

  // The multi-shortcut hook

  function SaveOpen(save: HandlerId, open: HandlerId): seq<Property<HandlerId>> {
    [Property("ctrl+s", save), Property("ctrl+o", open)]
  }

  /** Two entries without index keys bind in source order. */
  lemma TwoEntries(p0: Property<HandlerId>, p1: Property<HandlerId>)
    requires !IsArrayIndex(p0.key) && !IsArrayIndex(p1.key)
    ensures Bind(ObjectEntries([p0, p1])) == EntryBindings(p0) + EntryBindings(p1)
  {
    var props := [p0, p1];
    NoIndexKeysInSourceOrder(props);
    assert props == [p0] + [p1];
    BindAppend([p0], [p1]);
    BindSingle(p0);
    BindSingle(p1);
  }

  lemma SaveOpenBindings(save: HandlerId, open: HandlerId)
    ensures Bind(ObjectEntries(SaveOpen(save, open))) == [Binding(CtrlS, save), Binding(CtrlO, open)]
  {
    assert !IsArrayIndex("ctrl+s") && !IsArrayIndex("ctrl+o") by {
      assert !IsDigit("ctrl+s"[0]) && !IsDigit("ctrl+o"[0]);
    }
    TwoEntries(Property("ctrl+s", save), Property("ctrl+o", open));
    SaveEntry(save);
    OpenEntry(open);
  }

  /** Three entries without index keys bind in source order. */
  lemma ThreeEntries(p0: Property<HandlerId>, p1: Property<HandlerId>, p2: Property<HandlerId>)
    requires !IsArrayIndex(p0.key) && !IsArrayIndex(p1.key) && !IsArrayIndex(p2.key)
    ensures Bind(ObjectEntries([p0, p1, p2])) == EntryBindings(p0) + EntryBindings(p1) + EntryBindings(p2)
  {
    var props := [p0, p1, p2];
    NoIndexKeysInSourceOrder(props);
    assert props == [p0, p1] + [p2];
    BindAppend([p0, p1], [p2]);
    assert [p0, p1] == [p0] + [p1];
    BindAppend([p0], [p1]);
    BindSingle(p0);
    BindSingle(p1);
    BindSingle(p2);
  }

  function SaveOpenClose(save: HandlerId, open: HandlerId, close: HandlerId): seq<Property<HandlerId>> {
    [Property("ctrl+s", save), Property("ctrl+o", open), Property("esc", close)]
  }

  /** `{ 'ctrl+s': save, 'ctrl+o': open, 'esc': close }` binds the three parses in source order. */
  lemma SaveOpenCloseBindings(save: HandlerId, open: HandlerId, close: HandlerId)
    ensures Bind(ObjectEntries(SaveOpenClose(save, open, close))) ==
      [Binding(CtrlS, save), Binding(CtrlO, open), Binding(Esc, close)]
  {
    SaveOpenCloseEntries(save, open, close);
    SaveEntry(save);
    OpenEntry(open);
    EscEntry(close);
    ConcatSingles(EntryBindings(Property("ctrl+s", save)), EntryBindings(Property("ctrl+o", open)),
      EntryBindings(Property("esc", close)), Binding(CtrlS, save), Binding(CtrlO, open), Binding(Esc, close));
  }

  lemma ConcatSingles<T>(x: seq<T>, y: seq<T>, z: seq<T>, a: T, b: T, c: T)
    requires x == [a] && y == [b] && z == [c]
    ensures x + y + z == [a, b, c]
  {
  }

  lemma SaveOpenCloseEntries(save: HandlerId, open: HandlerId, close: HandlerId)
    ensures Bind(ObjectEntries(SaveOpenClose(save, open, close))) ==
      EntryBindings(Property("ctrl+s", save)) + EntryBindings(Property("ctrl+o", open)) +
      EntryBindings(Property("esc", close))
  {
    NoIndexKeys();
    ThreeEntries(Property("ctrl+s", save), Property("ctrl+o", open), Property("esc", close));
  }

  lemma NoIndexKeys()
    ensures !IsArrayIndex("ctrl+s") && !IsArrayIndex("ctrl+o") && !IsArrayIndex("esc")
    ensures !IsArrayIndex("control+s")
  {
    assert !IsDigit("ctrl+s"[0]) && !IsDigit("ctrl+o"[0]) && !IsDigit("esc"[0]) && !IsDigit("control+s"[0]);
  }

  /** `{ 'ctrl+s': first, 'control+s': second }`: two descriptions of one chord, bound in source order. */
  lemma SameChordBindings(first: HandlerId, second: HandlerId)
    ensures Bind(ObjectEntries([Property("ctrl+s", first), Property("control+s", second)])) ==
      [Binding(CtrlS, first), Binding(ControlS, second)]
  {
    NoIndexKeys();
    TwoEntries(Property("ctrl+s", first), Property("control+s", second));
    SaveEntry(first);
    ControlEntry(second);
  }

  lemma ControlEntry(h: HandlerId)
    ensures EntryBindings(Property("control+s", h)) == [Binding(ControlS, h)]
  {
    ParseControlS();
    assert Attach([ControlS], h) == [Binding(ControlS, h)];
  }

  lemma EscEntry(close: HandlerId)
    ensures EntryBindings(Property("esc", close)) == [Binding(Esc, close)]
  {
    ParseEsc();
    assert Attach([Esc], close) == [Binding(Esc, close)];
  }

  lemma SaveEntry(save: HandlerId)
    ensures EntryBindings(Property("ctrl+s", save)) == [Binding(CtrlS, save)]
  {
    ParseCtrlS();
    assert Attach([CtrlS], save) == [Binding(CtrlS, save)];
  }

  lemma OpenEntry(open: HandlerId)
    ensures EntryBindings(Property("ctrl+o", open)) == [Binding(CtrlO, open)]
  {
    ParseCtrlO();
    assert Attach([CtrlO], open) == [Binding(CtrlO, open)];
  }

  lemma MultipleShortcuts(save: HandlerId, open: HandlerId)
    ensures var bindings := [Binding(CtrlS, save), Binding(CtrlO, open)];
      MultiEffects(Press(83, false, true, false, false), bindings, true) == [PreventDefault, CallHandler(save)] &&
      MultiEffects(Press(79, false, true, false, false), bindings, true) == [PreventDefault, CallHandler(open)] &&
      MultiEffects(Press(83, false, true, false, false), bindings, false) == [] &&
      MultiEffects(KeyEvent(83, false, true, false, false, Element("INPUT")), bindings, true) == []
  {
    var bindings := [Binding(CtrlS, save), Binding(CtrlO, open)];
    var cs := Combinations(bindings);
    assert cs == [CtrlS, CtrlO];
    assert Matches(Press(83, false, true, false, false), CtrlS);
    assert FirstMatch(Press(79, false, true, false, false), cs) == Some(1) by {
      assert Matches(Press(79, false, true, false, false), CtrlO);
    }
  }

  /** The bindings of SaveOpenClose, as SaveOpenCloseBindings shows: each event reaches its own handler only. */
  lemma MultipleDifferentShortcuts(save: HandlerId, open: HandlerId, close: HandlerId)
    ensures var bindings := [Binding(CtrlS, save), Binding(CtrlO, open), Binding(Esc, close)];
      MultiEffects(Press(83, false, true, false, false), bindings, true) == [PreventDefault, CallHandler(save)] &&
      MultiEffects(Press(27, false, false, false, false), bindings, true) == [PreventDefault, CallHandler(close)]
  {
    var bindings := [Binding(CtrlS, save), Binding(CtrlO, open), Binding(Esc, close)];
    var cs := Combinations(bindings);
    assert cs == [CtrlS, CtrlO, Esc];
    assert Matches(Press(83, false, true, false, false), CtrlS);
    var esc := Press(27, false, false, false, false);
    assert !Matches(esc, cs[0]) && !Matches(esc, cs[1]) && Matches(esc, cs[2]);
    FirstMatchExists(esc, cs, 2);
    assert FirstMatch(esc, cs) == Some(2);
  }

  /** Two descriptions of the same chord, as SameChordBindings binds them: only the first entry's handler runs. */
  lemma FirstEntryWins(first: HandlerId, second: HandlerId)
    ensures MultiEffects(Press(83, false, true, false, false),
      [Binding(CtrlS, first), Binding(ControlS, second)], true) ==
      [PreventDefault, CallHandler(first)]
  {
    assert Matches(Press(83, false, true, false, false), CtrlS);
  }

  /** An index-like key is enumerated, and so bound, before the keys written earlier. */
  lemma NumericKeyBindsFirst(a: HandlerId, b: HandlerId)
    ensures ObjectEntries([Property("ctrl+s", a), Property("1", b)]) == [Property("1", b), Property("ctrl+s", a)]
  {
    var props := [Property("ctrl+s", a), Property("1", b)];
    assert !IsArrayIndex("ctrl+s") by { assert !IsDigit("ctrl+s"[0]); }
    assert ParseDecimal("1") == 1 by { assert "1"[..0] == []; }
    assert IsArrayIndex("1");
    assert props[1..] == [Property("1", b)] && props[1..][1..] == [];
    assert IndexProperties(props) == [Property("1", b)];
    assert OtherProperties(props) == [Property("ctrl+s", a)];
  }
}
