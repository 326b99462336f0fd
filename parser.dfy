/**
 * The shortcut parser: a description such as `"ctrl+shift+s, meta+s"` is
 * stripped of whitespace, split into comma-separated alternatives, and
 * each alternative into `+`-separated tokens whose last one is the
 * primary key and whose others are modifier names.
 */
module ShortcutParser {
  import opened Wrappers
  import opened JsString
  import opened KeyTables

  /**
   * A key code as JavaScript computes it: a number, or NaN when the key
   * name is empty (`"".charCodeAt(0)`). NaN equals no event's key code.
   */
  datatype KeyCode = Code(value: nat) | NaN

  /** One parsed alternative: primary key code, modifier codes in writing order, segment text. */
  datatype KeyCombination = KeyCombination(keyCode: KeyCode, modifiers: seq<nat>, original: string)

  /**
   * Resolves a key name: the named-key table, then the function-key table
   * (both looked up in lower case), then the code of the first character
   * of the upper-cased name. JavaScript's `||` also falls through on a
   * table value of 0; no table holds one. Every code fits in 16 bits.
   */
  function ConvertKeyToCode(keyName: string): (code: KeyCode)
    ensures code.Code? ==> code.value < 0x1_0000
  {
    var normalized := ToLower(keyName);
    if normalized in SpecialKeys && SpecialKeys[normalized] != 0 then
      SpecialKeyCodeRange(normalized);
      Code(SpecialKeys[normalized])
    else if normalized in FunctionKeys() && FunctionKeys()[normalized] != 0 then
      FunctionKeyCodeRange(normalized);
      Code(FunctionKeys()[normalized])
    else
      FallbackCode(keyName)
  }

  /** `keyName.toUpperCase().charCodeAt(0)`. */
  function FallbackCode(keyName: string): (r: KeyCode)
    ensures r == NaN <==> keyName == []
    ensures keyName != [] ==> r == Code(FirstCodeUnit([UpperChar(keyName[0])]).value)
  {
    var upper := ToUpper(keyName);
    assert upper != [] ==> upper[0] == UpperChar(keyName[0]);
    match FirstCodeUnit(upper)
    case None => NaN
    case Some(unit) => Code(unit)
  }

  /** `KEY_MODIFIERS[token.toLowerCase()]`, `None` standing for `undefined`. */
  function ModifierCode(token: string): (code: Option<nat>)
    ensures code.Some? ==> IsModifierCode(code.value)
  {
    var lower := ToLower(token);
    if lower in KeyModifiers then KeyModifiersAreModifierCodes(lower); Some(KeyModifiers[lower]) else None
  }

  /** The modifier tokens looked up in order; unknown ones are dropped. */
  function ModifierCodes(tokens: seq<string>): (codes: seq<nat>)
    ensures |codes| <= |tokens|
    ensures forall i :: 0 <= i < |codes| ==> IsModifierCode(codes[i])
  {
    if tokens == [] then []
    else
      var head := match ModifierCode(tokens[0]) case Some(code) => [code] case None => [];
      head + ModifierCodes(tokens[1..])
  }

  /** The token after the last `+`. */
  function PrimaryKey(combination: string): (key: string)
    ensures '+' !in key
  {
    var parts := Split(combination, '+');
    SplitNoSeparator(combination, '+');
    parts[|parts| - 1]
  }

  /** Parses one comma-free segment. */
  function ProcessKeyCombination(combination: string): (c: KeyCombination)
    ensures c.original == combination
    ensures |c.modifiers| <= multiset(combination)['+']
    ensures forall i :: 0 <= i < |c.modifiers| ==> IsModifierCode(c.modifiers[i])
  {
    var parts := Split(combination, '+');
    SplitCount(combination, '+');
    KeyCombination(ConvertKeyToCode(parts[|parts| - 1]), ModifierCodes(parts[..|parts| - 1]), combination)
  }

  /** Parses a whole description into its alternatives, left to right. */
  function AnalyzeShortcut(shortcut: string): (combinations: seq<KeyCombination>)
    ensures |combinations| == multiset(StripWhitespace(shortcut))[','] + 1
  {
    var segments := Split(StripWhitespace(shortcut), ',');
    SplitCount(StripWhitespace(shortcut), ',');
    seq(|segments|, i requires 0 <= i < |segments| => ProcessKeyCombination(segments[i]))
  }

  // ---------------------------------------------------------------------
  // Key-name resolution

  /** A name found in the named-key table, in any letter case, resolves to its entry. */
  lemma NamedKeyResolution(keyName: string)
    requires ToLower(keyName) in SpecialKeys
    ensures ConvertKeyToCode(keyName) == Code(SpecialKeys[ToLower(keyName)])
  {
    SpecialKeyCodeRange(ToLower(keyName));
  }

  /** `f<n>` for 1 <= n <= 20, in any letter case, resolves to 111 + n. */
  lemma FunctionKeyResolution(keyName: string, n: nat)
    requires 1 <= n <= 20 && ToLower(keyName) == FunctionKeyName(n)
    ensures ConvertKeyToCode(keyName) == Code(111 + n)
  {
    var name := FunctionKeyName(n);
    FunctionKeyNameShape(n);
    assert name !in SpecialKeys;
    assert name in FunctionKeys() && FunctionKeys()[name] == 111 + n;
  }

  /** Any other non-empty name resolves to the first UTF-16 code unit of its upper-cased first character. */
  lemma FallbackResolution(keyName: string)
    requires keyName != []
    requires ToLower(keyName) !in SpecialKeys && ToLower(keyName) !in FunctionKeys()
    ensures ConvertKeyToCode(keyName) == Code(FirstCodeUnit([UpperChar(keyName[0])]).value)
    ensures (keyName[0] as int) < 0x1_0000 ==> ConvertKeyToCode(keyName) == Code(UpperChar(keyName[0]) as int)
  {
    assert ConvertKeyToCode(keyName) == FallbackCode(keyName);
  }

  /** Only the empty name fails to resolve; it yields NaN. */
  lemma NaNIffEmptyName(keyName: string)
    ensures ConvertKeyToCode(keyName) == NaN <==> keyName == []
  {
    var normalized := ToLower(keyName);
    if keyName == [] {
      assert normalized == [];
      assert normalized !in SpecialKeys;
      FunctionKeyShape(normalized);
      assert ConvertKeyToCode(keyName) == FallbackCode(keyName);
    } else if normalized in SpecialKeys && SpecialKeys[normalized] != 0 {
    } else if normalized in FunctionKeys() && FunctionKeys()[normalized] != 0 {
    } else {
      assert ConvertKeyToCode(keyName) == FallbackCode(keyName);
    }
  }

  /** Resolution ignores letter case. */
  lemma ConvertCaseInsensitive(a: string, b: string)
    requires ToLower(a) == ToLower(b)
    ensures ConvertKeyToCode(a) == ConvertKeyToCode(b)
  {
    var normalized := ToLower(a);
    if normalized in SpecialKeys && SpecialKeys[normalized] != 0 {
    } else if normalized in FunctionKeys() && FunctionKeys()[normalized] != 0 {
    } else {
      assert ConvertKeyToCode(a) == FallbackCode(a);
      assert ConvertKeyToCode(b) == FallbackCode(b);
      if a != [] {
        assert |b| == |a|;
        assert LowerChar(a[0]) == LowerChar(b[0]) by {
          assert ToLower(a)[0] == LowerChar(a[0]);
          assert ToLower(b)[0] == LowerChar(b[0]);
        }
        UpperOfLower(a[0]);
        UpperOfLower(b[0]);
      }
    }
  }

  // The resolutions exercised by the hook's tests, and `f21`, which is past the table.

  lemma NamedKeyExamples()
    ensures ConvertKeyToCode("enter") == Code(13)
    ensures ConvertKeyToCode("left") == Code(37)
  {
    assert ToLower("enter") == "enter";
    NamedKeyResolution("enter");
    assert ToLower("left") == "left";
    NamedKeyResolution("left");
  }

  lemma FunctionKeyExamples()
    ensures ConvertKeyToCode("f1") == Code(112)
    ensures ConvertKeyToCode("F12") == Code(123)
  {
    FunctionKeyF1();
    FunctionKeyF12();
  }

  lemma FunctionKeyF1()
    ensures ConvertKeyToCode("f1") == Code(112)
  {
    assert DecimalString(1) == "1";
    assert ToLower("f1") == "f1" == FunctionKeyName(1);
    FunctionKeyResolution("f1", 1);
  }

  lemma FunctionKeyF12()
    ensures ConvertKeyToCode("F12") == Code(123)
  {
    assert DecimalString(12) == "12";
    assert ToLower("F12") == "f12" == FunctionKeyName(12);
    FunctionKeyResolution("F12", 12);
  }

  lemma LetterExamples()
    ensures ConvertKeyToCode("s") == Code(83)
    ensures ConvertKeyToCode("S") == Code(83)
  {
    assert ToLower("s") == "s" && ToLower("S") == "s";
    assert "s" !in SpecialKeys;
    FunctionKeyShape("s");
    FallbackResolution("s");
    FallbackResolution("S");
  }

  lemma PastTheFunctionKeys()
    ensures ConvertKeyToCode("f21") == Code(70)
  {
    assert ToLower("f21") == "f21";
    assert "f21" !in SpecialKeys;
    FunctionKeyShape("f21");
    assert "f21"[1..] == "21" && ParseDecimal("21") == 21;
    FallbackResolution("f21");
  }

  // ---------------------------------------------------------------------
  // Segments

  /** The primary key is the `+`-free tail of the segment after its last `+`. */
  lemma PrimaryKeyIsLastToken(combination: string)
    ensures var key := PrimaryKey(combination);
      && '+' !in key
      && |key| <= |combination|
      && combination[|combination| - |key|..] == key
      && (|key| < |combination| ==> combination[|combination| - |key| - 1] == '+')
  {
    var parts := Split(combination, '+');
    JoinSplit(combination, '+');
    SplitNoSeparator(combination, '+');
    if |parts| >= 2 {
      JoinLast(parts, '+');
    }
  }

  /** A segment has no key code exactly when it is empty or ends in `+`. */
  lemma NaNIffNoPrimaryKey(combination: string)
    ensures ProcessKeyCombination(combination).keyCode == NaN <==>
      combination == [] || combination[|combination| - 1] == '+'
  {
    var key := PrimaryKey(combination);
    PrimaryKeyIsLastToken(combination);
    NaNIffEmptyName(key);
    if key != [] && combination != [] {
      assert combination[|combination| - 1] == key[|key| - 1];
    }
  }

  lemma {:induction false} ModifierCodesAppend(a: seq<string>, b: seq<string>)
    ensures ModifierCodes(a + b) == ModifierCodes(a) + ModifierCodes(b)
  {
    if a != [] {
      ModifierCodesAppend(a[1..], b);
      assert (a + b)[0] == a[0] && (a + b)[1..] == a[1..] + b;
    } else {
      assert a + b == b;
    }
  }

  /** A token that is no modifier name contributes nothing: it is dropped, not an error. */
  lemma UnknownModifierDropped(tokens: seq<string>, i: nat)
    requires i < |tokens| && ModifierCode(tokens[i]).None?
    ensures ModifierCodes(tokens) == ModifierCodes(tokens[..i]) + ModifierCodes(tokens[i + 1..])
  {
    var suffix := tokens[i..];
    assert tokens == tokens[..i] + suffix;
    ModifierCodesAppend(tokens[..i], suffix);
    assert suffix[0] == tokens[i] && suffix[1..] == tokens[i + 1..];
    assert ModifierCodes(suffix) == ModifierCodes(tokens[i + 1..]);
  }

  /** When every token is a modifier name, each gives its code, in writing order. */
  lemma {:induction false} KnownModifiersKept(tokens: seq<string>)
    requires forall i :: 0 <= i < |tokens| ==> ModifierCode(tokens[i]).Some?
    ensures var codes := ModifierCodes(tokens);
      |codes| == |tokens| && forall i :: 0 <= i < |tokens| ==> codes[i] == ModifierCode(tokens[i]).value
  {
    if tokens != [] {
      KnownModifiersKept(tokens[1..]);
    }
  }

  /** Tokens that agree up to letter case give the same modifier codes. */
  lemma {:induction false} ModifierCodesCaseInsensitive(ts: seq<string>, us: seq<string>)
    requires |ts| == |us| && forall i :: 0 <= i < |ts| ==> ToLower(ts[i]) == ToLower(us[i])
    ensures ModifierCodes(ts) == ModifierCodes(us)
  {
    if ts != [] {
      ModifierCodesCaseInsensitive(ts[1..], us[1..]);
    }
  }

  /** Same primary key code and same modifier list. */
  predicate SameChord(c: KeyCombination, d: KeyCombination) {
    c.keyCode == d.keyCode && c.modifiers == d.modifiers
  }

  /** The chord of a segment is read off its last `+` token and the tokens before it. */
  lemma ProcessParts(combination: string)
    ensures var parts := Split(combination, '+');
      |parts| >= 1 &&
      ProcessKeyCombination(combination).keyCode == ConvertKeyToCode(parts[|parts| - 1]) &&
      ProcessKeyCombination(combination).modifiers == ModifierCodes(parts[..|parts| - 1])
  {
  }

  /** Parsing a segment ignores letter case; only `original` keeps it. */
  lemma ProcessLower(combination: string)
    ensures SameChord(ProcessKeyCombination(ToLower(combination)), ProcessKeyCombination(combination))
  {
    var ts := Split(combination, '+');
    var us := Split(ToLower(combination), '+');
    SplitLower(combination, '+');
    ProcessParts(combination);
    ProcessParts(ToLower(combination));
    var n := |ts|;
    assert |us| == n;
    assert ToLower(us[n - 1]) == ToLower(ts[n - 1]) by {
      LowerIdempotent(ts[n - 1]);
    }
    ConvertCaseInsensitive(us[n - 1], ts[n - 1]);
    var ms, ns := us[..n - 1], ts[..n - 1];
    forall i | 0 <= i < |ms| ensures ToLower(ms[i]) == ToLower(ns[i]) {
      assert ms[i] == ToLower(ts[i]);
      LowerIdempotent(ts[i]);
    }
    ModifierCodesCaseInsensitive(ms, ns);
  }


  // ---------------------------------------------------------------------
  // Descriptions

  function Originals(combinations: seq<KeyCombination>): (texts: seq<string>)
    ensures |texts| == |combinations|
  {
    seq(|combinations|, i requires 0 <= i < |combinations| => combinations[i].original)
  }

  /**
   * The alternatives are the comma-separated segments of the description
   * with its whitespace removed, left to right: gluing their texts back
   * with commas gives the stripped description, and no segment holds a
   * comma or whitespace.
   */
  lemma AnalyzeSegments(shortcut: string)
    ensures var combinations := AnalyzeShortcut(shortcut);
      && Join(Originals(combinations), ',') == StripWhitespace(shortcut)
      && forall i :: 0 <= i < |combinations| ==>
           ',' !in combinations[i].original &&
           forall j :: 0 <= j < |combinations[i].original| ==> !IsWhitespace(combinations[i].original[j])
  {
    var stripped := StripWhitespace(shortcut);
    var segments := Split(stripped, ',');
    assert Originals(AnalyzeShortcut(shortcut)) == segments;
    JoinSplit(stripped, ',');
    SplitNoSeparator(stripped, ',');
    forall i, j | 0 <= i < |segments| && 0 <= j < |segments[i]|
      ensures !IsWhitespace(segments[i][j])
    {
      SplitPartChars(stripped, ',', i, segments[i][j]);
    }
  }

  /** The primary key is a tail of its segment, so it holds no character the segment lacks. */
  lemma PrimaryKeyChars(combination: string, x: char)
    requires x !in combination
    ensures x !in PrimaryKey(combination)
  {
    PrimaryKeyIsLastToken(combination);
    var key := PrimaryKey(combination);
    forall j | 0 <= j < |key| ensures key[j] != x {
      assert key[j] == combination[|combination| - |key| + j];
    }
  }

  /**
   * No alternative has `,` as its primary key, since the description is
   * split on commas first: the `','` entry of the named-key table is never
   * looked up through a description.
   */
  lemma CommaNeverPrimaryKey(shortcut: string, i: nat)
    requires i < |AnalyzeShortcut(shortcut)|
    ensures PrimaryKey(AnalyzeShortcut(shortcut)[i].original) != ","
  {
    var original := AnalyzeShortcut(shortcut)[i].original;
    AnalyzeSegments(shortcut);
    assert ',' !in original;
    PrimaryKeyChars(original, ',');
    assert "," == [','] && ',' in ",";
  }

  /** Whitespace inserted anywhere in a description changes nothing. */
  lemma AnalyzeIgnoresWhitespace(before: string, ws: string, after: string)
    requires forall i :: 0 <= i < |ws| ==> IsWhitespace(ws[i])
    ensures AnalyzeShortcut(before + ws + after) == AnalyzeShortcut(before + after)
  {
    assert StripWhitespace(before + ws + after) == StripWhitespace(before + after) by {
      StripConcat(before + ws, after);
      StripConcat(before, ws);
      StripConcat(before, after);
      StripAllWhitespace(ws);
      assert StripWhitespace(before) + [] == StripWhitespace(before);
    }
  }

  /** A description and its whitespace-free form parse alike. */
  lemma AnalyzeStripped(shortcut: string)
    ensures AnalyzeShortcut(StripWhitespace(shortcut)) == AnalyzeShortcut(shortcut)
  {
    StripIdempotent(shortcut);
  }

  /** The parse of the lower-cased description has the same chords. */
  lemma AnalyzeLower(shortcut: string)
    ensures var cs, ds := AnalyzeShortcut(ToLower(shortcut)), AnalyzeShortcut(shortcut);
      |cs| == |ds| && forall i :: 0 <= i < |cs| ==> SameChord(cs[i], ds[i])
  {
    var stripped := StripWhitespace(shortcut);
    StripLower(shortcut);
    SplitLower(stripped, ',');
    var segments := Split(stripped, ',');
    forall i | 0 <= i < |segments| {
      ProcessLower(segments[i]);
    }
  }

  /** Descriptions that differ only in letter case parse to the same chords. */
  lemma AnalyzeCaseInsensitive(a: string, b: string)
    requires ToLower(a) == ToLower(b)
    ensures var cs, ds := AnalyzeShortcut(a), AnalyzeShortcut(b);
      |cs| == |ds| && forall i :: 0 <= i < |cs| ==> SameChord(cs[i], ds[i])
  {
    AnalyzeLower(a);
    AnalyzeLower(b);
  }
}
