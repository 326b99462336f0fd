# Keyboard shortcuts: a verified model

This is a model of the core of the React keyboard-shortcut hooks in
`useKeyboardShortcut.ts`. A shortcut description such as
`"ctrl+shift+s, meta+s"` is parsed into key combinations. Each
combination has a primary key code, a list of modifier codes and its
segment text. A `keydown` event is then matched against the combinations
in order. The first match performs the listener's effects: it prevents
the default action, stops propagation and calls the handler, depending on
the listener. Nothing else happens.

The modules follow the structure of the source file:

- `JsString`: the string built-ins the parser relies on, with their
  properties. These are ASCII `toLowerCase`/`toUpperCase`, the
  ECMAScript `\s` whitespace set with `replace(/\s+/g, '')`, one-character
  `split`, `charCodeAt(0)` and the decimal rendering of a number.
- `KeyTables`: the named-key table, the function-key table filled by its
  loop (`BuildFunctionKeys`), and the modifier table.
- `ShortcutParser`: `convertKeyToCode`, `processKeyCombination` and
  `analyzeShortcut`. A key code is `Code(n)`, or `NaN` for an empty key
  name.
- `Matcher`: the event record, the active-modifier list that
  `validateModifiers` builds by successive pushes, the exact-match rule,
  the first-match scan and `shouldIgnoreElement`.
- `JsObject`: the order in which `Object.entries` lists an object's keys.
  That order decides the order of the multi-shortcut bindings.
- `Dispatch`: the two listeners. Each is a method that returns the
  effects it performs as a trace (`PreventDefault`, `StopPropagation`,
  `CallHandler(h)`), proved equal to a specification function.
  - `KeyboardShortcut` is one mounted `useKeyboardShortcut`. It holds the
    parsed combinations, the options and the mutable handler slot
    (`handlerRef.current`).
  - `KeyboardShortcuts` is one mounted `useKeyboardShortcuts`. It holds
    the bindings built by `AllCombinations` and the shortcuts ref.
- `Describe`: the inverse direction. An event is written as
  `shift+ctrl+alt+meta+<key>` with the modifiers it holds. Parsing that
  text gives one combination, and the event matches it.
- `Scenarios`: concrete events against concrete descriptions, taken from
  the hook's test file and from the quirks listed below.

Handlers are opaque identities (`HandlerId`). An event is a record of its
key code, its four modifier flags and the tag name of its target.

### Where the code differs from the documented intent

The model follows the code in each of these cases.

- Exactness is a counting rule, not set equality. A repeated modifier can
  stand in for a held one that is not required: `ctrl+ctrl+s` matches
  ctrl+shift+S (`Matcher.RepeatedModifierQuirk`). For lists without
  repetitions the rule is set equality (`Matcher.ExactModifierMatch`).
- A meta-only event (Command-S) holds `[17, 91]`, despite the comment
  "treat meta as ctrl". So it fires neither `ctrl+s` nor `meta+s`, and a
  description whose one modifier is meta matches no event at all. A
  description selects Command-S exactly when it has two modifiers, each
  ctrl or meta: `ctrl+meta+s`, but also `ctrl+ctrl+s` and
  `meta+command+s`, by the counting rule above
  (`Matcher.MetaOnlyEvent`, `Matcher.MetaAloneNeverMatches`,
  `Scenarios.CommandKeyQuirk`).
- `cmd` is not a modifier name. It is dropped, so `cmd+s` is a plain `s`
  (`Scenarios.CmdIsNotAModifier`).
- `original` keeps the letter case of the description. Only the key code
  and modifiers are case-insensitive (`ShortcutParser.AnalyzeCaseInsensitive`).
- The `','` entry of the named-key table can never be reached. The
  description is split on commas before any key name is looked up
  (`ShortcutParser.CommaNeverPrimaryKey`).
- A trailing comma adds an alternative with no key. That alternative
  matches nothing (`Scenarios.TrailingComma`).
- The multi-shortcut listener takes its handlers from the memoized
  bindings. The shortcuts ref is kept up to date but never read.
- `Object.entries` lists keys that are array indices first, in ascending
  numeric order. So a numeric description such as `"1"` is matched before
  descriptions written earlier (`JsObject.NumericKeyFirst`,
  `Scenarios.NumericKeyBindsFirst`).

## Model

| member | source | states |
|---|---|---|
| KeyTables.KeyModifiersAreModifierCodes | useKeyboardShortcut.ts:87-99 | every modifier-table entry is one of the codes 16, 17, 18, 91 |
| KeyTables.FunctionKeys | useKeyboardShortcut.ts:81-84 | `f<n>` for 1 <= n <= 20 is in the table with code 111 + n, and every key of the table is such a label |
| KeyTables.BuildFunctionKeys | useKeyboardShortcut.ts:81-84 | the table the start-up loop fills, one `f<i>` per round, equals the function-key table |
| KeyTables.FunctionKeysStep | useKeyboardShortcut.ts:82-83 | one round of the loop adds exactly the entry `f<count>` := 111 + count |
| KeyTables.FunctionKeyShape | useKeyboardShortcut.ts:81-84 | a function-key label is `f` and a numeral from 1 to 20 whose first digit is not `0`, and its code is 111 plus that number |
| KeyTables.FunctionKeyNameShape | useKeyboardShortcut.ts:48-99 | function-key labels are lower case and are neither named keys nor modifier names |
| KeyTables.SpecialKeyShape | useKeyboardShortcut.ts:48-78 | no named key starts with `f`, and none is a single letter, so letters and function-key labels never hit the named-key table |
| KeyTables.FunctionKeyNameInjective | useKeyboardShortcut.ts:83 | distinct numbers give distinct function-key labels |
| KeyTables.SpecialKeyCodeRange | useKeyboardShortcut.ts:48-78 | every named-key code lies between 1 and 222, so `\|\|` never falls through on a table hit |
| KeyTables.FunctionKeyCodeRange | useKeyboardShortcut.ts:81-84 | every function-key code lies between 112 and 131 |
| JsString.StripWhitespace | useKeyboardShortcut.ts:135 | the result holds no whitespace and is no longer than the input |
| JsString.StripClean | useKeyboardShortcut.ts:135 | a string without whitespace is left unchanged |
| JsString.StripKeepsOthers | useKeyboardShortcut.ts:135 | removing whitespace keeps the count of every other character |
| JsString.StripConcat | useKeyboardShortcut.ts:135 | removing whitespace distributes over concatenation |
| JsString.ToLower | useKeyboardShortcut.ts:109 | `toLowerCase` keeps the length and leaves no upper-case ASCII letter |
| JsString.ToUpper | useKeyboardShortcut.ts:113 | `toUpperCase` keeps the length and leaves no lower-case ASCII letter |
| JsString.Split | useKeyboardShortcut.ts:119 | `split` always yields at least one part; the lemmas below fix the parts themselves |
| JsString.SplitCount | useKeyboardShortcut.ts:119 | `split` yields one more part than there are separators |
| JsString.SplitNoSeparator | useKeyboardShortcut.ts:119 | no part of a `split` holds the separator |
| JsString.JoinSplit | useKeyboardShortcut.ts:119 | gluing the parts back with the separator gives the original string |
| JsString.SplitJoin | useKeyboardShortcut.ts:119 | splitting a join of separator-free parts gives the parts back |
| JsString.SplitLower | useKeyboardShortcut.ts:119-122 | lower-casing commutes with splitting on a non-letter separator |
| JsString.LowerIdempotent | useKeyboardShortcut.ts:109 | lower-casing twice is lower-casing once |
| JsString.FirstCodeUnit | useKeyboardShortcut.ts:113 | `charCodeAt(0)` is NaN exactly for the empty string, is below 0x10000, and is the character itself inside the Basic Multilingual Plane |
| JsString.ParseDecimalString | useKeyboardShortcut.ts:83 | the template-literal numeral has only digits, no leading zero, and denotes the number |
| ShortcutParser.FallbackCode | useKeyboardShortcut.ts:113 | the code of the first upper-cased character, NaN exactly for an empty name |
| ShortcutParser.ConvertKeyToCode | useKeyboardShortcut.ts:108-115 | `convertKeyToCode`: every code it yields, from either table or from the first character, fits in 16 bits; the resolution lemmas below say which code each name gets |
| ShortcutParser.NamedKeyResolution | useKeyboardShortcut.ts:108-111 | a name whose lower-case form is a named key resolves to that entry |
| ShortcutParser.FunctionKeyResolution | useKeyboardShortcut.ts:108-112 | `f<n>` in any case, 1 <= n <= 20, resolves to 111 + n |
| ShortcutParser.FallbackResolution | useKeyboardShortcut.ts:108-113 | any other non-empty name resolves to the first code unit of its upper-cased first character |
| ShortcutParser.NaNIffEmptyName | useKeyboardShortcut.ts:108-115 | resolution yields NaN exactly for the empty name |
| ShortcutParser.ConvertCaseInsensitive | useKeyboardShortcut.ts:108-115 | names equal up to letter case resolve alike |
| ShortcutParser.NamedKeyExamples | useKeyboardShortcut.ts:52-57 | `enter` is 13 and `left` is 37 |
| ShortcutParser.FunctionKeyExamples | useKeyboardShortcut.ts:81-84 | `f1` is 112 and `F12` is 123 |
| ShortcutParser.LetterExamples | useKeyboardShortcut.ts:113 | `s` and `S` are both 83 |
| ShortcutParser.PastTheFunctionKeys | useKeyboardShortcut.ts:81-84 | `f21` is past the table and falls back to the code of `F`, 70 |
| ShortcutParser.ModifierCode | useKeyboardShortcut.ts:122 | a known modifier token yields one of 16, 17, 18, 91 |
| ShortcutParser.ModifierCodes | useKeyboardShortcut.ts:121-123 | at most one code per token, each a modifier code |
| ShortcutParser.PrimaryKey | useKeyboardShortcut.ts:119-120 | the popped last part of the segment holds no `+` |
| ShortcutParser.ProcessKeyCombination | useKeyboardShortcut.ts:118-130 | `original` is the segment, and there are at most as many modifiers as `+` signs, each one of 16, 17, 18, 91 |
| ShortcutParser.PrimaryKeyIsLastToken | useKeyboardShortcut.ts:119-120 | the primary key is the `+`-free tail of the segment after its last `+` |
| ShortcutParser.NaNIffNoPrimaryKey | useKeyboardShortcut.ts:120-126 | the key code is NaN exactly when the segment is empty or ends in `+` |
| ShortcutParser.ModifierCodesAppend | useKeyboardShortcut.ts:121-123 | the modifier codes of two token runs are the codes of each, in order |
| ShortcutParser.UnknownModifierDropped | useKeyboardShortcut.ts:122-123 | an unknown token is dropped without affecting the others |
| ShortcutParser.KnownModifiersKept | useKeyboardShortcut.ts:121-123 | with only known tokens, the codes are one per token, in writing order |
| ShortcutParser.ModifierCodesCaseInsensitive | useKeyboardShortcut.ts:122 | tokens equal up to letter case give the same codes |
| ShortcutParser.ProcessLower | useKeyboardShortcut.ts:118-130 | a lower-cased segment parses to the same key code and modifiers |
| ShortcutParser.AnalyzeShortcut | useKeyboardShortcut.ts:133-138 | one combination per comma of the whitespace-free description, plus one |
| ShortcutParser.AnalyzeSegments | useKeyboardShortcut.ts:133-138 | the segment texts, joined with commas, are the whitespace-free description, in order, and none holds a comma or whitespace |
| ShortcutParser.AnalyzeIgnoresWhitespace | useKeyboardShortcut.ts:135 | whitespace inserted anywhere in a description leaves the parse unchanged |
| ShortcutParser.AnalyzeStripped | useKeyboardShortcut.ts:135 | a description and its whitespace-free form parse alike |
| ShortcutParser.AnalyzeLower | useKeyboardShortcut.ts:133-138 | a lower-cased description parses to the same chords |
| ShortcutParser.AnalyzeCaseInsensitive | useKeyboardShortcut.ts:133-138 | descriptions equal up to letter case parse to the same chords |
| ShortcutParser.PrimaryKeyChars | useKeyboardShortcut.ts:119-120 | the primary key holds no character its segment lacks |
| ShortcutParser.CommaNeverPrimaryKey | useKeyboardShortcut.ts:67 | no alternative of any description has `,` as its primary key |
| Matcher.ActiveModifiers | useKeyboardShortcut.ts:142-154 | a code is active exactly when the event holds it (meta counting as ctrl too), the list is strictly ascending, and it has at most 4 entries |
| Matcher.ValidateModifiers | useKeyboardShortcut.ts:141-161 | the pushes build the active list, and the answer is the exact-match rule |
| Matcher.ModifiersMatch | useKeyboardShortcut.ts:156-160 | a modifier list that passes the exact-match test has at most four entries, each one of 16, 17, 18, 91 |
| Matcher.Matches | useKeyboardShortcut.ts:209 | the test of both loops: a matched combination has a real key code and at most four modifier codes |
| Matcher.ExactModifierMatch | useKeyboardShortcut.ts:156-160 | for a modifier list without repetitions, it matches exactly when its modifiers are the held ones |
| Matcher.NoFlagsOnlyBareKeys | useKeyboardShortcut.ts:141-161 | with no modifier key down, only an empty modifier list matches |
| Matcher.MetaOnlyEvent | useKeyboardShortcut.ts:146-154 | a meta-only event holds `[17, 91]`, so neither `[17]` nor `[91]` matches, but `[17, 91]` does |
| Matcher.MetaAloneNeverMatches | useKeyboardShortcut.ts:146-154 | the modifier list `[91]` matches no event |
| Matcher.CtrlAloneMatches | useKeyboardShortcut.ts:141-161 | `[17]` matches exactly when control and nothing else is down |
| Matcher.RepeatedModifierQuirk | useKeyboardShortcut.ts:157-160 | `[17, 17]` matches ctrl+shift although the held set differs |
| Matcher.NaNMatchesNothing | useKeyboardShortcut.ts:209 | a combination without a key code matches no event |
| Matcher.FirstMatch | useKeyboardShortcut.ts:208-226 | the index of the first combination in order that the event matches, and none before it, or no index when none matches |
| Matcher.FirstMatchExists | useKeyboardShortcut.ts:208-226 | if some combination matches, a match is found at or before it |
| Matcher.FirstMatchAppend | useKeyboardShortcut.ts:286-292 | a match in an earlier block of combinations wins over any later one |
| Matcher.ShouldIgnoreElement | useKeyboardShortcut.ts:164-168 | only an element whose tag name is all upper-case letters is ignored, so a lower-case tag name is never suppressed |
| Matcher.SuppressionExamples | useKeyboardShortcut.ts:164-168 | `INPUT`, `SELECT` and `TEXTAREA` are ignored, and `DIV`, no element and lower-case `input` are not |
| JsObject.IndexProperties | useKeyboardShortcut.ts:266 | selects properties whose keys are all array indices |
| JsObject.OtherProperties | useKeyboardShortcut.ts:266 | selects properties none of whose keys is an array index |
| JsObject.ObjectEntries | useKeyboardShortcut.ts:266 | `Object.entries` yields one entry per own property |
| JsObject.SortByIndex | useKeyboardShortcut.ts:266 | a permutation of the index properties |
| JsObject.SortByIndexSorted | useKeyboardShortcut.ts:266 | the index properties come out in ascending numeric order |
| JsObject.ObjectEntriesPermutation | useKeyboardShortcut.ts:266 | `Object.entries` lists every own property exactly once |
| JsObject.ObjectEntriesShape | useKeyboardShortcut.ts:266 | `Object.entries` is a run of index keys in ascending order followed by the other keys in source order |
| JsObject.NoIndexKeysInSourceOrder | useKeyboardShortcut.ts:266 | without numeric keys, the enumeration is the source order |
| JsObject.NumericKeyFirst | useKeyboardShortcut.ts:266 | `{"x+1": a, "1": b}` enumerates `"1"` first |
| Dispatch.KeyboardShortcut.constructor | useKeyboardShortcut.ts:185-192 | a mounted hook holds the parse of its description, its options and its handler |
| Dispatch.KeyboardShortcut.SetHandler | useKeyboardShortcut.ts:192 | a re-render replaces the handler slot |
| Dispatch.SingleEffects | useKeyboardShortcut.ts:196-226 | the single-shortcut effects of an event: the handler call is always the last effect, and preventDefault and stopPropagation occur only when their option is set |
| Dispatch.KeyboardShortcut.HandleKeyEvent | useKeyboardShortcut.ts:196-226 | the listener's loop with its early `break` performs exactly the single-shortcut effects of the event |
| Dispatch.SingleSuppressed | useKeyboardShortcut.ts:198-205 | disabled, or on a form control, the listener does nothing |
| Dispatch.SingleHandlerCalls | useKeyboardShortcut.ts:208-225 | the current handler is called once if some combination matches, and otherwise never |
| Dispatch.SinglePreventDefault | useKeyboardShortcut.ts:211-218 | preventDefault and stopPropagation happen exactly when a combination matches and the option asks for them |
| Dispatch.HandlerCallsAppend | useKeyboardShortcut.ts:221 | the handler calls of two traces are those of each, in order |
| Dispatch.Attach | useKeyboardShortcut.ts:268 | each parsed combination is paired with the entry's handler, in order |
| Dispatch.EntryBindings | useKeyboardShortcut.ts:267-268 | a binding belongs to an entry exactly when it pairs one of its alternatives with its handler |
| Dispatch.Bind | useKeyboardShortcut.ts:264-271 | the bindings of the entries, each entry's alternatives in turn; BindSingle, BindAppend and BindSources state its contents |
| Dispatch.AllCombinations | useKeyboardShortcut.ts:264-271 | the loop over the entries gives the bindings of the entries, in enumeration order |
| Dispatch.FlattenAppend | useKeyboardShortcut.ts:268 | pushing group after group is concatenation |
| Dispatch.FlattenMembers | useKeyboardShortcut.ts:268 | a binding is in the result exactly when it is in one of the groups |
| Dispatch.BindAppend | useKeyboardShortcut.ts:266-269 | the bindings of earlier entries all come before those of later ones |
| Dispatch.BindSources | useKeyboardShortcut.ts:266-269 | a binding is present exactly when some entry has that handler and that alternative |
| Dispatch.KeyboardShortcuts.constructor | useKeyboardShortcut.ts:253-271 | a mounted hook holds the bindings of its map and the map in its ref, and so keeps `Valid` (the bindings are those of the ref's map) |
| Dispatch.KeyboardShortcuts.Update | useKeyboardShortcut.ts:259-271 | a re-render with a new map recomputes the bindings and refreshes the ref, restoring `Valid` |
| Dispatch.MultiEffects | useKeyboardShortcut.ts:275-292 | the multi-shortcut effects of an event: when anything happens, it is preventDefault followed by the call of one binding's handler |
| Dispatch.KeyboardShortcuts.HandleMultipleKeys | useKeyboardShortcut.ts:275-292 | the listener's loop with its early `break` performs exactly the multi-shortcut effects of the event over the bindings of the map in the ref |
| Dispatch.MultiSuppressed | useKeyboardShortcut.ts:276-283 | disabled, or on a form control, the listener does nothing |
| Dispatch.MultiDispatch | useKeyboardShortcut.ts:286-291 | at most one handler runs, and it belongs to the first binding in order that the event matches. preventDefault happens exactly when a handler runs, stopPropagation never happens, and without a match nothing happens |
| Describe.ParseJoined | useKeyboardShortcut.ts:118-138 | clean modifier tokens and a clean key name joined with `+` parse to one combination with exactly those modifiers and that key |
| Describe.ModifierNamesCodes | useKeyboardShortcut.ts:87-99 | the modifier names written for an event parse to its active list |
| Describe.LetterKey | useKeyboardShortcut.ts:108-115 | a letter in either case resolves to its upper-case code point |
| Describe.DescriptionRoundTrip | useKeyboardShortcut.ts:118-161 | an event's description parses to one combination with its key code and active list, and the event matches it |
| Describe.LetterEventRoundTrip | useKeyboardShortcut.ts:118-161 | every letter-key event has a description that selects it |
| Scenarios.ParseCtrlS | useKeyboardShortcut.ts:118-138 | `ctrl+s` parses to key 83 with modifiers `[17]` |
| Scenarios.ParseCtrlShiftS | useKeyboardShortcut.ts:118-138 | `ctrl+shift+s` parses to key 83 with modifiers `[17, 16]` |
| Scenarios.ParseControlS | useKeyboardShortcut.ts:95 | `control+s` parses to key 83 with modifiers `[17]`, the same chord as `ctrl+s` |
| Scenarios.ParseEsc | useKeyboardShortcut.ts:54 | `esc` parses to key 27 without modifiers |
| Scenarios.SaveShortcut | __tests__/useKeyboardShortcut.test.ts:32-64 | ctrl+S fires `ctrl+s` with preventDefault, but ctrl+A and ctrl+shift+S do not |
| Scenarios.ModifierCombination | __tests__/useKeyboardShortcut.test.ts:66-82 | ctrl+shift+S fires `ctrl+shift+s` |
| Scenarios.OptionsRespected | __tests__/useKeyboardShortcut.test.ts:84-135 | `preventDefault: false`, `stopPropagation: true` and `enabled: false` change the effects as documented |
| Scenarios.FormControlsIgnored | __tests__/useKeyboardShortcut.test.ts:137-201 | events from input, textarea and select elements do nothing |
| Scenarios.NamedKeysFire | __tests__/useKeyboardShortcut.test.ts:203-249 | enter (13), f1 (112) and left (37) fire their shortcuts |
| Scenarios.CommandKeyQuirk | useKeyboardShortcut.ts:146-154 | Command-S fires a key-83 combination exactly when it names two modifiers, both ctrl or meta |
| Scenarios.CmdIsNotAModifier | useKeyboardShortcut.ts:87-99 | `cmd+s` parses to a plain `s` |
| Scenarios.TrailingComma | useKeyboardShortcut.ts:133-138 | `ctrl+s,` has two alternatives, and the second has no key and matches no event |
| Scenarios.SaveOpenBindings | __tests__/useKeyboardShortcut.test.ts:253-259 | `{'ctrl+s': save, 'ctrl+o': open}` binds `ctrl+s` to save, then `ctrl+o` to open |
| Scenarios.MultipleShortcuts | __tests__/useKeyboardShortcut.test.ts:253-309 | ctrl+S reaches save only and ctrl+O reaches open only, and nothing happens when disabled or from an input |
| Scenarios.ThreeEntries | useKeyboardShortcut.ts:264-271 | a three-entry map without index keys binds each entry's parses in source order |
| Scenarios.SaveOpenCloseBindings | __tests__/useKeyboardShortcut.test.ts:316-320 | `{'ctrl+s': save, 'ctrl+o': open, 'esc': close}` binds `ctrl+s` to save, `ctrl+o` to open and `esc` to close, in that order |
| Scenarios.MultipleDifferentShortcuts | __tests__/useKeyboardShortcut.test.ts:311-353 | ctrl+S reaches save and Escape reaches close, each alone |
| Scenarios.SameChordBindings | useKeyboardShortcut.ts:264-271 | `{'ctrl+s': first, 'control+s': second}` binds two combinations of the same chord, `ctrl+s` first |
| Scenarios.FirstEntryWins | useKeyboardShortcut.ts:286-291 | with `ctrl+s` and `control+s` both bound, only the first handler runs |
| Scenarios.NumericKeyBindsFirst | useKeyboardShortcut.ts:266 | a numeric key written after `ctrl+s` is listed before it |

## Left out

- React machinery (`useMemo`, `useRef`, `useCallback`, `useEffect` and
  their dependency arrays). A mounted hook is a class instance, and a
  re-render is `SetHandler` or `Update`. Changing the description or the
  options of a single-shortcut hook, or the `enabled` option of a
  `KeyboardShortcuts`, means a new instance.
- Listener registration and removal with `document.addEventListener`, and
  what a handler does once called. Effects are recorded in a trace, not
  performed.
- DOM objects. An event is a plain record, and its target is an optional
  tag name.
- Prototype-chain lookups. Tokens are lower-cased before each lookup, so
  the inherited names reachable in JavaScript are `constructor` and
  `__proto__`. There, `KEY_MODIFIERS["constructor"]` is a function, which
  the `!== undefined` filter keeps as a modifier that no event holds, so
  `constructor+s` never fires; likewise `SPECIAL_KEYS["constructor"]`
  makes the key name `constructor` a key code no event has. The model's
  tables hold only their own entries, so these names act as unknown names:
  the model drops the modifier and fires `constructor+s` on a bare S, and
  resolves the key name `constructor` to the code of `C`.
- Letter case and code units outside ASCII. `toLowerCase`/`toUpperCase`
  map only A to Z. Full Unicode case mapping is not modelled: for example
  `ß` upper-cases to `SS` in JavaScript and the Kelvin sign lower-cases to
  `k`. A lone surrogate code unit cannot appear in a model string.
- JsObject.ObjectEntries: takes an object as the list of its own
  properties in creation order. It does not model a literal that repeats
  a key, which JavaScript collapses into one property.
- ShortcutParser.ProcessKeyCombination: its own contract does not give
  the key code. The key code is stated by `NaNIffNoPrimaryKey`,
  `PrimaryKeyIsLastToken` and the resolution lemmas, and for whole
  descriptions by `Describe.ParseJoined`.
- Scenarios.SaveShortcut: along with the other scenario lemmas about
  `SingleEffects` and `MultiEffects`, it is stated for the parsed
  combinations (`CtrlS`, `ControlS`, `Esc`, ...) and binding lists rather
  than for the descriptions and maps themselves. The `Parse...` lemmas
  prove those combinations are the parses of the descriptions, and
  `SaveOpenBindings`, `SaveOpenCloseBindings` and `SameChordBindings`
  prove the binding lists of `MultipleShortcuts`,
  `MultipleDifferentShortcuts` and `FirstEntryWins` are those of their maps.
