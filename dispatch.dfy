/**
 * The two `keydown` listeners. Each scans its combinations in order,
 * stops at the first one the event matches, and performs the listener's
 * effects. An effect is recorded in the returned trace rather than
 * performed, so that what one event causes can be stated and counted.
 */
module Dispatch {
  import opened Wrappers
  import opened ShortcutParser
  import opened Matcher
  import opened JsObject

  /** A handler function, known only by identity. */
  type HandlerId = nat

  /** What a listener does to the event, and the handler it calls. */
  datatype Effect = PreventDefault | StopPropagation | CallHandler(handler: HandlerId)

  /** The single-shortcut options, each with its default already applied. */
  datatype Options = Options(preventDefault: bool, stopPropagation: bool, enabled: bool)

  /** `{}`: prevent the default action, let the event propagate, enabled. */
  const DefaultOptions := Options(true, false, true)

  /** The handlers a trace calls, in order. */
  function HandlerCalls(effects: seq<Effect>): seq<HandlerId> {
    if effects == [] then []
    else CallOf(effects[0]) + HandlerCalls(effects[1..])
  }

  function CallOf(effect: Effect): seq<HandlerId> {
    if effect.CallHandler? then [effect.handler] else []
  }

  /** The event passes the enabled flag and the form-element check. */
  predicate Listening(e: KeyEvent, enabled: bool) {
    enabled && !ShouldIgnoreElement(e.target)
  }

  // ---------------------------------------------------------------------
  // Single shortcut

  /** What the single-shortcut listener does with one event. */
  function SingleEffects(e: KeyEvent, combinations: seq<KeyCombination>, options: Options, handler: HandlerId): (effects: seq<Effect>)
    ensures effects == [] || effects[|effects| - 1] == CallHandler(handler)
    ensures PreventDefault in effects ==> options.preventDefault
    ensures StopPropagation in effects ==> options.stopPropagation
  {
    if Listening(e, options.enabled) && FirstMatch(e, combinations).Some? then
      (if options.preventDefault then [PreventDefault] else []) +
      (if options.stopPropagation then [StopPropagation] else []) +
      [CallHandler(handler)]
    else []
  }

  /**
   * One mounted `useKeyboardShortcut`: the combinations parsed from its
   * description, its options, and the handler slot, which every render
   * overwrites and every event reads.
   */
  class KeyboardShortcut {
    const combinations: seq<KeyCombination>
    const options: Options
    var handler: HandlerId

    constructor(shortcut: string, handler0: HandlerId, options0: Options)
      ensures combinations == AnalyzeShortcut(shortcut)
      ensures options == options0 && handler == handler0
    {
      combinations := AnalyzeShortcut(shortcut);
      options := options0;
      handler := handler0;
    }

    /** A re-render with a new handler: only the slot changes. */
    method SetHandler(h: HandlerId)
      modifies this
      ensures handler == h
    {
      handler := h;
    }

    /** `handleKeyEvent`. */
    method HandleKeyEvent(e: KeyEvent) returns (effects: seq<Effect>)
      ensures effects == SingleEffects(e, combinations, options, handler)
    {
      effects := [];
      if !options.enabled {
        return;
      }
      if ShouldIgnoreElement(e.target) {
        return;
      }
      var i := 0;
      while i < |combinations|
        invariant 0 <= i <= |combinations|
        invariant forall j :: 0 <= j < i ==> !Matches(e, combinations[j])
        invariant effects == []
      {
        var combination := combinations[i];
        if combination.keyCode == Code(e.keyCode) {
          var ok := ValidateModifiers(e, combination.modifiers);
          if ok {
            if options.preventDefault {
              effects := effects + [PreventDefault];
            }
            if options.stopPropagation {
              effects := effects + [StopPropagation];
            }
            effects := effects + [CallHandler(handler)];
            assert FirstMatch(e, combinations) == Some(i);
            break;
          }
        }
        i := i + 1;
      }
    }
  }

  /** Nothing happens while disabled or while a form control has the event. */
  lemma SingleSuppressed(e: KeyEvent, combinations: seq<KeyCombination>, options: Options, handler: HandlerId)
    requires !options.enabled || ShouldIgnoreElement(e.target)
    ensures SingleEffects(e, combinations, options, handler) == []
  {
  }

  /** An event calls the current handler once if some combination matches, and otherwise not at all. */
  lemma SingleHandlerCalls(e: KeyEvent, combinations: seq<KeyCombination>, options: Options, handler: HandlerId)
    ensures HandlerCalls(SingleEffects(e, combinations, options, handler)) ==
      if Listening(e, options.enabled) && exists k :: 0 <= k < |combinations| && Matches(e, combinations[k])
      then [handler] else []
  {
    var effects := SingleEffects(e, combinations, options, handler);
    if Listening(e, options.enabled) && FirstMatch(e, combinations).Some? {
      var p := if options.preventDefault then [PreventDefault] else [];
      var s := if options.stopPropagation then [StopPropagation] else [];
      assert effects == p + s + [CallHandler(handler)];
      HandlerCallsAppend(p + s, [CallHandler(handler)]);
      HandlerCallsAppend(p, s);
      assert HandlerCalls([CallHandler(handler)]) == [handler];
      assert 0 <= FirstMatch(e, combinations).value < |combinations|;
    } else if Listening(e, options.enabled) {
      assert !exists k :: 0 <= k < |combinations| && Matches(e, combinations[k]);
    }
  }

  /** The default action is prevented exactly when the handler runs and the option asks for it. */
  lemma SinglePreventDefault(e: KeyEvent, combinations: seq<KeyCombination>, options: Options, handler: HandlerId)
    ensures PreventDefault in SingleEffects(e, combinations, options, handler) <==>
      Listening(e, options.enabled) && FirstMatch(e, combinations).Some? && options.preventDefault
    ensures StopPropagation in SingleEffects(e, combinations, options, handler) <==>
      Listening(e, options.enabled) && FirstMatch(e, combinations).Some? && options.stopPropagation
  {
  }

  lemma HandlerCallsCons(effect: Effect, rest: seq<Effect>)
    ensures HandlerCalls([effect] + rest) == CallOf(effect) + HandlerCalls(rest)
  {
    assert ([effect] + rest)[0] == effect && ([effect] + rest)[1..] == rest;
  }

  lemma {:induction false} HandlerCallsAppend(a: seq<Effect>, b: seq<Effect>)
    ensures HandlerCalls(a + b) == HandlerCalls(a) + HandlerCalls(b)
  {
    if a == [] {
      assert a + b == b;
    } else {
      var t := a[1..];
      assert a == [a[0]] + t;
      assert a + b == [a[0]] + (t + b);
      HandlerCallsCons(a[0], t + b);
      HandlerCallsCons(a[0], t);
      HandlerCallsAppend(t, b);
    }
  }

  // ---------------------------------------------------------------------
  // Several shortcuts

  /** A parsed combination with the handler of the description it came from. */
  datatype Binding = Binding(combination: KeyCombination, handler: HandlerId)

  /** `parsed.map(combo => ({ ...combo, handler }))`. */
  function Attach(parsed: seq<KeyCombination>, handler: HandlerId): (bindings: seq<Binding>)
    ensures |bindings| == |parsed|
    ensures forall i :: 0 <= i < |parsed| ==> bindings[i] == Binding(parsed[i], handler)
  {
    seq(|parsed|, i requires 0 <= i < |parsed| => Binding(parsed[i], handler))
  }

  /** The bindings of one entry: each alternative of its description with its handler. */
  function EntryBindings(entry: Property<HandlerId>): (bindings: seq<Binding>)
    ensures forall x :: x in bindings <==> x.handler == entry.value && x.combination in AnalyzeShortcut(entry.key)
  {
    var parsed := AnalyzeShortcut(entry.key);
    var bindings := Attach(parsed, entry.value);
    assert forall x :: x in bindings ==> x.combination in parsed by {
      forall x | x in bindings ensures x.combination in parsed {
        var i :| 0 <= i < |bindings| && bindings[i] == x;
        assert x.combination == parsed[i];
      }
    }
    assert forall c :: c in parsed ==> Binding(c, entry.value) in bindings by {
      forall c | c in parsed ensures Binding(c, entry.value) in bindings {
        var i :| 0 <= i < |parsed| && parsed[i] == c;
        assert bindings[i] == Binding(c, entry.value);
      }
    }
    bindings
  }

  /** The groups laid end to end, `combinations.push(...group)` after `combinations.push(...group)`. */
  function Flatten(groups: seq<seq<Binding>>): seq<Binding> {
    if groups == [] then [] else Flatten(groups[..|groups| - 1]) + groups[|groups| - 1]
  }

  /** The bindings of each entry, one group per entry. */
  function EntryGroups(entries: seq<Property<HandlerId>>): (groups: seq<seq<Binding>>)
    ensures |groups| == |entries|
    ensures forall i :: 0 <= i < |entries| ==> groups[i] == EntryBindings(entries[i])
  {
    seq(|entries|, i requires 0 <= i < |entries| => EntryBindings(entries[i]))
  }

  /** The bindings of a list of entries, each entry's alternatives in turn. */
  function Bind(entries: seq<Property<HandlerId>>): seq<Binding> {
    Flatten(EntryGroups(entries))
  }

  function Combinations(bindings: seq<Binding>): (cs: seq<KeyCombination>)
    ensures |cs| == |bindings|
    ensures forall i :: 0 <= i < |bindings| ==> cs[i] == bindings[i].combination
  {
    seq(|bindings|, i requires 0 <= i < |bindings| => bindings[i].combination)
  }

  /** `allCombinations`: walks the object's entries and appends each one's bindings. */
  method AllCombinations(shortcutsMap: seq<Property<HandlerId>>) returns (combinations: seq<Binding>)
    ensures combinations == Bind(ObjectEntries(shortcutsMap))
  {
    var entries := ObjectEntries(shortcutsMap);
    ghost var groups := EntryGroups(entries);
    combinations := [];
    var i := 0;
    while i < |entries|
      invariant 0 <= i <= |entries|
      invariant combinations == Flatten(groups[..i])
    {
      var parsed := AnalyzeShortcut(entries[i].key);
      FlattenStep(groups, i);
      combinations := combinations + Attach(parsed, entries[i].value);
      i := i + 1;
    }
    assert groups[..i] == groups;
  }

  lemma FlattenStep(groups: seq<seq<Binding>>, i: nat)
    requires i < |groups|
    ensures Flatten(groups[..i + 1]) == Flatten(groups[..i]) + groups[i]
  {
    assert groups[..i + 1][..i] == groups[..i];
  }

  lemma {:induction false} FlattenAppend(a: seq<seq<Binding>>, b: seq<seq<Binding>>)
    ensures Flatten(a + b) == Flatten(a) + Flatten(b)
  {
    if b == [] {
      assert a + b == a;
    } else {
      var b', last := b[..|b| - 1], b[|b| - 1];
      FlattenAppend(a, b');
      assert (a + b)[..|a + b| - 1] == a + b';
      assert (a + b)[|a + b| - 1] == last;
    }
  }

  lemma {:induction false} FlattenMembers(groups: seq<seq<Binding>>, x: Binding)
    ensures x in Flatten(groups) <==> exists k :: 0 <= k < |groups| && x in groups[k]
  {
    if groups != [] {
      var n := |groups| - 1;
      var init := groups[..n];
      FlattenMembers(init, x);
      assert Flatten(groups) == Flatten(init) + groups[n];
      assert forall k :: 0 <= k < n ==> init[k] == groups[k];
      if x in groups[n] {
        assert x in groups[n];
      } else if exists k :: 0 <= k < |groups| && x in groups[k] {
        var k :| 0 <= k < |groups| && x in groups[k];
        assert x in init[k];
      }
    }
  }

  lemma BindSingle(entry: Property<HandlerId>)
    ensures Bind([entry]) == EntryBindings(entry)
  {
    var groups := EntryGroups([entry]);
    assert groups == [EntryBindings(entry)];
    assert Bind([entry]) == Flatten(groups);
    assert groups[..0] == [];
    assert Flatten(groups) == Flatten(groups[..0]) + groups[0];
    assert Flatten(groups) == [] + EntryBindings(entry);
  }

  /** The bindings of earlier entries all come before those of later ones. */
  lemma BindAppend(a: seq<Property<HandlerId>>, b: seq<Property<HandlerId>>)
    ensures Bind(a + b) == Bind(a) + Bind(b)
  {
    var ga, gb := EntryGroups(a), EntryGroups(b);
    forall i | 0 <= i < |a + b| ensures EntryGroups(a + b)[i] == (ga + gb)[i] {
      if i < |a| {
        assert (a + b)[i] == a[i];
      } else {
        assert (a + b)[i] == b[i - |a|];
      }
    }
    assert EntryGroups(a + b) == ga + gb;
    FlattenAppend(ga, gb);
  }

  /**
   * Every binding comes from one entry: its combination is one of the
   * alternatives of that entry's description and its handler is that
   * entry's handler. Conversely every alternative of every entry is bound.
   */
  lemma BindSources(entries: seq<Property<HandlerId>>, b: Binding)
    ensures b in Bind(entries) <==>
      exists k :: 0 <= k < |entries| && b.handler == entries[k].value && b.combination in AnalyzeShortcut(entries[k].key)
  {
    var groups := EntryGroups(entries);
    FlattenMembers(groups, b);
    assert forall k :: 0 <= k < |entries| ==> groups[k] == EntryBindings(entries[k]);
  }

  /** What the multi-shortcut listener does with one event. */
  function MultiEffects(e: KeyEvent, bindings: seq<Binding>, enabled: bool): (effects: seq<Effect>)
    ensures effects != [] ==>
      exists k :: 0 <= k < |bindings| && effects == [PreventDefault, CallHandler(bindings[k].handler)]
  {
    if Listening(e, enabled) then
      match FirstMatch(e, Combinations(bindings))
      case Some(k) => [PreventDefault, CallHandler(bindings[k].handler)]
      case None => []
    else []
  }

  /**
   * One mounted `useKeyboardShortcuts`: the enabled flag, the memoized
   * bindings, and the shortcuts ref. The ref is kept up to date but the
   * listener reads the bindings only.
   */
  class KeyboardShortcuts {
    const enabled: bool
    var shortcutsRef: seq<Property<HandlerId>>
    var bindings: seq<Binding>

    /** The memoized bindings are those of the map the ref holds. */
    ghost predicate Valid()
      reads this
    {
      bindings == Bind(ObjectEntries(shortcutsRef))
    }

    constructor(shortcutsMap: seq<Property<HandlerId>>, enabled0: bool)
      ensures Valid()
      ensures enabled == enabled0 && shortcutsRef == shortcutsMap
      ensures bindings == Bind(ObjectEntries(shortcutsMap))
    {
      var initial := AllCombinations(shortcutsMap);
      enabled := enabled0;
      shortcutsRef := shortcutsMap;
      bindings := initial;
    }

    /** A re-render with a different map: the memo recomputes and the effect refreshes the ref. */
    method Update(shortcutsMap: seq<Property<HandlerId>>)
      modifies this
      ensures Valid()
      ensures shortcutsRef == shortcutsMap
      ensures bindings == Bind(ObjectEntries(shortcutsMap))
    {
      bindings := AllCombinations(shortcutsMap);
      shortcutsRef := shortcutsMap;
    }

    /** `handleMultipleKeys`. */
    method HandleMultipleKeys(e: KeyEvent) returns (effects: seq<Effect>)
      ensures effects == MultiEffects(e, bindings, enabled)
      ensures Valid() ==> effects == MultiEffects(e, Bind(ObjectEntries(shortcutsRef)), enabled)
    {
      effects := [];
      if !enabled {
        return;
      }
      if ShouldIgnoreElement(e.target) {
        return;
      }
      ghost var cs := Combinations(bindings);
      var i := 0;
      while i < |bindings|
        invariant 0 <= i <= |bindings|
        invariant forall j :: 0 <= j < i ==> !Matches(e, cs[j])
        invariant effects == []
      {
        var binding := bindings[i];
        if binding.combination.keyCode == Code(e.keyCode) {
          var ok := ValidateModifiers(e, binding.combination.modifiers);
          if ok {
            effects := effects + [PreventDefault];
            effects := effects + [CallHandler(binding.handler)];
            assert FirstMatch(e, cs) == Some(i);
            break;
          }
        }
        i := i + 1;
      }
    }
  }

  /** Nothing happens while disabled or while a form control has the event. */
  lemma MultiSuppressed(e: KeyEvent, bindings: seq<Binding>, enabled: bool)
    requires !enabled || ShouldIgnoreElement(e.target)
    ensures MultiEffects(e, bindings, enabled) == []
  {
  }

  /**
   * An event calls at most one handler: that of the first binding, in
   * order, whose combination it matches. The default action is prevented
   * exactly when a handler runs, and propagation is never stopped.
   */
  lemma MultiDispatch(e: KeyEvent, bindings: seq<Binding>, enabled: bool)
    ensures var effects := MultiEffects(e, bindings, enabled);
      |HandlerCalls(effects)| <= 1 &&
      (PreventDefault in effects <==> |HandlerCalls(effects)| == 1) &&
      StopPropagation !in effects
    ensures forall k ::
      (0 <= k < |bindings| && Listening(e, enabled) && Matches(e, bindings[k].combination) &&
       (forall j :: 0 <= j < k ==> !Matches(e, bindings[j].combination))) ==>
      HandlerCalls(MultiEffects(e, bindings, enabled)) == [bindings[k].handler]
    ensures (forall k :: 0 <= k < |bindings| ==> !Matches(e, bindings[k].combination)) ==>
      MultiEffects(e, bindings, enabled) == []
  {
    var cs := Combinations(bindings);
    var effects := MultiEffects(e, bindings, enabled);
    if Listening(e, enabled) && FirstMatch(e, cs).Some? {
      var k := FirstMatch(e, cs).value;
      var call := CallHandler(bindings[k].handler);
      assert effects == [PreventDefault] + ([call] + []);
      HandlerCallsCons(call, []);
      HandlerCallsCons(PreventDefault, [call] + []);
      assert HandlerCalls(effects) == [bindings[k].handler];
    }
    forall k | 0 <= k < |bindings| && Listening(e, enabled) && Matches(e, bindings[k].combination) &&
      (forall j :: 0 <= j < k ==> !Matches(e, bindings[j].combination))
      ensures HandlerCalls(effects) == [bindings[k].handler]
    {
      FirstMatchExists(e, cs, k);
    }
  }
}
