/**
 * The event matcher: which modifiers an event holds, the exact-match
 * test of a combination's modifier list against them, the scan for the
 * first matching combination, and the form-element suppression check.
 */
module Matcher {
  import opened Wrappers
  import opened KeyTables
  import opened ShortcutParser

  /** The element an event was dispatched from: `NoElement` for null or a target without a tag name. */
  datatype Target = NoElement | Element(tagName: string)

  /** The parts of a `keydown` event that the hook reads. */
  datatype KeyEvent = KeyEvent(keyCode: nat, shift: bool, ctrl: bool, alt: bool, meta: bool, target: Target)

  /**
   * Whether the event counts modifier `m` as held. Ctrl is held when the
   * control or the meta key is down; meta, in addition, counts as itself.
   */
  predicate Held(e: KeyEvent, m: nat) {
    (m == ShiftCode && e.shift) || (m == CtrlCode && (e.ctrl || e.meta)) ||
    (m == AltCode && e.alt) || (m == MetaCode && e.meta)
  }

  /** The active-modifier list built from the event's four flags. */
  function ActiveModifiers(e: KeyEvent): (active: seq<nat>)
    ensures forall m :: m in active <==> Held(e, m)
    ensures forall i, j :: 0 <= i < j < |active| ==> active[i] < active[j]
    ensures |active| <= 4
  {
    (if e.shift then [ShiftCode] else []) +
    (if e.ctrl || e.meta then [CtrlCode] else []) +
    (if e.alt then [AltCode] else []) +
    (if e.meta then [MetaCode] else [])
  }

  /**
   * The exact-match rule: as many required modifiers as active ones, and
   * every required modifier held.
   */
  predicate ModifiersMatch(e: KeyEvent, required: seq<nat>): (ok: bool)
    ensures ok ==> |required| <= 4 && forall m :: m in required ==> IsModifierCode(m)
  {
    |required| == |ActiveModifiers(e)| && forall m :: m in required ==> Held(e, m)
  }

  /** `validateModifiers`: pushes the active codes one flag at a time, then compares. */
  method ValidateModifiers(e: KeyEvent, required: seq<nat>) returns (ok: bool)
    ensures ok == ModifiersMatch(e, required)
  {
    var active: seq<nat> := [];
    if e.shift {
      active := active + [ShiftCode];
    }
    if e.ctrl || e.meta {
      active := active + [CtrlCode];
    }
    if e.alt {
      active := active + [AltCode];
    }
    if e.meta {
      active := active + [MetaCode];
    }
    assert active == ActiveModifiers(e);
    ok := |required| == |active| && forall m :: m in required ==> m in active;
  }

  /** The key code is the combination's and the modifiers match exactly. */
  predicate Matches(e: KeyEvent, c: KeyCombination): (hit: bool)
    ensures hit ==> c.keyCode.Code? && |c.modifiers| <= 4
    ensures hit ==> forall m :: m in c.modifiers ==> IsModifierCode(m)
  {
    c.keyCode == Code(e.keyCode) && ModifiersMatch(e, c.modifiers)
  }

  /** The position of the first combination the event matches, in declaration order. */
  function FirstMatch(e: KeyEvent, combinations: seq<KeyCombination>): (r: Option<nat>)
    ensures r.Some? ==> r.value < |combinations| && Matches(e, combinations[r.value])
    ensures r.Some? ==> forall j :: 0 <= j < r.value ==> !Matches(e, combinations[j])
    ensures r.None? ==> forall j :: 0 <= j < |combinations| ==> !Matches(e, combinations[j])
  {
    if combinations == [] then None
    else if Matches(e, combinations[0]) then Some(0)
    else
      match FirstMatch(e, combinations[1..])
      case None => None
      case Some(k) => Some(k + 1)
  }

  /** `shouldIgnoreElement`: events from form controls are not shortcuts. */
  predicate ShouldIgnoreElement(target: Target): (ignored: bool)
    ensures ignored ==> target.Element? && forall i :: 0 <= i < |target.tagName| ==> 'A' <= target.tagName[i] <= 'Z'
  {
    target.Element? &&
    (target.tagName == "INPUT" || target.tagName == "SELECT" || target.tagName == "TEXTAREA")
  }

  // ---------------------------------------------------------------------
  // Properties of the exact-match rule

  predicate NoDuplicates(s: seq<nat>) {
    forall i, j :: 0 <= i < j < |s| ==> s[i] != s[j]
  }

  function Elements(s: seq<nat>): set<nat> {
    set x | x in s
  }

  lemma {:induction false} DistinctCardinality(s: seq<nat>)
    requires NoDuplicates(s)
    ensures |Elements(s)| == |s|
  {
    if s != [] {
      DistinctCardinality(s[1..]);
      assert Elements(s) == {s[0]} + Elements(s[1..]);
      assert s[0] !in Elements(s[1..]);
    }
  }

  lemma {:induction false} SubsetOfSameSize(a: set<nat>, b: set<nat>)
    requires a <= b && |a| == |b|
    ensures a == b
  {
    if a != {} {
      var x :| x in a;
      SubsetOfSameSize(a - {x}, b - {x});
    } else {
      assert |b| == 0;
    }
  }

  /**
   * For a modifier list without repetitions, the rule is set equality:
   * the combination matches exactly when its modifiers are the held ones.
   */
  lemma ExactModifierMatch(e: KeyEvent, required: seq<nat>)
    requires NoDuplicates(required)
    ensures ModifiersMatch(e, required) <==> (forall m :: m in required <==> Held(e, m))
  {
    var active := ActiveModifiers(e);
    DistinctCardinality(required);
    DistinctCardinality(active);
    if ModifiersMatch(e, required) {
      SubsetOfSameSize(Elements(required), Elements(active));
      assert forall m :: m in required <==> m in Elements(active);
    }
    if forall m :: m in required <==> Held(e, m) {
      assert Elements(required) == Elements(active);
    }
  }

  /** With no modifier key down, only combinations without modifiers match. */
  lemma NoFlagsOnlyBareKeys(e: KeyEvent, required: seq<nat>)
    requires !e.shift && !e.ctrl && !e.alt && !e.meta
    ensures ModifiersMatch(e, required) <==> required == []
  {
  }

  /** A meta-only event holds ctrl and meta both. */
  lemma MetaOnlyEvent(e: KeyEvent)
    requires e.meta && !e.shift && !e.ctrl && !e.alt
    ensures ActiveModifiers(e) == [CtrlCode, MetaCode]
    ensures !ModifiersMatch(e, [CtrlCode]) && !ModifiersMatch(e, [MetaCode])
    ensures ModifiersMatch(e, [CtrlCode, MetaCode])
  {
  }

  /** A combination whose one modifier is meta matches no event at all. */
  lemma MetaAloneNeverMatches(e: KeyEvent)
    ensures !ModifiersMatch(e, [MetaCode])
  {
    assert MetaCode in [MetaCode];
    if e.meta {
      assert |ActiveModifiers(e)| >= 2 by {
        if e.shift { assert |ActiveModifiers(e)| >= 3; }
      }
    }
  }

  /** `ctrl+x` matches exactly when control, and nothing else, is down. */
  lemma CtrlAloneMatches(e: KeyEvent)
    ensures ModifiersMatch(e, [CtrlCode]) <==> e.ctrl && !e.meta && !e.shift && !e.alt
  {
    if e.ctrl && !e.meta && !e.shift && !e.alt {
      assert ActiveModifiers(e) == [CtrlCode];
    }
    if ModifiersMatch(e, [CtrlCode]) {
      assert CtrlCode in [CtrlCode];
      assert Held(e, CtrlCode);
    }
  }

  /**
   * The rule counts, it does not compare sets: a repeated required
   * modifier can stand in for a held one that is not required.
   */
  lemma RepeatedModifierQuirk(e: KeyEvent)
    requires e.ctrl && e.shift && !e.alt && !e.meta
    ensures ModifiersMatch(e, [CtrlCode, CtrlCode])
    ensures !(forall m :: m in [CtrlCode, CtrlCode] <==> Held(e, m))
  {
    assert Held(e, ShiftCode);
  }

  /** A combination without a key code matches no event. */
  lemma NaNMatchesNothing(e: KeyEvent, c: KeyCombination)
    requires c.keyCode == NaN
    ensures !Matches(e, c)
  {
  }

  /** `FirstMatch` finds a match exactly when some combination matches. */
  lemma FirstMatchExists(e: KeyEvent, combinations: seq<KeyCombination>, k: nat)
    requires k < |combinations| && Matches(e, combinations[k])
    ensures FirstMatch(e, combinations).Some? && FirstMatch(e, combinations).value <= k
  {
  }

  /** A match in an earlier block of combinations wins over any later one. */
  lemma {:induction false} FirstMatchAppend(e: KeyEvent, a: seq<KeyCombination>, b: seq<KeyCombination>)
    ensures FirstMatch(e, a + b) ==
      match FirstMatch(e, a)
      case Some(k) => Some(k)
      case None => match FirstMatch(e, b) case Some(k) => Some(|a| + k) case None => None
  {
    if a != [] {
      FirstMatchAppend(e, a[1..], b);
      assert (a + b)[0] == a[0] && (a + b)[1..] == a[1..] + b;
      if Matches(e, a[0]) {
        assert FirstMatch(e, a) == Some(0) && FirstMatch(e, a + b) == Some(0);
      }
    } else {
      assert a + b == b;
    }
  }

  /** Suppression is by exact upper-case tag name. */
  lemma SuppressionExamples()
    ensures ShouldIgnoreElement(Element("INPUT")) && ShouldIgnoreElement(Element("SELECT"))
    ensures ShouldIgnoreElement(Element("TEXTAREA"))
    ensures !ShouldIgnoreElement(Element("DIV")) && !ShouldIgnoreElement(NoElement)
    ensures !ShouldIgnoreElement(Element("input"))
  {
  }
}
