/**
 * The three static key tables: the named keys, the generated function
 * keys `f1` .. `f20`, and the modifier names with their symbolic aliases.
 */
module KeyTables {
  import opened JsString

  // The four modifier codes.
  const ShiftCode: nat := 16
  const CtrlCode: nat := 17
  const AltCode: nat := 18
  const MetaCode: nat := 91

  predicate IsModifierCode(m: nat) {
    m == ShiftCode || m == CtrlCode || m == AltCode || m == MetaCode
  }

  /** The named keys and punctuation, keyed by their lower-case names. */
  const SpecialKeys: map<string, nat> := map[
    "backspace" := 8, "tab" := 9, "clear" := 12, "enter" := 13, "return" := 13,
    "esc" := 27, "escape" := 27, "space" := 32, "left" := 37, "up" := 38,
    "right" := 39, "down" := 40, "del" := 46, "delete" := 46, "home" := 36,
    "end" := 35, "pageup" := 33, "pagedown" := 34, "," := 188, "." := 190,
    "/" := 191, "`" := 192, "-" := 189, "=" := 187, ";" := 186, "'" := 222,
    "[" := 219, "]" := 221, "\\" := 220
  ]

  /** The modifier names and the symbols ⇧ ⌥ ⌃ ⌘, keyed in lower case. */
  const KeyModifiers: map<string, nat> := map[
    "\U{21E7}" := 16, "shift" := 16,
    "\U{2325}" := 18, "alt" := 18, "option" := 18,
    "\U{2303}" := 17, "ctrl" := 17, "control" := 17,
    "\U{2318}" := 91, "command" := 91, "meta" := 91
  ]

  /** Every modifier name resolves to one of the four modifier codes. */
  lemma KeyModifiersAreModifierCodes(name: string)
    requires name in KeyModifiers
    ensures IsModifierCode(KeyModifiers[name])
  {
  }

  /** The label `f<n>` of a function key. */
  function FunctionKeyName(n: nat): string {
    "f" + DecimalString(n)
  }

  lemma FunctionKeyNameInjective(m: nat, n: nat)
    ensures FunctionKeyName(m) == FunctionKeyName(n) ==> m == n
  {
    if FunctionKeyName(m) == FunctionKeyName(n) {
      assert DecimalString(m) == FunctionKeyName(m)[1..];
      assert DecimalString(n) == FunctionKeyName(n)[1..];
      DecimalStringInjective(m, n);
    }
  }

  /** The function keys `f1` .. `f20`, mapped to 112 .. 131. */
  function FunctionKeys(): (table: map<string, nat>)
    ensures forall n :: 1 <= n <= 20 ==>
      FunctionKeyName(n) in table && table[FunctionKeyName(n)] == 111 + n
    ensures forall k :: k in table ==> exists n :: 1 <= n <= 20 && k == FunctionKeyName(n)
  {
    FunctionKeysUpTo(20)
  }

  /** The table after the first `count` rounds of the generating loop. */
  function FunctionKeysUpTo(count: nat): (table: map<string, nat>)
    ensures forall n :: 1 <= n <= count ==>
      FunctionKeyName(n) in table && table[FunctionKeyName(n)] == 111 + n
    ensures forall k :: k in table ==> exists n :: 1 <= n <= count && k == FunctionKeyName(n)
  {
    assert forall m, n :: FunctionKeyName(m) == FunctionKeyName(n) ==> m == n by {
      forall m, n { FunctionKeyNameInjective(m, n); }
    }
    map n | 1 <= n <= count :: FunctionKeyName(n) := 111 + n
  }

  /** One round of the generating loop extends the table by `f<count>`. */
  lemma FunctionKeysStep(count: nat)
    requires count >= 1
    ensures FunctionKeysUpTo(count) == FunctionKeysUpTo(count - 1)[FunctionKeyName(count) := 111 + count]
  {
    var before, after := FunctionKeysUpTo(count - 1), FunctionKeysUpTo(count);
    var grown := before[FunctionKeyName(count) := 111 + count];
    FunctionKeysStepKeys(count);
    FunctionKeysStepValues(count);
    assert FunctionKeyName(count) in after && after[FunctionKeyName(count)] == 111 + count;
    forall k ensures k in after <==> k in grown {
    }
    forall k | k in after ensures after[k] == grown[k] {
    }
    MapExtensionality(after, grown);
  }

  lemma MapExtensionality<K, V>(a: map<K, V>, b: map<K, V>)
    requires forall k :: k in a <==> k in b
    requires forall k :: k in a ==> a[k] == b[k]
    ensures a == b
  {
  }

  lemma FunctionKeysStepKeys(count: nat)
    requires count >= 1
    ensures forall k :: k in FunctionKeysUpTo(count) ==> k in FunctionKeysUpTo(count - 1) || k == FunctionKeyName(count)
  {
    var before, after := FunctionKeysUpTo(count - 1), FunctionKeysUpTo(count);
    forall k | k in after ensures k in before || k == FunctionKeyName(count) {
      var n :| 1 <= n <= count && k == FunctionKeyName(n);
      if n < count { assert k in before; }
    }
  }

  lemma FunctionKeysStepValues(count: nat)
    requires count >= 1
    ensures forall k :: k in FunctionKeysUpTo(count - 1) ==>
      k in FunctionKeysUpTo(count) && FunctionKeysUpTo(count)[k] == FunctionKeysUpTo(count - 1)[k]
  {
    var before, after := FunctionKeysUpTo(count - 1), FunctionKeysUpTo(count);
    forall k | k in before ensures k in after && after[k] == before[k] {
      var n :| 1 <= n <= count - 1 && k == FunctionKeyName(n);
      assert before[k] == 111 + n;
      assert after[k] == 111 + n;
    }
  }

  /**
   * The loop that fills the function-key table at start-up: round `i`
   * adds `f<i>` with code `111 + i`.
   */
  method BuildFunctionKeys() returns (table: map<string, nat>)
    ensures table == FunctionKeys()
  {
    table := map[];
    for i := 1 to 21
      invariant table == FunctionKeysUpTo(i - 1)
    {
      FunctionKeysStep(i);
      table := table[FunctionKeyName(i) := 111 + i];
    }
  }

  /** Every function-key label is `f` followed by the numeral of its number, 1 to 20. */
  lemma FunctionKeyShape(k: string)
    ensures k in FunctionKeys() ==>
      |k| >= 2 && k[0] == 'f' && k[1] != '0' && AllDigits(k[1..]) &&
      1 <= ParseDecimal(k[1..]) <= 20 && FunctionKeys()[k] == 111 + ParseDecimal(k[1..])
  {
    forall n | 1 <= n <= 20
      ensures var name := FunctionKeyName(n);
        |name| >= 2 && name[0] == 'f' && name[1] != '0' && AllDigits(name[1..]) && ParseDecimal(name[1..]) == n
    {
      ParseDecimalString(n);
      assert FunctionKeyName(n)[1..] == DecimalString(n);
    }
  }

  /** No named key starts with the letter `f`, and none is a single letter. */
  lemma SpecialKeyShape(k: string)
    requires k in SpecialKeys
    ensures |k| >= 1 && k[0] != 'f' && (|k| == 1 ==> !('a' <= k[0] <= 'z') && !('A' <= k[0] <= 'Z'))
  {
  }

  /** No modifier name starts with the letter `f`. */
  lemma ModifierNameShape(k: string)
    requires k in KeyModifiers
    ensures |k| >= 1 && k[0] != 'f'
  {
  }

  /** The function-key labels are all lower case, start with `f`, and are not named keys. */
  lemma FunctionKeyNameShape(n: nat)
    ensures var name := FunctionKeyName(n);
      ToLower(name) == name && name !in SpecialKeys && name !in KeyModifiers
  {
    var name := FunctionKeyName(n);
    ParseDecimalString(n);
    assert name == ['f'] + DecimalString(n);
    assert forall i :: 0 <= i < |name| ==> LowerChar(name[i]) == name[i];
    if name in SpecialKeys {
      SpecialKeyShape(name);
    }
    if name in KeyModifiers {
      ModifierNameShape(name);
    }
  }

  /**
   * Every named-key code lies in 1..222 and every function-key code in
   * 112..131: none is 0, so `||` never falls through on a hit, and each
   * fits in one UTF-16 code unit.
   */
  lemma SpecialKeyCodeRange(name: string)
    requires name in SpecialKeys
    ensures 0 < SpecialKeys[name] <= 222
  {
  }

  lemma FunctionKeyCodeRange(name: string)
    requires name in FunctionKeys()
    ensures 111 < FunctionKeys()[name] <= 131
  {
  }
}
