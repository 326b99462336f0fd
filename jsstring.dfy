/**
 * The JavaScript string built-ins that the shortcut parser relies on:
 * `toLowerCase`/`toUpperCase` (ASCII letters only), the `\s` character
 * class, `split` on a one-character separator, `charCodeAt(0)` and the
 * decimal rendering of a natural number in a template literal.
 */
module JsString {
  import opened Wrappers

  /** `toLowerCase` of one character, restricted to the ASCII letters. */
  function LowerChar(c: char): char {
    if 'A' <= c <= 'Z' then (c as int + 32) as char else c
  }

  /** `toUpperCase` of one character, restricted to the ASCII letters. */
  function UpperChar(c: char): char {
    if 'a' <= c <= 'z' then (c as int - 32) as char else c
  }

  function ToLower(s: string): (r: string)
    ensures |r| == |s| && forall i :: 0 <= i < |r| ==> !('A' <= r[i] <= 'Z')
  {
    seq(|s|, i requires 0 <= i < |s| => LowerChar(s[i]))
  }

  function ToUpper(s: string): (r: string)
    ensures |r| == |s| && forall i :: 0 <= i < |r| ==> !('a' <= r[i] <= 'z')
  {
    seq(|s|, i requires 0 <= i < |s| => UpperChar(s[i]))
  }

  lemma {:induction false} LowerIdempotent(s: string)
    ensures ToLower(ToLower(s)) == ToLower(s)
  {
    assert forall i :: 0 <= i < |s| ==> LowerChar(LowerChar(s[i])) == LowerChar(s[i]);
  }

  /** Upper-casing forgets whatever lower-casing did first. */
  lemma UpperOfLower(c: char)
    ensures UpperChar(LowerChar(c)) == UpperChar(c)
  {
  }

  /**
   * The characters matched by `\s` in an ECMAScript regular expression:
   * the WhiteSpace and LineTerminator productions (tab, vertical tab,
   * form feed, space, no-break space, the byte order mark, the other
   * space separators of Unicode category Zs, line feed, carriage return,
   * line separator and paragraph separator).
   */
  predicate IsWhitespace(c: char) {
    c == '\t' || c == '\n' || c == '\U{000B}' || c == '\U{000C}' || c == '\r' ||
    c == ' ' || c == '\U{00A0}' || c == '\U{1680}' || ('\U{2000}' <= c <= '\U{200A}') ||
    c == '\U{2028}' || c == '\U{2029}' || c == '\U{202F}' || c == '\U{205F}' ||
    c == '\U{3000}' || c == '\U{FEFF}'
  }

  /** `s.replace(/\s+/g, '')`: every whitespace character removed. */
  function StripWhitespace(s: string): (r: string)
    ensures forall i :: 0 <= i < |r| ==> !IsWhitespace(r[i])
    ensures |r| <= |s|
  {
    if s == [] then []
    else (if IsWhitespace(s[0]) then [] else [s[0]]) + StripWhitespace(s[1..])
  }

  /** A string without whitespace is left as it is, so stripping is idempotent. */
  lemma {:induction false} StripClean(s: string)
    requires forall i :: 0 <= i < |s| ==> !IsWhitespace(s[i])
    ensures StripWhitespace(s) == s
  {
    if s != [] {
      StripClean(s[1..]);
    }
  }

  lemma StripIdempotent(s: string)
    ensures StripWhitespace(StripWhitespace(s)) == StripWhitespace(s)
  {
    StripClean(StripWhitespace(s));
  }

  /** Stripping only removes whitespace: the other characters keep their count. */
  lemma {:induction false} StripKeepsOthers(s: string, c: char)
    requires !IsWhitespace(c)
    ensures multiset(StripWhitespace(s))[c] == multiset(s)[c]
  {
    if s != [] {
      StripKeepsOthers(s[1..], c);
      assert s == [s[0]] + s[1..];
    }
  }

  /** Lower-casing commutes with stripping whitespace (no letter is whitespace). */
  lemma {:induction false} StripLower(s: string)
    ensures StripWhitespace(ToLower(s)) == ToLower(StripWhitespace(s))
  {
    if s != [] {
      var c := s[0];
      var ls := ToLower(s);
      assert ls[0] == LowerChar(c) && ls[1..] == ToLower(s[1..]);
      assert IsWhitespace(LowerChar(c)) == IsWhitespace(c);
      StripLower(s[1..]);
      var head := if IsWhitespace(c) then [] else [c];
      var tail := StripWhitespace(s[1..]);
      assert StripWhitespace(ls) == ToLower(head) + ToLower(tail);
      assert ToLower(head + tail) == ToLower(head) + ToLower(tail);
    }
  }

  /** The inverse of `Split`: the parts glued back together with the separator. */
  function Join(parts: seq<string>, sep: char): string {
    if |parts| == 0 then []
    else if |parts| == 1 then parts[0]
    else parts[0] + [sep] + Join(parts[1..], sep)
  }

  /** `s.split(sep)` for a one-character separator; the lemmas below state what it computes. */
  function Split(s: string, sep: char): (parts: seq<string>)
    ensures |parts| >= 1
  {
    if s == [] then [[]]
    else
      var rest := Split(s[1..], sep);
      if s[0] == sep then [[]] + rest else [[s[0]] + rest[0]] + rest[1..]
  }

  /** `split` yields one more part than there are separators. */
  lemma {:induction false} SplitCount(s: string, sep: char)
    ensures |Split(s, sep)| == multiset(s)[sep] + 1
  {
    if s != [] {
      SplitCount(s[1..], sep);
      assert s == [s[0]] + s[1..];
    }
  }

  /** No part of a `split` contains the separator. */
  lemma {:induction false} SplitNoSeparator(s: string, sep: char)
    ensures forall i :: 0 <= i < |Split(s, sep)| ==> sep !in Split(s, sep)[i]
  {
    if s != [] {
      SplitNoSeparator(s[1..], sep);
      var rest := Split(s[1..], sep);
      var parts := Split(s, sep);
      if s[0] != sep {
        assert parts[0] == [s[0]] + rest[0];
        forall i | 0 < i < |parts| ensures sep !in parts[i] {
          assert parts[i] == rest[i];
        }
      } else {
        forall i | 0 < i < |parts| ensures sep !in parts[i] {
          assert parts[i] == rest[i - 1];
        }
      }
    }
  }

  /** Joining the parts of a `split` with the separator gives the string back. */
  lemma {:induction false} JoinSplit(s: string, sep: char)
    ensures Join(Split(s, sep), sep) == s
  {
    if s != [] {
      JoinSplit(s[1..], sep);
      var rest := Split(s[1..], sep);
      var parts := Split(s, sep);
      assert s == [s[0]] + s[1..];
      if s[0] != sep {
        assert parts[1..] == rest[1..];
        if |rest| > 1 {
          assert Join(rest, sep) == rest[0] + [sep] + Join(rest[1..], sep);
          assert Join(parts, sep) == ([s[0]] + rest[0]) + [sep] + Join(rest[1..], sep);
        }
      } else {
        assert parts[1..] == rest;
      }
    }
  }

  /** Every character of a join is the separator or a character of some part. */
  lemma {:induction false} JoinChars(parts: seq<string>, sep: char, x: char)
    requires x in Join(parts, sep)
    ensures x == sep || exists i :: 0 <= i < |parts| && x in parts[i]
  {
    if |parts| >= 2 && x !in parts[0] && x != sep {
      assert x in Join(parts[1..], sep);
      JoinChars(parts[1..], sep, x);
      var i :| 0 <= i < |parts[1..]| && x in parts[1..][i];
      assert x in parts[i + 1];
    }
  }

  /** Every character of a part occurs in the string that was split. */
  lemma {:induction false} SplitPartChars(s: string, sep: char, i: nat, x: char)
    requires i < |Split(s, sep)| && x in Split(s, sep)[i]
    ensures x in s
  {
    var rest := Split(s[1..], sep);
    var parts := Split(s, sep);
    assert s == [s[0]] + s[1..];
    if s[0] == sep {
      assert parts == [[]] + rest;
      SplitPartChars(s[1..], sep, i - 1, x);
    } else if i == 0 {
      assert parts[0] == [s[0]] + rest[0];
      if x != s[0] {
        SplitPartChars(s[1..], sep, 0, x);
      }
    } else {
      assert parts[i] == rest[i];
      SplitPartChars(s[1..], sep, i, x);
    }
  }

  /** The last part is glued on after all the others. */
  lemma {:induction false} JoinLast(parts: seq<string>, sep: char)
    requires |parts| >= 2
    ensures Join(parts, sep) == Join(parts[..|parts| - 1], sep) + [sep] + parts[|parts| - 1]
  {
    if |parts| == 2 {
      assert parts[..1] == [parts[0]];
    } else {
      var n := |parts|;
      JoinLast(parts[1..], sep);
      assert parts[1..][..n - 2] == parts[1..n - 1];
      assert parts[..n - 1][1..] == parts[1..n - 1];
    }
  }

  lemma {:induction false} StripConcat(a: string, b: string)
    ensures StripWhitespace(a + b) == StripWhitespace(a) + StripWhitespace(b)
  {
    if a != [] {
      StripConcat(a[1..], b);
      assert (a + b)[0] == a[0] && (a + b)[1..] == a[1..] + b;
      var head := if IsWhitespace(a[0]) then [] else [a[0]];
      assert StripWhitespace(a + b) == head + (StripWhitespace(a[1..]) + StripWhitespace(b));
      assert StripWhitespace(a) == head + StripWhitespace(a[1..]);
    } else {
      assert a + b == b;
    }
  }

  lemma {:induction false} StripAllWhitespace(w: string)
    requires forall i :: 0 <= i < |w| ==> IsWhitespace(w[i])
    ensures StripWhitespace(w) == []
  {
    if w != [] {
      StripAllWhitespace(w[1..]);
    }
  }

  /** Splitting a chunk without separators, followed by a separator, peels it off. */
  lemma {:induction false} SplitPeel(p: string, t: string, sep: char)
    requires sep !in p
    ensures Split(p + [sep] + t, sep) == [p] + Split(t, sep)
  {
    var q := p + [sep] + t;
    if p == [] {
      assert q[0] == sep && q[1..] == t;
    } else {
      assert q[0] == p[0] && q[0] != sep;
      assert q[1..] == p[1..] + [sep] + t;
      SplitPeel(p[1..], t, sep);
      var rest := Split(q[1..], sep);
      assert rest == [p[1..]] + Split(t, sep);
      assert Split(q, sep) == [[p[0]] + rest[0]] + rest[1..];
      assert [p[0]] + p[1..] == p;
    }
  }

  lemma {:induction false} SplitWhole(p: string, sep: char)
    requires sep !in p
    ensures Split(p, sep) == [p]
  {
    if p != [] {
      SplitWhole(p[1..], sep);
      assert [p[0]] + p[1..] == p;
    }
  }

  /** `Split` undoes `Join` on parts that do not contain the separator. */
  lemma {:induction false} SplitJoin(parts: seq<string>, sep: char)
    requires |parts| >= 1
    requires forall i :: 0 <= i < |parts| ==> sep !in parts[i]
    ensures Split(Join(parts, sep), sep) == parts
  {
    if |parts| == 1 {
      SplitWhole(parts[0], sep);
    } else {
      SplitJoin(parts[1..], sep);
      SplitPeel(parts[0], Join(parts[1..], sep), sep);
      assert [parts[0]] + parts[1..] == parts;
    }
  }

  /** Every part lower-cased. */
  function LowerAll(parts: seq<string>): (r: seq<string>)
    ensures |r| == |parts| && forall i :: 0 <= i < |parts| ==> r[i] == ToLower(parts[i])
  {
    if parts == [] then [] else [ToLower(parts[0])] + LowerAll(parts[1..])
  }

  /** One unfolding of `Split`, stated for a string with a known first character. */
  lemma SplitCons(c: char, r: string, sep: char)
    ensures var rest := Split(r, sep);
      Split([c] + r, sep) == if c == sep then [[]] + rest else [[c] + rest[0]] + rest[1..]
  {
    assert ([c] + r)[0] == c && ([c] + r)[1..] == r;
  }

  lemma LowerAllCons(x: string, xs: seq<string>)
    ensures LowerAll([x] + xs) == [ToLower(x)] + LowerAll(xs)
  {
    assert ([x] + xs)[0] == x && ([x] + xs)[1..] == xs;
  }

  lemma ToLowerCons(c: char, r: string)
    ensures ToLower([c] + r) == [LowerChar(c)] + ToLower(r)
  {
  }

  /** The step of `SplitLower` when the first character is not the separator. */
  lemma SplitLowerGlue(c: char, r: string, sep: char)
    requires c != sep && LowerChar(c) != sep
    requires Split(ToLower(r), sep) == LowerAll(Split(r, sep))
    ensures Split(ToLower([c] + r), sep) == LowerAll(Split([c] + r, sep))
  {
    var a := Split(r, sep);
    var b := Split(ToLower(r), sep);
    var head := [c] + a[0];
    SplitCons(c, r, sep);
    ToLowerCons(c, r);
    SplitCons(LowerChar(c), ToLower(r), sep);
    LowerAllCons(head, a[1..]);
    ToLowerCons(c, a[0]);
    LowerAllCons(a[0], a[1..]);
    assert a == [a[0]] + a[1..];
    assert b[0] == ToLower(a[0]) && b[1..] == LowerAll(a[1..]);
  }

  /** The step of `SplitLower` when the first character is the separator. */
  lemma SplitLowerCut(r: string, sep: char)
    requires LowerChar(sep) == sep
    requires Split(ToLower(r), sep) == LowerAll(Split(r, sep))
    ensures Split(ToLower([sep] + r), sep) == LowerAll(Split([sep] + r, sep))
  {
    SplitCons(sep, r, sep);
    ToLowerCons(sep, r);
    LowerAllCons([], Split(r, sep));
    assert ToLower([]) == [];
  }

  /** Lower-casing commutes with splitting on a separator that is not a letter. */
  lemma {:induction false} SplitLower(s: string, sep: char)
    requires !('A' <= sep <= 'Z') && !('a' <= sep <= 'z')
    ensures Split(ToLower(s), sep) == LowerAll(Split(s, sep))
  {
    if s != [] {
      var c, r := s[0], s[1..];
      assert s == [c] + r;
      SplitLower(r, sep);
      if c != sep {
        SplitLowerGlue(c, r, sep);
      } else {
        SplitLowerCut(r, sep);
      }
    } else {
      assert ToLower(s) == [];
      assert LowerAll([[]]) == [ToLower([])];
    }
  }

  /**
   * `s.charCodeAt(0)`: the first UTF-16 code unit, or NaN (`None`) for the
   * empty string. A character outside the Basic Multilingual Plane is
   * stored as a surrogate pair, so its first code unit is the high
   * surrogate.
   */
  function FirstCodeUnit(s: string): (r: Option<nat>)
    ensures r.None? <==> s == []
    ensures r.Some? ==> r.value < 0x1_0000
    ensures s != [] && (s[0] as int) < 0x1_0000 ==> r == Some(s[0] as int)
  {
    if s == [] then None
    else if (s[0] as int) < 0x1_0000 then Some(s[0] as int)
    else Some(0xD800 + (s[0] as int - 0x1_0000) / 0x400)
  }

  // Decimal notation, as a template literal renders a natural number.

  function DigitChar(d: nat): char
    requires d < 10
  {
    ('0' as int + d) as char
  }

  predicate IsDigit(c: char) {
    '0' <= c <= '9'
  }

  function DigitValue(c: char): nat
    requires IsDigit(c)
  {
    c as int - '0' as int
  }

  /** A string of decimal digits. */
  predicate AllDigits(s: string) {
    forall i :: 0 <= i < |s| ==> IsDigit(s[i])
  }

  /** `${n}`: the shortest decimal numeral of `n`. */
  function DecimalString(n: nat): (s: string)
    ensures |s| >= 1
  {
    if n < 10 then [DigitChar(n)] else DecimalString(n / 10) + [DigitChar(n % 10)]
  }

  /** The value of a numeral made of digits. */
  function ParseDecimal(s: string): nat
    requires AllDigits(s)
  {
    if s == [] then 0 else ParseDecimal(s[..|s| - 1]) * 10 + DigitValue(s[|s| - 1])
  }

  /**
   * The rendering is a numeral without a leading zero, and parsing it
   * gives the number back, so the rendering is injective.
   */
  lemma {:induction false} ParseDecimalString(n: nat)
    ensures var s := DecimalString(n);
      AllDigits(s) && (s[0] != '0' || n == 0) && ParseDecimal(s) == n
  {
    if n >= 10 {
      ParseDecimalString(n / 10);
      var s := DecimalString(n);
      assert s[..|s| - 1] == DecimalString(n / 10);
      assert s[0] == DecimalString(n / 10)[0];
    }
  }

  lemma DecimalStringInjective(m: nat, n: nat)
    ensures DecimalString(m) == DecimalString(n) ==> m == n
  {
    ParseDecimalString(m);
    ParseDecimalString(n);
  }
}
