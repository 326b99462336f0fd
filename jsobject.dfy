/**
 * The enumeration order of a plain JavaScript object, as `Object.entries`
 * produces it: first the keys that are array indices, in ascending numeric
 * order, then every other string key in the order it was first added.
 * An object literal is given here by its own properties in source order.
 */
module JsObject {
  import opened JsString

  /** The greatest array index, 2^32 - 2. */
  const MaxArrayIndex: nat := 4294967294

  datatype Property<V> = Property(key: string, value: V)

  /**
   * A key is an array index when it is the canonical decimal numeral
   * (no sign, no leading zero) of a number below 2^32 - 1.
   */
  predicate IsArrayIndex(key: string) {
    |key| >= 1 && AllDigits(key) && (key[0] != '0' || |key| == 1) && ParseDecimal(key) <= MaxArrayIndex
  }

  function IndexValue(key: string): nat
    requires IsArrayIndex(key)
  {
    ParseDecimal(key)
  }

  /** The properties whose keys are array indices, in source order. */
  function IndexProperties<V>(props: seq<Property<V>>): (r: seq<Property<V>>)
    ensures forall i :: 0 <= i < |r| ==> IsArrayIndex(r[i].key)
    ensures |r| <= |props|
  {
    if props == [] then []
    else if IsArrayIndex(props[0].key) then [props[0]] + IndexProperties(props[1..])
    else IndexProperties(props[1..])
  }

  /** The other properties, in source order. */
  function OtherProperties<V>(props: seq<Property<V>>): (r: seq<Property<V>>)
    ensures forall i :: 0 <= i < |r| ==> !IsArrayIndex(r[i].key)
    ensures |r| <= |props|
  {
    if props == [] then []
    else if IsArrayIndex(props[0].key) then OtherProperties(props[1..])
    else [props[0]] + OtherProperties(props[1..])
  }

  predicate AllIndexKeys<V>(s: seq<Property<V>>) {
    forall i :: 0 <= i < |s| ==> IsArrayIndex(s[i].key)
  }

  predicate AscendingIndices<V>(s: seq<Property<V>>)
    requires AllIndexKeys(s)
  {
    forall i, j :: 0 <= i < j < |s| ==> IndexValue(s[i].key) <= IndexValue(s[j].key)
  }

  /** Places an index property into an ascending run. */
  function InsertByIndex<V>(p: Property<V>, s: seq<Property<V>>): (r: seq<Property<V>>)
    requires IsArrayIndex(p.key) && AllIndexKeys(s)
    ensures AllIndexKeys(r)
    ensures multiset(r) == multiset{p} + multiset(s)
  {
    if s == [] then [p]
    else if IndexValue(p.key) <= IndexValue(s[0].key) then
      assert s == [s[0]] + s[1..];
      [p] + s
    else
      assert s == [s[0]] + s[1..];
      [s[0]] + InsertByIndex(p, s[1..])
  }

  /** Insertion sort of index properties by numeric key. */
  function SortByIndex<V>(s: seq<Property<V>>): (r: seq<Property<V>>)
    requires AllIndexKeys(s)
    ensures AllIndexKeys(r)
    ensures multiset(r) == multiset(s)
  {
    if s == [] then []
    else
      assert s == [s[0]] + s[1..];
      InsertByIndex(s[0], SortByIndex(s[1..]))
  }

  /** `Object.entries`: index keys ascending, then the rest in insertion order. */
  function ObjectEntries<V>(props: seq<Property<V>>): (entries: seq<Property<V>>)
    ensures |entries| == |props|
  {
    PartitionMultiset(props);
    assert |multiset(IndexProperties(props))| + |multiset(OtherProperties(props))| == |multiset(props)|;
    SortByIndex(IndexProperties(props)) + OtherProperties(props)
  }

  // ---------------------------------------------------------------------
  // Sorting lemmas

  /** Every key of the run has index at least `lo`. */
  predicate LowerBound<V>(lo: nat, s: seq<Property<V>>)
    requires AllIndexKeys(s)
  {
    forall k :: 0 <= k < |s| ==> lo <= IndexValue(s[k].key)
  }

  lemma InsertLowerBound<V>(p: Property<V>, s: seq<Property<V>>, lo: nat)
    requires IsArrayIndex(p.key) && AllIndexKeys(s)
    requires lo <= IndexValue(p.key) && LowerBound(lo, s)
    ensures LowerBound(lo, InsertByIndex(p, s))
  {
    var t := InsertByIndex(p, s);
    forall k | 0 <= k < |t| ensures lo <= IndexValue(t[k].key) {
      assert t[k] in multiset(t);
      if t[k] != p {
        assert t[k] in multiset(s);
        var j :| 0 <= j < |s| && s[j] == t[k];
      }
    }
  }

  lemma ConsAscending<V>(x: Property<V>, t: seq<Property<V>>)
    requires IsArrayIndex(x.key) && AllIndexKeys(t) && AscendingIndices(t)
    requires LowerBound(IndexValue(x.key), t)
    ensures AllIndexKeys([x] + t) && AscendingIndices([x] + t)
  {
    var r := [x] + t;
    assert forall k :: 0 < k < |r| ==> r[k] == t[k - 1];
    assert AllIndexKeys(r);
    forall i, j | 0 <= i < j < |r| ensures IndexValue(r[i].key) <= IndexValue(r[j].key) {
      if i == 0 {
        assert IndexValue(x.key) <= IndexValue(t[j - 1].key);
      } else {
        assert IndexValue(t[i - 1].key) <= IndexValue(t[j - 1].key);
      }
    }
  }

  lemma {:induction false} InsertByIndexSorted<V>(p: Property<V>, s: seq<Property<V>>)
    requires IsArrayIndex(p.key) && AllIndexKeys(s) && AscendingIndices(s)
    ensures AscendingIndices(InsertByIndex(p, s))
  {
    if s != [] {
      var head, rest := s[0], s[1..];
      var lo := IndexValue(head.key);
      assert forall k :: 0 <= k < |rest| ==> rest[k] == s[k + 1];
      if IndexValue(p.key) > lo {
        InsertByIndexSorted(p, rest);
        InsertLowerBound(p, rest, lo);
        assert InsertByIndex(p, s) == [head] + InsertByIndex(p, rest);
        ConsAscending(head, InsertByIndex(p, rest));
      } else {
        assert InsertByIndex(p, s) == [p] + s;
        ConsAscending(p, s);
      }
    }
  }

  lemma {:induction false} SortByIndexSorted<V>(s: seq<Property<V>>)
    requires AllIndexKeys(s)
    ensures AscendingIndices(SortByIndex(s))
  {
    if s != [] {
      SortByIndexSorted(s[1..]);
      InsertByIndexSorted(s[0], SortByIndex(s[1..]));
    }
  }

  lemma {:induction false} PartitionMultiset<V>(props: seq<Property<V>>)
    ensures multiset(IndexProperties(props)) + multiset(OtherProperties(props)) == multiset(props)
  {
    if props != [] {
      PartitionMultiset(props[1..]);
      PartitionStep(props);
    }
  }

  /** One step of the partition: the head goes to exactly one side. */
  lemma PartitionStep<V>(props: seq<Property<V>>)
    requires props != []
    requires multiset(IndexProperties(props[1..])) + multiset(OtherProperties(props[1..])) == multiset(props[1..])
    ensures multiset(IndexProperties(props)) + multiset(OtherProperties(props)) == multiset(props)
  {
    PartitionHead(props);
    assert props == [props[0]] + props[1..];
    ConsSplit(props[0], props[1..], IndexProperties(props[1..]), OtherProperties(props[1..]),
      IndexProperties(props), OtherProperties(props));
  }

  lemma PartitionHead<V>(props: seq<Property<V>>)
    requires props != []
    ensures var p, rest := props[0], props[1..];
      if IsArrayIndex(p.key) then
        IndexProperties(props) == [p] + IndexProperties(rest) && OtherProperties(props) == OtherProperties(rest)
      else
        IndexProperties(props) == IndexProperties(rest) && OtherProperties(props) == [p] + OtherProperties(rest)
  {
  }

  lemma ConsSplit<T>(p: T, rest: seq<T>, i0: seq<T>, o0: seq<T>, i1: seq<T>, o1: seq<T>)
    requires multiset(i0) + multiset(o0) == multiset(rest)
    requires (i1 == [p] + i0 && o1 == o0) || (i1 == i0 && o1 == [p] + o0)
    ensures multiset(i1) + multiset(o1) == multiset([p] + rest)
  {
    assert multiset([p] + rest) == multiset{p} + multiset(rest);
    if i1 == [p] + i0 && o1 == o0 {
      assert multiset(i1) == multiset{p} + multiset(i0);
    } else {
      assert multiset(o1) == multiset{p} + multiset(o0);
    }
  }

  // ---------------------------------------------------------------------
  // What the enumeration order guarantees

  /** The enumeration lists every own property exactly once. */
  lemma ObjectEntriesPermutation<V>(props: seq<Property<V>>)
    ensures multiset(ObjectEntries(props)) == multiset(props)
  {
    PartitionMultiset(props);
  }

  /**
   * The enumeration is a run of index keys in ascending numeric order
   * followed by the other keys in their source order.
   */
  lemma ObjectEntriesShape<V>(props: seq<Property<V>>)
    ensures var r, k := ObjectEntries(props), |IndexProperties(props)|;
      k <= |r| &&
      (forall i :: 0 <= i < k ==> IsArrayIndex(r[i].key)) &&
      (forall i, j :: 0 <= i < j < k ==> IndexValue(r[i].key) <= IndexValue(r[j].key)) &&
      (forall i :: k <= i < |r| ==> !IsArrayIndex(r[i].key)) &&
      r[k..] == OtherProperties(props)
  {
    var idx := IndexProperties(props);
    SortByIndexSorted(idx);
    assert |multiset(SortByIndex(idx))| == |multiset(idx)|;
    var r := ObjectEntries(props);
    assert r[..|idx|] == SortByIndex(idx);
  }

  lemma {:induction false} NoIndexKeysOthers<V>(props: seq<Property<V>>)
    requires forall i :: 0 <= i < |props| ==> !IsArrayIndex(props[i].key)
    ensures IndexProperties(props) == [] && OtherProperties(props) == props
  {
    if props != [] {
      NoIndexKeysOthers(props[1..]);
      assert !IsArrayIndex(props[0].key);
      assert props == [props[0]] + props[1..];
    }
  }

  /** An object without numeric keys enumerates in source order. */
  lemma NoIndexKeysInSourceOrder<V>(props: seq<Property<V>>)
    requires forall i :: 0 <= i < |props| ==> !IsArrayIndex(props[i].key)
    ensures ObjectEntries(props) == props
  {
    NoIndexKeysOthers(props);
  }

  /** A numeric key written last is still enumerated first. */
  lemma NumericKeyFirst<V>(a: V, b: V)
    ensures ObjectEntries([Property("x+1", a), Property("1", b)]) == [Property("1", b), Property("x+1", a)]
  {
    assert !IsArrayIndex("x+1") by { assert !IsDigit("x+1"[0]); }
    assert ParseDecimal("1") == 1 by { assert "1"[..0] == []; }
    assert IsArrayIndex("1");
    var props := [Property("x+1", a), Property("1", b)];
    assert props[1..] == [Property("1", b)];
    assert props[1..][1..] == [];
    assert IndexProperties(props) == [Property("1", b)];
    assert OtherProperties(props) == [Property("x+1", a)];
  }
}
