/** Dictionary<string, string> as the application uses it for answer options: entries in
  * insertion order (the enumeration order of a Dictionary that never loses an entry), keys
  * compared either ordinally or with StringComparer.OrdinalIgnoreCase, and the
  * OrderBy(key, OrdinalIgnoreCase) the application applies before showing or hashing them. */
module OptionMaps {
  import opened Text
  import opened Wrappers

  type Entry = (string, string)
  type OptionMap = seq<Entry>

  datatype Comparer = Ordinal | IgnoreCase

  predicate SameKey(cmp: Comparer, a: string, b: string) {
    match cmp
    case Ordinal => a == b
    case IgnoreCase => EqualsIgnoreCase(a, b)
  }

  /** No two entries have keys the comparer considers equal. */
  predicate DistinctKeys(d: OptionMap, cmp: Comparer) {
    forall i, j :: 0 <= i < j < |d| ==> !SameKey(cmp, d[i].0, d[j].0)
  }

  predicate HasKey(d: OptionMap, k: string, cmp: Comparer) {
    exists i :: 0 <= i < |d| && SameKey(cmp, d[i].0, k)
  }

  /** Position of the first entry whose key matches. */
  function IndexOfKey(d: OptionMap, k: string, cmp: Comparer): (r: Option<nat>)
    ensures r.Some? ==> (r.value < |d| && SameKey(cmp, d[r.value].0, k)
      && forall j :: 0 <= j < r.value ==> !SameKey(cmp, d[j].0, k))
    ensures r.None? <==> !HasKey(d, k, cmp)
  {
    if d == [] then None
    else if SameKey(cmp, d[0].0, k) then Some(0)
    else match IndexOfKey(d[1..], k, cmp)
      case None => None
      case Some(i) => Some(i + 1)
  }

  /** dictionary[k] = v: an existing entry keeps its key and place and takes the new value;
    * otherwise the entry is appended. */
  function Set(d: OptionMap, k: string, v: string, cmp: Comparer): (r: OptionMap)
    ensures IndexOfKey(d, k, cmp).Some? ==>
      r == d[IndexOfKey(d, k, cmp).value := (d[IndexOfKey(d, k, cmp).value].0, v)]
    ensures IndexOfKey(d, k, cmp).None? ==> r == d + [(k, v)]
  {
    match IndexOfKey(d, k, cmp)
    case Some(i) => d[i := (d[i].0, v)]
    case None => d + [(k, v)]
  }

  /** dictionary.TryGetValue(k, out v) */
  function Lookup(d: OptionMap, k: string, cmp: Comparer): (r: Option<string>)
    ensures r.Some? <==> HasKey(d, k, cmp)
  {
    match IndexOfKey(d, k, cmp)
    case Some(i) => Some(d[i].1)
    case None => None
  }

  lemma SameKeyEquivalence(cmp: Comparer, a: string, b: string, c: string)
    ensures SameKey(cmp, a, a)
    ensures SameKey(cmp, a, b) ==> SameKey(cmp, b, a)
    ensures SameKey(cmp, a, b) && SameKey(cmp, b, c) ==> SameKey(cmp, a, c)
  {
  }

  /** Setting a key keeps the keys distinct, and reading it back gives the value set. */
  lemma SetThenLookup(d: OptionMap, k: string, v: string, cmp: Comparer)
    requires DistinctKeys(d, cmp)
    ensures DistinctKeys(Set(d, k, v, cmp), cmp)
    ensures Lookup(Set(d, k, v, cmp), k, cmp) == Some(v)
    ensures |Set(d, k, v, cmp)| == |d| + (if HasKey(d, k, cmp) then 0 else 1)
  {
    var r := Set(d, k, v, cmp);
    match IndexOfKey(d, k, cmp)
    case Some(i) =>
      assert forall j :: 0 <= j < |r| ==> r[j].0 == d[j].0;
      assert IndexOfKey(r, k, cmp) == IndexOfKey(d, k, cmp) by {
        IndexOfSameKeys(d, r, k, cmp);
      }
    case None =>
      forall i, j | 0 <= i < j < |r| ensures !SameKey(cmp, r[i].0, r[j].0) {
        if j == |d| {
          SameKeyEquivalence(cmp, r[i].0, k, k);
          assert !SameKey(cmp, d[i].0, k);
        }
      }
      LookupLast(d, k, v, cmp);
  }

  lemma {:induction false} IndexOfSameKeys(d: OptionMap, e: OptionMap, k: string, cmp: Comparer)
    requires |d| == |e| && forall j :: 0 <= j < |d| ==> d[j].0 == e[j].0
    ensures IndexOfKey(d, k, cmp) == IndexOfKey(e, k, cmp)
  {
    if d != [] {
      IndexOfSameKeys(d[1..], e[1..], k, cmp);
    }
  }

  lemma {:induction false} LookupLast(d: OptionMap, k: string, v: string, cmp: Comparer)
    requires !HasKey(d, k, cmp)
    ensures Lookup(d + [(k, v)], k, cmp) == Some(v)
  {
    SameKeyEquivalence(cmp, k, k, k);
    if d == [] {
    } else {
      assert (d + [(k, v)])[1..] == d[1..] + [(k, v)];
      LookupLast(d[1..], k, v, cmp);
    }
  }

  /** The first matching entry of a map with one more entry at its end. */
  lemma {:induction false} IndexOfAppend(d: OptionMap, e: Entry, k: string, cmp: Comparer)
    ensures IndexOfKey(d + [e], k, cmp) ==
      if IndexOfKey(d, k, cmp).Some? then IndexOfKey(d, k, cmp)
      else if SameKey(cmp, e.0, k) then Some(|d|) else None
  {
    if d != [] {
      assert (d + [e])[1..] == d[1..] + [e];
      IndexOfAppend(d[1..], e, k, cmp);
    }
  }

  /** Setting one key leaves what every other key reads unchanged. */
  lemma SetOtherKey(d: OptionMap, k: string, v: string, k2: string, cmp: Comparer)
    requires !SameKey(cmp, k, k2)
    ensures Lookup(Set(d, k, v, cmp), k2, cmp) == Lookup(d, k2, cmp)
  {
    var r := Set(d, k, v, cmp);
    match IndexOfKey(d, k, cmp)
    case Some(i) =>
      IndexOfSameKeys(d, r, k2, cmp);
      if IndexOfKey(d, k2, cmp).Some? {
        var j := IndexOfKey(d, k2, cmp).value;
        SameKeyEquivalence(cmp, d[i].0, k, k2);
        SameKeyEquivalence(cmp, k, d[i].0, k2);
        assert j != i;
      }
    case None =>
      IndexOfAppend(d, (k, v), k2, cmp);
  }

  /** dictionary.Values, in enumeration order. */
  function Values(d: OptionMap): (r: seq<string>)
    ensures |r| == |d| && forall i :: 0 <= i < |d| ==> r[i] == d[i].1
  {
    seq(|d|, i requires 0 <= i < |d| => d[i].1)
  }

  function Keys(d: OptionMap): (r: seq<string>)
    ensures |r| == |d| && forall i :: 0 <= i < |d| ==> r[i] == d[i].0
  {
    seq(|d|, i requires 0 <= i < |d| => d[i].0)
  }

  /** The dictionary as a mathematical map (for comparing dictionaries regardless of order). */
  function ToMap(d: OptionMap): (m: map<string, string>)
    ensures forall i :: 0 <= i < |d| ==> d[i].0 in m
    ensures forall k :: k in m ==> exists i :: 0 <= i < |d| && d[i].0 == k
    decreases |d|
  {
    if d == [] then map[] else ToMap(d[..|d| - 1])[d[|d| - 1].0 := d[|d| - 1].1]
  }

  // ---------------------------------------------------------------------------
  // Ordering by key, ignoring case
  // ---------------------------------------------------------------------------

  /** Ordinal comparison of two strings: lexicographic on code points. */
  predicate LexLe(a: string, b: string) {
    a == [] || (b != [] && (a[0] < b[0] || (a[0] == b[0] && LexLe(a[1..], b[1..]))))
  }

  lemma {:induction false} LexTotal(a: string, b: string)
    ensures LexLe(a, b) || LexLe(b, a)
  {
    if a != [] && b != [] && a[0] == b[0] { LexTotal(a[1..], b[1..]); }
  }

  lemma {:induction false} LexAntisymmetric(a: string, b: string)
    requires LexLe(a, b) && LexLe(b, a)
    ensures a == b
  {
    if a != [] && b != [] {
      LexAntisymmetric(a[1..], b[1..]);
      assert a == [a[0]] + a[1..];
      assert b == [b[0]] + b[1..];
    }
  }

  lemma {:induction false} LexTransitive(a: string, b: string, c: string)
    requires LexLe(a, b) && LexLe(b, c)
    ensures LexLe(a, c)
  {
    if a != [] && b != [] && c != [] && a[0] == b[0] && b[0] == c[0] {
      LexTransitive(a[1..], b[1..], c[1..]);
    }
  }

  /** StringComparer.OrdinalIgnoreCase.Compare(a, b) <= 0 */
  predicate KeyLe(a: string, b: string) { LexLe(Upper(a), Upper(b)) }

  predicate SortedBy<T>(s: seq<T>, key: T -> string) {
    forall i, j :: 0 <= i < j < |s| ==> KeyLe(key(s[i]), key(s[j]))
  }

  /** Inserts x before the first element whose key is not below x's. */
  function Insert<T>(x: T, s: seq<T>, key: T -> string): (r: seq<T>)
    requires SortedBy(s, key)
    ensures SortedBy(r, key)
    ensures multiset(r) == multiset(s) + multiset{x}
  {
    if s == [] then [x]
    else if KeyLe(key(x), key(s[0])) then
      BelowSorted(x, s, key);
      ConsSorted(x, s, key);
      [x] + s
    else
      var rest := Insert(x, s[1..], key);
      LexTotal(Upper(key(x)), Upper(key(s[0])));
      AbovePermuted(s[0], s[1..], x, rest, key);
      ConsSorted(s[0], rest, key);
      assert s == [s[0]] + s[1..];
      [s[0]] + rest
  }

  /** A sorted sequence stays sorted with an element in front whose key is not above any of its keys. */
  lemma ConsSorted<T>(y: T, s: seq<T>, key: T -> string)
    requires SortedBy(s, key) && forall j :: 0 <= j < |s| ==> KeyLe(key(y), key(s[j]))
    ensures SortedBy([y] + s, key)
  {
    var r := [y] + s;
    forall i, j | 0 <= i < j < |r| ensures KeyLe(key(r[i]), key(r[j])) {
      assert r[j] == s[j - 1];
      if i > 0 { assert r[i] == s[i - 1]; }
    }
  }

  /** An element whose key is not above the head of a sorted sequence is not above any of its keys. */
  lemma BelowSorted<T>(x: T, s: seq<T>, key: T -> string)
    requires SortedBy(s, key) && s != [] && KeyLe(key(x), key(s[0]))
    ensures forall j :: 0 <= j < |s| ==> KeyLe(key(x), key(s[j]))
  {
    forall j | 0 <= j < |s| ensures KeyLe(key(x), key(s[j])) {
      if j > 0 { LexTransitive(Upper(key(x)), Upper(key(s[0])), Upper(key(s[j]))); }
    }
  }

  /** A key not above the keys of a sequence nor above x's is not above any key of a
    * permutation of the sequence with x added. */
  lemma AbovePermuted<T>(y: T, s: seq<T>, x: T, r: seq<T>, key: T -> string)
    requires forall j :: 0 <= j < |s| ==> KeyLe(key(y), key(s[j]))
    requires KeyLe(key(y), key(x))
    requires multiset(r) == multiset(s) + multiset{x}
    ensures forall j :: 0 <= j < |r| ==> KeyLe(key(y), key(r[j]))
  {
    forall j | 0 <= j < |r| ensures KeyLe(key(y), key(r[j])) {
      assert r[j] in multiset(r);
      if r[j] != x {
        assert r[j] in multiset(s);
        var m :| 0 <= m < |s| && s[m] == r[j];
      }
    }
  }

  /** Enumerable.OrderBy(key, StringComparer.OrdinalIgnoreCase): a sorted permutation. */
  function SortBy<T>(s: seq<T>, key: T -> string): (r: seq<T>)
    ensures SortedBy(r, key)
    ensures multiset(r) == multiset(s)
  {
    if s == [] then []
    else
      assert s == [s[0]] + s[1..];
      Insert(s[0], SortBy(s[1..], key), key)
  }

  /** The elements of s whose key folds to k, in the order of s. */
  function WithFoldedKey<T>(s: seq<T>, key: T -> string, k: string): (r: seq<T>)
    ensures |r| <= |s|
  {
    if s == [] then []
    else (if Upper(key(s[0])) == k then [s[0]] else []) + WithFoldedKey(s[1..], key, k)
  }

  lemma WithFoldedKeyHead<T>(s: seq<T>, key: T -> string, k: string)
    requires s != []
    ensures WithFoldedKey(s, key, k)
      == (if Upper(key(s[0])) == k then [s[0]] else []) + WithFoldedKey(s[1..], key, k)
  {
  }

  /** OrderBy is a stable sort: elements whose keys are equal ignoring case keep the order
    * they had in the input. */
  lemma {:induction false} SortByStable<T>(s: seq<T>, key: T -> string, k: string)
    ensures WithFoldedKey(SortBy(s, key), key, k) == WithFoldedKey(s, key, k)
  {
    if s != [] {
      SortByStable(s[1..], key, k);
      InsertKeepsOrder(s[0], SortBy(s[1..], key), key, k);
    }
  }

  /** Insert puts x in front of every element with the same folded key. */
  lemma {:induction false} InsertKeepsOrder<T>(x: T, s: seq<T>, key: T -> string, k: string)
    requires SortedBy(s, key)
    ensures WithFoldedKey(Insert(x, s, key), key, k)
      == (if Upper(key(x)) == k then [x] else []) + WithFoldedKey(s, key, k)
  {
    if s != [] && !KeyLe(key(x), key(s[0])) {
      SortedTail(s, key);
      InsertKeepsOrder(x, s[1..], key, k);
      InsertPastHead(x, s, key, k);
    } else if s != [] {
      var r := Insert(x, s, key);
      assert r == [x] + s;
      assert r[0] == x && r[1..] == s;
    }
  }

  /** The step of InsertKeepsOrder where x goes past the head of s. */
  lemma InsertPastHead<T>(x: T, s: seq<T>, key: T -> string, k: string)
    requires SortedBy(s, key) && s != [] && !KeyLe(key(x), key(s[0]))
    requires SortedBy(s[1..], key)
    requires WithFoldedKey(Insert(x, s[1..], key), key, k)
      == (if Upper(key(x)) == k then [x] else []) + WithFoldedKey(s[1..], key, k)
    ensures WithFoldedKey(Insert(x, s, key), key, k)
      == (if Upper(key(x)) == k then [x] else []) + WithFoldedKey(s, key, k)
  {
    var rest := Insert(x, s[1..], key);
    var r := Insert(x, s, key);
    var fx := if Upper(key(x)) == k then [x] else [];
    var f0 := if Upper(key(s[0])) == k then [s[0]] else [];
    assert r == [s[0]] + rest;
    assert r[0] == s[0] && r[1..] == rest;
    LexReflexive(Upper(key(x)));
    var tail := WithFoldedKey(s[1..], key, k);
    var wr, wrest, ws := WithFoldedKey(r, key, k), WithFoldedKey(rest, key, k), WithFoldedKey(s, key, k);
    WithFoldedKeyHead(r, key, k);
    WithFoldedKeyHead(s, key, k);
    assert wr == f0 + wrest && ws == f0 + tail && wrest == fx + tail;
    if Upper(key(x)) == k {
      assert f0 == [] && fx == [x];
      assert wr == wrest && ws == tail;
    } else {
      assert fx == [];
      assert wrest == tail && wr == ws;
    }
  }

  /** Elements are distinct, and so are their keys once folded to upper case. */
  ghost predicate DistinctFolded<T(!new)>(s: seq<T>, key: T -> string) {
    (forall x, y :: x in multiset(s) && y in multiset(s) && Upper(key(x)) == Upper(key(y)) ==> x == y)
    && (forall x :: multiset(s)[x] <= 1)
  }

  lemma LexReflexive(a: string)
    ensures LexLe(a, a)
  {
  }

  /** Two sorted sequences with the same elements and case-insensitively distinct keys are
    * the same sequence. */
  lemma {:induction false} SortedUnique<T(!new)>(a: seq<T>, b: seq<T>, key: T -> string)
    requires SortedBy(a, key) && SortedBy(b, key)
    requires multiset(a) == multiset(b) && DistinctFolded(a, key)
    ensures a == b
    decreases |a|
  {
    assert |multiset(a)| == |a| && |multiset(b)| == |b|;
    if a != [] {
      SortedHeads(a, b, key);
      SortedTails(a, b, key);
      SortedUnique(a[1..], b[1..], key);
      assert a == [a[0]] + a[1..];
      assert b == [b[0]] + b[1..];
    }
  }

  lemma SortedHeads<T(!new)>(a: seq<T>, b: seq<T>, key: T -> string)
    requires a != [] && b != []
    requires SortedBy(a, key) && SortedBy(b, key)
    requires multiset(a) == multiset(b) && DistinctFolded(a, key)
    ensures a[0] == b[0]
  {
    assert a[0] in multiset(b);
    assert b[0] in multiset(a);
    var j :| 0 <= j < |b| && b[j] == a[0];
    var i :| 0 <= i < |a| && a[i] == b[0];
    LexReflexive(Upper(key(a[0])));
    LexReflexive(Upper(key(b[0])));
    assert KeyLe(key(b[0]), key(a[0])) by { if j > 0 { } }
    assert KeyLe(key(a[0]), key(b[0])) by { if i > 0 { } }
    LexAntisymmetric(Upper(key(a[0])), Upper(key(b[0])));
  }

  lemma SortedTails<T(!new)>(a: seq<T>, b: seq<T>, key: T -> string)
    requires a != [] && b != [] && a[0] == b[0]
    requires SortedBy(a, key) && SortedBy(b, key)
    requires multiset(a) == multiset(b) && DistinctFolded(a, key)
    ensures SortedBy(a[1..], key) && SortedBy(b[1..], key)
    ensures multiset(a[1..]) == multiset(b[1..]) && DistinctFolded(a[1..], key)
  {
    SortedTail(a, key);
    SortedTail(b, key);
    TailMultiset(a);
    TailMultiset(b);
    DistinctFoldedSub(a, a[1..], key);
  }

  lemma SortedTail<T>(a: seq<T>, key: T -> string)
    requires a != [] && SortedBy(a, key)
    ensures SortedBy(a[1..], key)
  {
    forall i, j | 0 <= i < j < |a| - 1 ensures KeyLe(key(a[1..][i]), key(a[1..][j])) {
      assert a[1..][i] == a[i + 1] && a[1..][j] == a[j + 1];
    }
  }

  lemma TailMultiset<T>(a: seq<T>)
    requires a != []
    ensures multiset(a) == multiset{a[0]} + multiset(a[1..])
  {
    assert a == [a[0]] + a[1..];
  }

  lemma DistinctFoldedSub<T(!new)>(a: seq<T>, t: seq<T>, key: T -> string)
    requires DistinctFolded(a, key) && multiset(t) <= multiset(a)
    ensures DistinctFolded(t, key)
  {
  }

  /** Keys that are distinct ignoring case make the entries distinct in the folded sense. */
  lemma {:induction false} DistinctKeysFolded(d: OptionMap)
    requires DistinctKeys(d, IgnoreCase)
    ensures DistinctFolded(d, EntryKey)
  {
    if d != [] {
      var p := d[..|d| - 1];
      var last := d[|d| - 1];
      DistinctKeysFolded(p);
      assert d == p + [last];
      forall i | 0 <= i < |p| ensures p[i] != last && Upper(p[i].0) != Upper(last.0) {
        assert !SameKey(IgnoreCase, d[i].0, d[|d| - 1].0);
      }
      assert last !in multiset(p);
    }
  }

  /** Ordering by key ignoring case forgets the insertion order when no two keys differ
    * only in case. */
  lemma SortByIgnoresOrder<T(!new)>(a: seq<T>, b: seq<T>, key: T -> string)
    requires multiset(a) == multiset(b) && DistinctFolded(a, key)
    ensures SortBy(a, key) == SortBy(b, key)
  {
    var sa, sb := SortBy(a, key), SortBy(b, key);
    assert multiset(sa) == multiset(a) && multiset(sb) == multiset(a);
    assert DistinctFolded(sa, key);
    SortedUnique(sa, sb, key);
  }

  function EntryKey(e: Entry): string { e.0 }
}
