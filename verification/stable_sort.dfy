/** `Array.prototype.sort`, which ECMAScript 2019 and later require to be
    stable, applied with a comparator that orders elements by a sort key.

    Every comparator in the directory compares one extracted value: a
    lower-cased string (`a < b` on strings) or a number (`a < b`, or a
    difference such as `b.value - a.value` whose sign is all the sort
    consults). The extracted value is a `SortKey`; the direction says
    whether the comparator puts smaller keys first or last. */
module StableSort {

  /** A value a comparator extracts from an element. */
  datatype SortKey = Text(text: string) | Num(num: int)

  /** JavaScript `<` on strings: lexicographic order of the characters. */
  predicate LexLess(a: string, b: string)
    decreases |a|
  {
    |b| > 0 && (|a| == 0 || a[0] < b[0] || (a[0] == b[0] && LexLess(a[1..], b[1..])))
  }

  lemma {:induction false} LexLessIrreflexive(a: string)
    ensures !LexLess(a, a)
    decreases |a|
  {
    if |a| > 0 {
      LexLessIrreflexive(a[1..]);
    }
  }

  lemma {:induction false} LexLessTransitive(a: string, b: string, c: string)
    requires LexLess(a, b) && LexLess(b, c)
    ensures LexLess(a, c)
    decreases |a|
  {
    if |a| > 0 && a[0] == c[0] {
      LexLessTransitive(a[1..], b[1..], c[1..]);
    }
  }

  lemma {:induction false} LexLessTotal(a: string, b: string)
    ensures a == b || LexLess(a, b) || LexLess(b, a)
    decreases |a|
  {
    if |a| > 0 && |b| > 0 && a[0] == b[0] {
      LexLessTotal(a[1..], b[1..]);
      if a[1..] == b[1..] {
        assert a == [a[0]] + a[1..] && b == [b[0]] + b[1..];
      }
    }
  }

  /** A strict total order on sort keys: numbers by value, strings
      lexicographically. The two kinds are never mixed by one comparator;
      numbers are put first only to make the order total. */
  predicate KeyLess(a: SortKey, b: SortKey)
  {
    match (a, b)
    case (Num(x), Num(y)) => x < y
    case (Text(s), Text(t)) => LexLess(s, t)
    case (Num(_), Text(_)) => true
    case (Text(_), Num(_)) => false
  }

  lemma KeyLessIrreflexive(a: SortKey)
    ensures !KeyLess(a, a)
  {
    if a.Text? {
      LexLessIrreflexive(a.text);
    }
  }

  lemma KeyLessTransitive(a: SortKey, b: SortKey, c: SortKey)
    requires KeyLess(a, b) && KeyLess(b, c)
    ensures KeyLess(a, c)
  {
    if a.Text? && b.Text? && c.Text? {
      LexLessTransitive(a.text, b.text, c.text);
    }
  }

  lemma KeyLessTotal(a: SortKey, b: SortKey)
    ensures a == b || KeyLess(a, b) || KeyLess(b, a)
  {
    if a.Text? && b.Text? {
      LexLessTotal(a.text, b.text);
    }
  }

  /** Exactly one of `a == b`, `a < b`, `b < a` holds. */
  lemma KeyLessTrichotomy(a: SortKey, b: SortKey)
    ensures a == b ==> !KeyLess(a, b) && !KeyLess(b, a)
    ensures KeyLess(a, b) ==> !KeyLess(b, a)
    ensures a == b || KeyLess(a, b) || KeyLess(b, a)
  {
    KeyLessIrreflexive(a);
    KeyLessTotal(a, b);
    if KeyLess(a, b) && KeyLess(b, a) {
      KeyLessTransitive(a, b, a);
    }
  }

  /** The comparator of `src/App.tsx`: -1 when `a` goes first, 1 when `b`
      goes first, 0 on equal keys. Descending order swaps -1 and 1. */
  function Compare(a: SortKey, b: SortKey, descending: bool): (r: int)
    ensures -1 <= r <= 1
    ensures r == 0 <==> a == b
    ensures r < 0 <==> (if descending then KeyLess(b, a) else KeyLess(a, b))
    ensures r > 0 <==> (if descending then KeyLess(a, b) else KeyLess(b, a))
  {
    KeyLessTrichotomy(a, b);
    if KeyLess(a, b) then (if descending then 1 else -1)
    else if KeyLess(b, a) then (if descending then -1 else 1)
    else 0
  }

  lemma CompareAntisymmetric(a: SortKey, b: SortKey, descending: bool)
    ensures Compare(a, b, descending) == -Compare(b, a, descending)
  {
  }

  lemma CompareTransitive(a: SortKey, b: SortKey, c: SortKey, descending: bool)
    requires Compare(a, b, descending) <= 0 && Compare(b, c, descending) <= 0
    ensures Compare(a, c, descending) <= 0
  {
    if a != b && b != c {
      if descending { KeyLessTransitive(c, b, a); } else { KeyLessTransitive(a, b, c); }
    }
  }

  /** Every element's key is in order with the key of every later element. */
  predicate Sorted<T>(s: seq<T>, key: T -> SortKey, descending: bool)
  {
    forall i, j :: 0 <= i < j < |s| ==> Compare(key(s[i]), key(s[j]), descending) <= 0
  }

  /** The elements whose key is `k`, in their order in `s`. */
  function KeyClass<T>(s: seq<T>, key: T -> SortKey, k: SortKey): seq<T>
  {
    if s == [] then []
    else (if key(s[0]) == k then [s[0]] else []) + KeyClass(s[1..], key, k)
  }

  /** Stability: for every key, the elements carrying it appear in `r` in
      the same order as in `s`. */
  ghost predicate SameKeyClasses<T>(r: seq<T>, s: seq<T>, key: T -> SortKey)
  {
    forall k :: KeyClass(r, key, k) == KeyClass(s, key, k)
  }

  /** Insert `x` in front of the first element that `x` does not strictly follow. */
  function Insert<T>(x: T, s: seq<T>, key: T -> SortKey, descending: bool): (r: seq<T>)
    ensures |r| == |s| + 1
    ensures multiset(r) == multiset(s) + multiset{x}
  {
    if s == [] || Compare(key(s[0]), key(x), descending) >= 0 then [x] + s
    else
      assert s == [s[0]] + s[1..];
      [s[0]] + Insert(x, s[1..], key, descending)
  }

  /** The stable sort: insertion of each element, first to last, into the
      sorted rest. */
  function SortBy<T>(s: seq<T>, key: T -> SortKey, descending: bool): (r: seq<T>)
    ensures |r| == |s|
    ensures multiset(r) == multiset(s)
  {
    if s == [] then []
    else
      assert s == [s[0]] + s[1..];
      Insert(s[0], SortBy(s[1..], key, descending), key, descending)
  }

  lemma {:induction false} InsertSorted<T>(x: T, s: seq<T>, key: T -> SortKey, descending: bool)
    requires Sorted(s, key, descending)
    ensures Sorted(Insert(x, s, key, descending), key, descending)
    decreases |s|
  {
    var r := Insert(x, s, key, descending);
    if s == [] || Compare(key(s[0]), key(x), descending) >= 0 {
      if s != [] {
        CompareAntisymmetric(key(s[0]), key(x), descending);
        forall j | 1 <= j < |s|
          ensures Compare(key(x), key(s[j]), descending) <= 0
        {
          CompareTransitive(key(x), key(s[0]), key(s[j]), descending);
        }
      }
    } else {
      var rest := s[1..];
      var tail := Insert(x, rest, key, descending);
      InsertSorted(x, rest, key, descending);
      assert r == [s[0]] + tail;
      forall j | 0 <= j < |tail|
        ensures Compare(key(s[0]), key(tail[j]), descending) <= 0
      {
        assert tail[j] in multiset(tail);
        if tail[j] != x {
          assert tail[j] in multiset(rest);
          var m :| 0 <= m < |rest| && rest[m] == tail[j];
          assert s[m + 1] == tail[j];
        }
      }
    }
  }

  lemma {:induction false} SortBySorted<T>(s: seq<T>, key: T -> SortKey, descending: bool)
    ensures Sorted(SortBy(s, key, descending), key, descending)
  {
    if s != [] {
      SortBySorted(s[1..], key, descending);
      InsertSorted(s[0], SortBy(s[1..], key, descending), key, descending);
    }
  }

  lemma {:induction false} InsertKeyClass<T>(x: T, s: seq<T>, key: T -> SortKey, descending: bool, k: SortKey)
    ensures KeyClass(Insert(x, s, key, descending), key, k)
         == (if key(x) == k then [x] else []) + KeyClass(s, key, k)
    decreases |s|
  {
    var r := Insert(x, s, key, descending);
    var hx := if key(x) == k then [x] else [];
    if s == [] || Compare(key(s[0]), key(x), descending) >= 0 {
      assert r == [x] + s;
      assert r[1..] == s;
      assert KeyClass(r, key, k) == hx + KeyClass(s, key, k);
    } else {
      var rest := KeyClass(s[1..], key, k);
      var tail := Insert(x, s[1..], key, descending);
      InsertKeyClass(x, s[1..], key, descending, k);
      assert r == [s[0]] + tail;
      assert r[1..] == tail;
      var h0 := if key(s[0]) == k then [s[0]] else [];
      assert KeyClass(r, key, k) == h0 + (hx + rest);
      assert KeyClass(s, key, k) == h0 + rest;
      // `x` passes `s[0]` only on a strictly smaller key, so at most one of
      // the two carries `k`
      assert key(s[0]) != key(x);
      if key(x) == k {
        assert h0 == [];
        assert h0 + (hx + rest) == hx + rest;
        assert h0 + rest == rest;
      } else {
        assert hx == [];
        assert hx + (h0 + rest) == h0 + rest;
        assert hx + rest == rest;
      }
      assert KeyClass(r, key, k) == hx + KeyClass(s, key, k);
    }
  }

  lemma {:induction false} SortByStable<T>(s: seq<T>, key: T -> SortKey, descending: bool)
    ensures SameKeyClasses(SortBy(s, key, descending), s, key)
  {
    if s != [] {
      SortByStable(s[1..], key, descending);
      forall k
        ensures KeyClass(SortBy(s, key, descending), key, k) == KeyClass(s, key, k)
      {
        InsertKeyClass(s[0], SortBy(s[1..], key, descending), key, descending, k);
      }
    }
  }

  /** With a comparator that finds every pair equal, the sort changes nothing. */
  lemma {:induction false} SortByEqualKeys<T>(s: seq<T>, key: T -> SortKey, descending: bool, k: SortKey)
    requires forall i :: 0 <= i < |s| ==> key(s[i]) == k
    ensures SortBy(s, key, descending) == s
  {
    if s != [] {
      SortByEqualKeys(s[1..], key, descending, k);
      assert s == [s[0]] + s[1..];
    }
  }

  lemma {:induction false} KeyClassEmpty<T>(s: seq<T>, key: T -> SortKey, k: SortKey)
    requires forall i :: 0 <= i < |s| ==> key(s[i]) != k
    ensures KeyClass(s, key, k) == []
  {
    if s != [] {
      KeyClassEmpty(s[1..], key, k);
    }
  }

  lemma {:induction false} KeyClassAtMostOne<T>(s: seq<T>, key: T -> SortKey, k: SortKey)
    requires forall i, j :: 0 <= i < j < |s| ==> key(s[i]) != key(s[j])
    ensures |KeyClass(s, key, k)| <= 1
  {
    if s != [] {
      if key(s[0]) == k {
        KeyClassEmpty(s[1..], key, k);
      } else {
        KeyClassAtMostOne(s[1..], key, k);
      }
    }
  }

  lemma {:induction false} KeyClassHas<T>(s: seq<T>, key: T -> SortKey, i: nat)
    requires i < |s|
    ensures |KeyClass(s, key, key(s[i]))| >= 1
  {
    if i > 0 {
      KeyClassHas(s[1..], key, i - 1);
    }
  }

  lemma {:induction false} KeyClassHasTwo<T>(s: seq<T>, key: T -> SortKey, i: nat, j: nat)
    requires i < j < |s| && key(s[i]) == key(s[j])
    ensures |KeyClass(s, key, key(s[i]))| >= 2
  {
    if i == 0 {
      KeyClassHas(s[1..], key, j - 1);
    } else {
      KeyClassHasTwo(s[1..], key, i - 1, j - 1);
    }
  }

  /** Sorting keeps distinct keys distinct. */
  lemma SortByDistinctKeys<T>(s: seq<T>, key: T -> SortKey, descending: bool)
    requires forall i, j :: 0 <= i < j < |s| ==> key(s[i]) != key(s[j])
    ensures var r := SortBy(s, key, descending);
      forall i, j :: 0 <= i < j < |r| ==> key(r[i]) != key(r[j])
  {
    var r := SortBy(s, key, descending);
    SortByStable(s, key, descending);
    forall i, j | 0 <= i < j < |r|
      ensures key(r[i]) != key(r[j])
    {
      if key(r[i]) == key(r[j]) {
        KeyClassHasTwo(r, key, i, j);
        KeyClassAtMostOne(s, key, key(r[i]));
      }
    }
  }

  /** The key class of a prefix is a prefix of the key class. */
  lemma {:induction false} KeyClassOfPrefix<T>(s: seq<T>, key: T -> SortKey, m: nat, k: SortKey)
    requires m <= |s|
    ensures var c := KeyClass(s[..m], key, k);
      |c| <= |KeyClass(s, key, k)| && c == KeyClass(s, key, k)[..|c|]
  {
    if m > 0 {
      KeyClassOfPrefix(s[1..], key, m - 1, k);
      assert s[..m][1..] == s[1..][..m - 1];
    }
  }
}
