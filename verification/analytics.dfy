/** The aggregates of `src/components/Analytics.tsx`, computed over the whole
    (unfiltered) company list.

    Each count table is built by a loop that bumps a per-key counter in a
    JavaScript object; `Object.entries` then lists the keys in the order they
    were first inserted. The model keeps that order explicitly (`Distinct`). */
module Analytics {
  import opened CompanyTypes
  import opened Sequences
  import opened StableSort

  /** One `{ name, value }` entry of a count table. */
  datatype Bucket<K> = Bucket(name: K, value: nat)

  function IndustryOf(c: Company): string { c.industry }
  function LocationOf(c: Company): string { c.location }
  function EmployeeCountOf(c: Company): string { c.employeeCount }
  function RevenueOf(c: Company): string { c.revenue }
  function FoundedOf(c: Company): int { c.founded }

  /** The value of one field for every company, in list order. */
  function Project<K>(cs: seq<Company>, field: Company -> K): (r: seq<K>)
    ensures |r| == |cs|
    ensures forall i :: 0 <= i < |cs| ==> r[i] == field(cs[i])
  {
    seq(|cs|, i requires 0 <= i < |cs| => field(cs[i]))
  }

  // ------------------------------------------------------------ counting

  /** The distinct values of `s`, in order of first occurrence. */
  function Distinct<K(==,!new)>(s: seq<K>): (d: seq<K>)
    ensures forall k :: k in d <==> k in s
    ensures forall i, j :: 0 <= i < j < |d| ==> d[i] != d[j]
  {
    if s == [] then []
    else
      var d := Distinct(s[..|s| - 1]);
      var x := s[|s| - 1];
      assert s == s[..|s| - 1] + [x];
      if x in d then d else d + [x]
  }

  function Buckets<K(==)>(d: seq<K>, s: seq<K>): (r: seq<Bucket<K>>)
    ensures |r| == |d|
    ensures forall i :: 0 <= i < |d| ==> r[i] == Bucket(d[i], multiset(s)[d[i]])
  {
    seq(|d|, i requires 0 <= i < |d| => Bucket(d[i], multiset(s)[d[i]]))
  }

  /** The count table of `s` as `Object.entries` lists it: one entry per
      distinct value, in order of first occurrence, holding its count. */
  function Tally<K(==,!new)>(s: seq<K>): seq<Bucket<K>>
  {
    Buckets(Distinct(s), s)
  }

  function Names<K>(r: seq<Bucket<K>>): (names: seq<K>)
    ensures |names| == |r|
    ensures forall i :: 0 <= i < |r| ==> names[i] == r[i].name
  {
    seq(|r|, i requires 0 <= i < |r| => r[i].name)
  }

  function SumValues<K>(r: seq<Bucket<K>>): nat
  {
    if r == [] then 0 else r[0].value + SumValues(r[1..])
  }

  /** The count table has exactly one entry per distinct value; each entry
      holds that value's number of occurrences, which is at least 1. */
  lemma TallyCounts<K(!new)>(s: seq<K>)
    ensures var t := Tally(s);
      && (forall k :: k in Names(t) <==> k in s)
      && (forall i, j :: 0 <= i < j < |t| ==> t[i].name != t[j].name)
      && (forall i :: 0 <= i < |t| ==> t[i].value == multiset(s)[t[i].name] && t[i].value >= 1)
  {
    var t := Tally(s);
    assert Names(t) == Distinct(s);
    forall i | 0 <= i < |t|
      ensures t[i].value >= 1
    {
      assert t[i].name in Names(t);
    }
  }

  lemma {:induction false} SumValuesAppend<K>(a: seq<Bucket<K>>, b: seq<Bucket<K>>)
    ensures SumValues(a + b) == SumValues(a) + SumValues(b)
  {
    if a == [] {
      assert a + b == b;
    } else {
      SumValuesAppend(a[1..], b);
      assert (a + b)[0] == a[0];
      assert (a + b)[1..] == a[1..] + b;
    }
  }

  lemma {:induction false} SumValuesUpdate<K>(r: seq<Bucket<K>>, m: nat, e: Bucket<K>)
    requires m < |r|
    ensures SumValues(r[m := e]) == SumValues(r) - r[m].value + e.value
  {
    if m > 0 {
      SumValuesUpdate(r[1..], m - 1, e);
      assert r[m := e][1..] == r[1..][m - 1 := e];
    }
  }

  /** The counts of a table add up to the number of companies counted. */
  lemma {:induction false} TallySum<K(!new)>(s: seq<K>)
    ensures SumValues(Tally(s)) == |s|
    decreases |s|
  {
    if s != [] {
      var p, x := s[..|s| - 1], s[|s| - 1];
      assert s == p + [x];
      TallySum(p);
      if x in Distinct(p) {
        var m :| 0 <= m < |Distinct(p)| && Distinct(p)[m] == x;
        TallySnocSeen(p, x, m);
        SumValuesUpdate(Tally(p), m, Bucket(x, multiset(p)[x] + 1));
      } else {
        TallySnocNew(p, x);
        SumValuesAppend(Tally(p), [Bucket(x, 1)]);
      }
    }
  }

  /** A value already seen bumps its own entry and leaves the others. */
  lemma TallySnocSeen<K(!new)>(p: seq<K>, x: K, m: nat)
    requires m < |Distinct(p)| && Distinct(p)[m] == x
    ensures Tally(p + [x]) == Tally(p)[m := Bucket(x, multiset(p)[x] + 1)]
  {
    DistinctSnoc(p, x);
    var d := Distinct(p);
    assert Distinct(p + [x]) == d;
    assert forall j :: 0 <= j < |d| && j != m ==> d[j] != x;
    BucketsBump(d, p, x, m);
  }

  /** A new value gets an entry of its own, at the end, with count 1. */
  lemma TallySnocNew<K(!new)>(p: seq<K>, x: K)
    requires x !in Distinct(p)
    ensures Tally(p + [x]) == Tally(p) + [Bucket(x, 1)]
  {
    DistinctSnoc(p, x);
    var d := Distinct(p);
    assert Distinct(p + [x]) == d + [x];
    BucketsSnoc(d, x, p + [x]);
    BucketsOther(d, p, x);
    assert x !in p;
    assert multiset(p + [x])[x] == 1 by {
      assert multiset(p + [x]) == multiset(p) + multiset{x};
    }
  }

  lemma BucketsSnoc<K>(d: seq<K>, x: K, s: seq<K>)
    ensures Buckets(d + [x], s) == Buckets(d, s) + [Bucket(x, multiset(s)[x])]
  {
  }

  lemma BucketsBump<K>(d: seq<K>, p: seq<K>, x: K, m: nat)
    requires m < |d| && d[m] == x
    requires forall j :: 0 <= j < |d| && j != m ==> d[j] != x
    ensures Buckets(d, p + [x]) == Buckets(d, p)[m := Bucket(x, multiset(p)[x] + 1)]
  {
    assert multiset(p + [x]) == multiset(p) + multiset{x};
  }

  lemma BucketsOther<K>(d: seq<K>, p: seq<K>, x: K)
    requires x !in d
    ensures Buckets(d, p + [x]) == Buckets(d, p)
  {
    assert multiset(p + [x]) == multiset(p) + multiset{x};
  }

  lemma ProjectSnoc<K>(cs: seq<Company>, i: nat, field: Company -> K)
    requires i < |cs|
    ensures Project(cs[..i + 1], field) == Project(cs[..i], field) + [field(cs[i])]
  {
  }

  lemma ProjectAppend<K>(cs: seq<Company>, c: Company, field: Company -> K)
    ensures Project(cs + [c], field) == Project(cs, field) + [field(c)]
  {
  }

  lemma DistinctSnoc<K(!new)>(s: seq<K>, x: K)
    ensures Distinct(s + [x]) == if x in Distinct(s) then Distinct(s) else Distinct(s) + [x]
  {
    assert (s + [x])[..|s + [x]| - 1] == s;
  }

  /** `a` occurs in `s` somewhere before position `q`. */
  ghost predicate SeenBefore<K>(s: seq<K>, a: K, q: int)
  {
    exists p :: 0 <= p < q && p < |s| && s[p] == a
  }

  /** `Object.entries` order: of two keys, the one listed first was first
      inserted first, so every occurrence of the later key comes after some
      occurrence of the earlier one. */
  lemma {:induction false} DistinctFirstSeenOrder<K(!new)>(s: seq<K>)
    ensures forall i, j, q :: 0 <= i < j < |Distinct(s)| && 0 <= q < |s| && s[q] == Distinct(s)[j] ==>
      SeenBefore(s, Distinct(s)[i], q)
    decreases |s|
  {
    if s != [] {
      var p, x := s[..|s| - 1], s[|s| - 1];
      assert s == p + [x];
      DistinctFirstSeenOrder(p);
      DistinctSnoc(p, x);
      var d0, d := Distinct(p), Distinct(s);
      forall i, j, q | 0 <= i < j < |d| && 0 <= q < |s| && s[q] == d[j]
        ensures SeenBefore(s, d[i], q)
      {
        if j < |d0| {
          assert d[i] == d0[i] && d[j] == d0[j];
          // the later key's first occurrence inside `p`
          var r := q;
          if q == |p| {
            assert x in p;
            r :| 0 <= r < |p| && p[r] == x;
          }
          assert p[r] == d0[j];
          assert SeenBefore(p, d0[i], r);
          var w :| 0 <= w < r && w < |p| && p[w] == d0[i];
          assert s[w] == d[i];
        } else {
          // the later key is `x`, new in the last position
          assert x !in p && d == d0 + [x] && d[i] == d0[i];
          assert q == |p|;
          assert d0[i] in p;
          var w :| 0 <= w < |p| && p[w] == d0[i];
          assert s[w] == d[i];
        }
      }
    }
  }

  /** The `forEach` loop: bump `counts[key]`, starting from `counts[key] || 0`,
      then list the entries. */
  method CountBy<K(==,!new)>(cs: seq<Company>, field: Company -> K) returns (entries: seq<Bucket<K>>)
    ensures entries == Tally(Project(cs, field))
  {
    var keys: seq<K> := [];
    var counts: map<K, nat> := map[];
    ghost var seen: seq<K> := [];
    for i := 0 to |cs|
      invariant seen == Project(cs[..i], field)
      invariant keys == Distinct(seen)
      invariant forall k :: k in counts <==> k in keys
      invariant forall k :: k in counts ==> counts[k] == multiset(seen)[k]
    {
      var k := field(cs[i]);
      var previous := if k in counts then counts[k] else 0;
      DistinctSnoc(seen, k);
      ProjectSnoc(cs, i, field);
      if k !in counts {
        keys := keys + [k];
      }
      counts := counts[k := previous + 1];
      seen := seen + [k];
    }
    assert cs[..|cs|] == cs;
    entries := seq(|keys|, j requires 0 <= j < |keys| => Bucket(keys[j], counts[keys[j]]));
    assert entries == Buckets(keys, seen);
  }

  // ------------------------------------------------------ count ordering

  function CountKey<K>(): Bucket<K> -> SortKey
  {
    (e: Bucket<K>) => Num(e.value)
  }

  /** `.sort((a, b) => b.value - a.value)`: a permutation of the table with
      non-increasing counts, equal counts kept in table order. */
  function ByCountDescending<K>(entries: seq<Bucket<K>>): (r: seq<Bucket<K>>)
    ensures multiset(r) == multiset(entries)
    ensures forall i :: 0 <= i < |r| - 1 ==> r[i].value >= r[i + 1].value
    ensures SameKeyClasses(r, entries, CountKey())
  {
    SortBySorted(entries, CountKey(), true);
    SortByStable(entries, CountKey(), true);
    SortBy(entries, CountKey(), true)
  }

  /** `industryData`: industries by non-increasing number of companies; an
      industry with as many companies as another keeps its first-seen rank. */
  method IndustryData(cs: seq<Company>) returns (data: seq<Bucket<string>>)
    ensures data == ByCountDescending(Tally(Project(cs, IndustryOf)))
    ensures multiset(data) == multiset(Tally(Project(cs, IndustryOf)))
    ensures |data| == |Distinct(Project(cs, IndustryOf))|
    ensures forall i :: 0 <= i < |data| - 1 ==> data[i].value >= data[i + 1].value
  {
    var entries := CountBy(cs, IndustryOf);
    data := ByCountDescending(entries);
  }

  /** `locationData`: the same ordering over locations, cut to its first ten
      entries, so the "Locations" figure is never above 10. */
  method LocationData(cs: seq<Company>) returns (data: seq<Bucket<string>>)
    ensures data == Slice(ByCountDescending(Tally(Project(cs, LocationOf))), 0, 10)
    ensures |data| == Min(10, |Distinct(Project(cs, LocationOf))|)
    ensures |data| <= 10
    ensures forall i :: 0 <= i < |data| - 1 ==> data[i].value >= data[i + 1].value
  {
    var entries := CountBy(cs, LocationOf);
    data := Slice(ByCountDescending(entries), 0, 10);
  }

  // ------------------------------------------- canonical bucket ordering

  /** The JavaScript values `indexOf` compares with `===`: strings by value,
      and the `{ name, value }` entry objects, which are never equal to a string. */
  datatype JsValue = Str(s: string) | Entry(bucket: Bucket<string>)

  /** `Array.prototype.indexOf`. */
  function IndexOf(xs: seq<JsValue>, v: JsValue): (r: int)
    ensures -1 <= r < |xs|
    ensures r >= 0 ==> xs[r] == v && v !in xs[..r]
    ensures r == -1 <==> v !in xs
  {
    if xs == [] then -1
    else if xs[0] == v then 0
    else
      var k := IndexOf(xs[1..], v);
      assert xs == [xs[0]] + xs[1..];
      if k < 0 then -1
      else
        assert xs[..k + 1] == [xs[0]] + xs[1..][..k];
        k + 1
  }

  function Strs(order: seq<string>): (r: seq<JsValue>)
    ensures |r| == |order|
    ensures forall i :: 0 <= i < |order| ==> r[i] == Str(order[i])
  {
    seq(|order|, i requires 0 <= i < |order| => Str(order[i]))
  }

  const EmployeeBucketOrder: seq<string> := ["100-200", "200-500", "500-1000", "1000-5000", "5000+"]

  const RevenueBucketOrder: seq<string> := ["$10M - $50M", "$50M - $100M", "$100M - $500M", "$500M+"]

  /** The comparator as written, `order.indexOf(a) - order.indexOf(b)`: it
      looks up the entry object `a`, not its name. */
  function EntryIndexKey(order: seq<string>): Bucket<string> -> SortKey
  {
    (e: Bucket<string>) => Num(IndexOf(Strs(order), Entry(e)))
  }

  /** The comparator as evidently intended, `order.indexOf(a.name) - order.indexOf(b.name)`. */
  function NameIndexKey(order: seq<string>): Bucket<string> -> SortKey
  {
    (e: Bucket<string>) => Num(IndexOf(Strs(order), Str(e.name)))
  }

  /** An entry object is never found in a list of strings. */
  lemma EntryNeverFound(order: seq<string>, e: Bucket<string>)
    ensures IndexOf(Strs(order), Entry(e)) == -1
  {
    assert forall i :: 0 <= i < |order| ==> Strs(order)[i] != Entry(e);
  }

  /** The table sorted with the comparator as written is the table unchanged:
      every comparison returns `-1 - -1 == 0`. */
  function SortByEntryIndex(entries: seq<Bucket<string>>, order: seq<string>): (r: seq<Bucket<string>>)
    ensures r == entries
  {
    forall i | 0 <= i < |entries|
      ensures EntryIndexKey(order)(entries[i]) == Num(-1)
    {
      EntryNeverFound(order, entries[i]);
    }
    SortByEqualKeys(entries, EntryIndexKey(order), false, Num(-1));
    SortBy(entries, EntryIndexKey(order), false)
  }

  /** The table sorted by each name's position in `order`; a name missing
      from `order` has position -1 and goes first. */
  function SortByNameIndex(entries: seq<Bucket<string>>, order: seq<string>): (r: seq<Bucket<string>>)
    ensures multiset(r) == multiset(entries)
    ensures forall i :: 0 <= i < |r| - 1 ==>
      IndexOf(Strs(order), Str(r[i].name)) <= IndexOf(Strs(order), Str(r[i + 1].name))
  {
    SortBySorted(entries, NameIndexKey(order), false);
    SortBy(entries, NameIndexKey(order), false)
  }

  /** `employeeData` as written: the canonical size order has no effect, the
      sizes stay in first-seen order. */
  method EmployeeData(cs: seq<Company>) returns (data: seq<Bucket<string>>)
    ensures data == Tally(Project(cs, EmployeeCountOf))
  {
    var entries := CountBy(cs, EmployeeCountOf);
    data := SortByEntryIndex(entries, EmployeeBucketOrder);
  }

  /** `employeeData` as intended: sizes in the canonical order. */
  method EmployeeDataCanonical(cs: seq<Company>) returns (data: seq<Bucket<string>>)
    ensures multiset(data) == multiset(Tally(Project(cs, EmployeeCountOf)))
    ensures forall i :: 0 <= i < |data| - 1 ==>
      IndexOf(Strs(EmployeeBucketOrder), Str(data[i].name)) <= IndexOf(Strs(EmployeeBucketOrder), Str(data[i + 1].name))
  {
    var entries := CountBy(cs, EmployeeCountOf);
    data := SortByNameIndex(entries, EmployeeBucketOrder);
  }

  /** `revenueData` as written: revenue bands stay in first-seen order. */
  method RevenueData(cs: seq<Company>) returns (data: seq<Bucket<string>>)
    ensures data == Tally(Project(cs, RevenueOf))
  {
    var entries := CountBy(cs, RevenueOf);
    data := SortByEntryIndex(entries, RevenueBucketOrder);
  }

  /** `revenueData` as intended: revenue bands in the canonical order. */
  method RevenueDataCanonical(cs: seq<Company>) returns (data: seq<Bucket<string>>)
    ensures multiset(data) == multiset(Tally(Project(cs, RevenueOf)))
    ensures forall i :: 0 <= i < |data| - 1 ==>
      IndexOf(Strs(RevenueBucketOrder), Str(data[i].name)) <= IndexOf(Strs(RevenueBucketOrder), Str(data[i + 1].name))
  {
    var entries := CountBy(cs, RevenueOf);
    data := SortByNameIndex(entries, RevenueBucketOrder);
  }

  lemma EmployeeOrderPositions()
    ensures IndexOf(Strs(EmployeeBucketOrder), Str("100-200")) == 0
    ensures IndexOf(Strs(EmployeeBucketOrder), Str("5000+")) == 4
  {
    var order := Strs(EmployeeBucketOrder);
    assert order[0] == Str("100-200");
    assert order[4] == Str("5000+");
    assert order[..4] == [Str("100-200"), Str("200-500"), Str("500-1000"), Str("1000-5000")];
  }

  /** Two sizes counted largest first: as written the table keeps that order,
      while the canonical order puts the smaller size first. */
  lemma EmployeeOrderIgnored()
    ensures var t := [Bucket("5000+", 1), Bucket("100-200", 1)];
      && SortByEntryIndex(t, EmployeeBucketOrder) == t
      && SortByNameIndex(t, EmployeeBucketOrder) == [Bucket("100-200", 1), Bucket("5000+", 1)]
  {
    var t := [Bucket("5000+", 1), Bucket("100-200", 1)];
    EmployeeOrderPositions();
    var r := SortByNameIndex(t, EmployeeBucketOrder);
    assert |r| == 2 by {
      assert |multiset(r)| == |multiset(t)|;
    }
    assert r[0] in multiset(t) && r[1] in multiset(t);
    assert multiset(r) == multiset{r[0], r[1]} by {
      assert r == [r[0], r[1]];
    }
  }

  lemma RevenueOrderPositions()
    ensures IndexOf(Strs(RevenueBucketOrder), Str("$10M - $50M")) == 0
    ensures IndexOf(Strs(RevenueBucketOrder), Str("$500M+")) == 3
  {
    var order := Strs(RevenueBucketOrder);
    assert order[0] == Str("$10M - $50M");
    assert order[3] == Str("$500M+");
    assert order[..3] == [Str("$10M - $50M"), Str("$50M - $100M"), Str("$100M - $500M")];
  }

  /** Two revenue bands counted largest first: as written the table keeps
      that order, while the canonical order puts the smaller band first. */
  lemma RevenueOrderIgnored()
    ensures var t := [Bucket("$500M+", 2), Bucket("$10M - $50M", 1)];
      && SortByEntryIndex(t, RevenueBucketOrder) == t
      && SortByNameIndex(t, RevenueBucketOrder) == [Bucket("$10M - $50M", 1), Bucket("$500M+", 2)]
  {
    var t := [Bucket("$500M+", 2), Bucket("$10M - $50M", 1)];
    RevenueOrderPositions();
    var r := SortByNameIndex(t, RevenueBucketOrder);
    assert |r| == 2 by {
      assert |multiset(r)| == |multiset(t)|;
    }
    assert r[0] in multiset(t) && r[1] in multiset(t);
    assert multiset(r) == multiset{r[0], r[1]} by {
      assert r == [r[0], r[1]];
    }
  }

  // ------------------------------------------------------- rating groups

  /** One `{ total, count }` record of `ratingByIndustry`, with its key. */
  datatype RatingGroup = RatingGroup(name: string, total: int, count: nat)

  /** The sum of the ratings of the companies in `industry`. */
  function RatingTotal(cs: seq<Company>, industry: string): int
  {
    if cs == [] then 0
    else
      var last := cs[|cs| - 1];
      RatingTotal(cs[..|cs| - 1], industry) + (if last.industry == industry then last.rating else 0)
  }

  /** The `data` table of `ratingByIndustry` as `Object.entries` lists it:
      one record per industry, in first-seen order, holding the sum of its
      ratings and its number of companies. */
  function RatingGroups(cs: seq<Company>): (r: seq<RatingGroup>)
  {
    var d := Distinct(Project(cs, IndustryOf));
    seq(|d|, i requires 0 <= i < |d| =>
      RatingGroup(d[i], RatingTotal(cs, d[i]), multiset(Project(cs, IndustryOf))[d[i]]))
  }

  /** The `forEach` loop of `ratingByIndustry`: create `{ total: 0, count: 0 }`
      the first time an industry is seen, then add the rating and one. */
  method RatingTotalsByIndustry(cs: seq<Company>) returns (groups: seq<RatingGroup>)
    ensures groups == RatingGroups(cs)
  {
    var keys: seq<string> := [];
    var data: map<string, (int, nat)> := map[];
    for i := 0 to |cs|
      invariant Tallied(keys, data, cs[..i])
    {
      var c := cs[i];
      ghost var before, beforeKeys := data, keys;
      // the record starts at `{ total: 0, count: 0 }` the first time
      var entry := if c.industry in data then data[c.industry] else (0, 0);
      if c.industry !in data {
        keys := keys + [c.industry];
      }
      data := data[c.industry := (entry.0 + c.rating, entry.1 + 1)];
      AccumulateStep(cs, i, beforeKeys, before, entry, keys, data);
    }
    assert cs[..|cs|] == cs;
    groups := Entries(keys, data);
    EntriesOfAccumulated(cs, keys, data);
  }

  /** `Object.entries(data)` mapped to records, in key insertion order. */
  function Entries(keys: seq<string>, data: map<string, (int, nat)>): (r: seq<RatingGroup>)
    requires forall k :: k in keys ==> k in data
    ensures |r| == |keys|
    ensures forall j :: 0 <= j < |keys| ==> r[j] == RatingGroup(keys[j], data[keys[j]].0, data[keys[j]].1)
  {
    seq(|keys|, j requires 0 <= j < |keys| => RatingGroup(keys[j], data[keys[j]].0, data[keys[j]].1))
  }

  lemma EntriesOfAccumulated(cs: seq<Company>, keys: seq<string>, data: map<string, (int, nat)>)
    requires Tallied(keys, data, cs)
    ensures Entries(keys, data) == RatingGroups(cs)
  {
    forall j | 0 <= j < |keys|
      ensures Entries(keys, data)[j] == RatingGroups(cs)[j]
    {
      IndustryCountIsMultiplicity(cs, keys[j]);
    }
  }

  /** The number of companies in `industry`, counted the way the loop does. */
  function IndustryCount(cs: seq<Company>, industry: string): nat
  {
    if cs == [] then 0
    else IndustryCount(cs[..|cs| - 1], industry) + (if cs[|cs| - 1].industry == industry then 1 else 0)
  }

  lemma {:induction false} IndustryCountIsMultiplicity(cs: seq<Company>, industry: string)
    ensures IndustryCount(cs, industry) == multiset(Project(cs, IndustryOf))[industry]
  {
    if cs != [] {
      IndustryCountIsMultiplicity(cs[..|cs| - 1], industry);
      ProjectSnoc(cs, |cs| - 1, IndustryOf);
      assert cs[..|cs|] == cs;
    }
  }

  /** `data` holds, for each industry seen in `prefix`, its rating total and
      its number of companies; an industry not in `data` has neither. */
  ghost predicate Accumulated(data: map<string, (int, nat)>, prefix: seq<Company>)
  {
    forall k :: (if k in data then data[k] else (0, 0)) == (RatingTotal(prefix, k), IndustryCount(prefix, k))
  }

  /** The loop invariant: `keys` lists the industries of `prefix` in
      first-seen order, they are exactly the keys of `data`, and `data` holds
      their totals and counts. */
  ghost predicate Tallied(keys: seq<string>, data: map<string, (int, nat)>, prefix: seq<Company>)
  {
    && keys == Distinct(Project(prefix, IndustryOf))
    && (forall k :: k in data <==> k in keys)
    && Accumulated(data, prefix)
  }

  /** One turn of the loop keeps its invariant. */
  lemma AccumulateStep(cs: seq<Company>, i: nat, keys: seq<string>, data: map<string, (int, nat)>,
                       entry: (int, nat), nextKeys: seq<string>, next: map<string, (int, nat)>)
    requires i < |cs| && Tallied(keys, data, cs[..i])
    requires entry == if cs[i].industry in data then data[cs[i].industry] else (0, 0)
    requires nextKeys == if cs[i].industry in data then keys else keys + [cs[i].industry]
    requires next == data[cs[i].industry := (entry.0 + cs[i].rating, entry.1 + 1)]
    ensures Tallied(nextKeys, next, cs[..i + 1])
  {
    KeysSnoc(cs, i, keys, cs[i].industry in data, nextKeys);
    AccumulatedSnoc(cs, i, data, entry, next);
  }

  /** The first sighting of an industry appends it to the key list. */
  lemma KeysSnoc(cs: seq<Company>, i: nat, keys: seq<string>, seen: bool, nextKeys: seq<string>)
    requires i < |cs| && keys == Distinct(Project(cs[..i], IndustryOf))
    requires seen == (cs[i].industry in keys)
    requires nextKeys == if seen then keys else keys + [cs[i].industry]
    ensures nextKeys == Distinct(Project(cs[..i + 1], IndustryOf))
  {
    var prefix, c := cs[..i], cs[i];
    assert cs[..i + 1] == prefix + [c];
    ProjectAppend(prefix, c, IndustryOf);
    DistinctSnoc(Project(prefix, IndustryOf), c.industry);
  }

  lemma AccumulatedSnoc(cs: seq<Company>, i: nat, data: map<string, (int, nat)>,
                        entry: (int, nat), next: map<string, (int, nat)>)
    requires i < |cs| && Accumulated(data, cs[..i])
    requires entry == if cs[i].industry in data then data[cs[i].industry] else (0, 0)
    requires next == data[cs[i].industry := (entry.0 + cs[i].rating, entry.1 + 1)]
    ensures Accumulated(next, cs[..i + 1])
  {
    var prefix, c, after := cs[..i], cs[i], cs[..i + 1];
    assert after[..|after| - 1] == prefix && after[|after| - 1] == c;
    forall k
      ensures (if k in next then next[k] else (0, 0)) == (RatingTotal(after, k), IndustryCount(after, k))
    {
      assert RatingTotal(after, k) == RatingTotal(prefix, k) + (if c.industry == k then c.rating else 0);
      assert IndustryCount(after, k) == IndustryCount(prefix, k) + (if c.industry == k then 1 else 0);
    }
  }

  /** The `{ name, count }` view of the rating groups. */
  function GroupCounts(groups: seq<RatingGroup>): (r: seq<Bucket<string>>)
    ensures |r| == |groups|
    ensures forall i :: 0 <= i < |groups| ==> r[i] == Bucket(groups[i].name, groups[i].count)
  {
    seq(|groups|, i requires 0 <= i < |groups| => Bucket(groups[i].name, groups[i].count))
  }

  /** The rating groups have the industries of `industryData` as keys, and
      each group's count is that industry's count in `industryData`. */
  lemma RatingGroupsMatchIndustryData(cs: seq<Company>)
    ensures GroupCounts(RatingGroups(cs)) == Tally(Project(cs, IndustryOf))
    ensures multiset(GroupCounts(RatingGroups(cs))) == multiset(ByCountDescending(Tally(Project(cs, IndustryOf))))
  {
    assert GroupCounts(RatingGroups(cs)) == Tally(Project(cs, IndustryOf));
  }

  lemma MulSucc(n: int, x: int)
    ensures (n + 1) * x == n * x + x
  {
  }

  /** When every rating lies in `lo..hi`, an industry's rating total lies
      between its count times `lo` and its count times `hi`, so its average
      is a rating in that range. */
  lemma {:induction false} RatingTotalBounds(cs: seq<Company>, industry: string, lo: int, hi: int)
    requires forall c :: c in cs ==> lo <= c.rating <= hi
    ensures var n := multiset(Project(cs, IndustryOf))[industry];
      n * lo <= RatingTotal(cs, industry) <= n * hi
  {
    if cs != [] {
      var p, last := cs[..|cs| - 1], cs[|cs| - 1];
      assert forall c :: c in p ==> c in cs;
      RatingTotalBounds(p, industry, lo, hi);
      ProjectSnoc(cs, |cs| - 1, IndustryOf);
      assert cs[..|cs|] == cs;
      var n := multiset(Project(p, IndustryOf))[industry];
      var total := RatingTotal(p, industry);
      assert RatingTotal(cs, industry) == total + (if last.industry == industry then last.rating else 0);
      if last.industry == industry {
        assert multiset(Project(cs, IndustryOf))[industry] == n + 1;
        assert lo <= last.rating <= hi;
        MulSucc(n, lo);
        MulSucc(n, hi);
      } else {
        assert multiset(Project(cs, IndustryOf))[industry] == n;
      }
    }
  }

  /** Every rating group's count is at least one, so no average divides by zero. */
  lemma RatingGroupsNonEmpty(cs: seq<Company>)
    ensures forall g :: g in RatingGroups(cs) ==> g.count >= 1
  {
    var d := Distinct(Project(cs, IndustryOf));
    forall g | g in RatingGroups(cs)
      ensures g.count >= 1
    {
      var i :| 0 <= i < |d| && RatingGroups(cs)[i] == g;
      assert d[i] in Project(cs, IndustryOf);
    }
  }

  // ---------------------------------------------------------- top rated

  function RatingKey(): Company -> SortKey
  {
    (c: Company) => Num(c.rating)
  }

  /** In a list sorted by non-increasing rating, nothing after the first `m`
      is rated above the `m`-th. */
  lemma TopRatedTail(s: seq<Company>, m: nat)
    requires m <= |s| && (m == 0 ==> s == [])
    requires Sorted(s, RatingKey(), true)
    ensures var r := s[..m];
      forall c :: c in multiset(s) - multiset(r) ==> |r| > 0 && c.rating <= r[|r| - 1].rating
  {
    assert s == s[..m] + s[m..];
    forall c | c in multiset(s) - multiset(s[..m])
      ensures m > 0 && c.rating <= s[m - 1].rating
    {
      assert c in multiset(s[m..]);
      var j :| 0 <= j < |s[m..]| && s[m..][j] == c;
      assert Compare(RatingKey()(s[m - 1]), RatingKey()(s[m + j]), true) <= 0;
    }
  }

  /** `topRatedCompanies`: a copy sorted by non-increasing rating, cut to its
      first five. It holds `min(5, n)` of the companies; no company left out
      is rated above the last one listed; companies with equal ratings are
      listed in input order, as the first ones of their rating. */
  function TopRatedCompanies(cs: seq<Company>): (r: seq<Company>)
    ensures |r| == Min(5, |cs|)
    ensures multiset(r) <= multiset(cs)
    ensures forall i :: 0 <= i < |r| - 1 ==> r[i].rating >= r[i + 1].rating
    ensures forall c :: c in multiset(cs) - multiset(r) ==> |r| > 0 && c.rating <= r[|r| - 1].rating
    ensures forall k :: KeyClass(r, RatingKey(), k) <= KeyClass(cs, RatingKey(), k)
  {
    var s := SortBy(cs, RatingKey(), true);
    SortBySorted(cs, RatingKey(), true);
    SortByStable(cs, RatingKey(), true);
    TopRatedPrefix(cs, s, Min(5, |cs|));
    Slice(s, 0, 5)
  }

  lemma TopRatedPrefix(cs: seq<Company>, s: seq<Company>, m: nat)
    requires |s| == |cs| && multiset(s) == multiset(cs) && m == Min(5, |cs|)
    requires Sorted(s, RatingKey(), true) && SameKeyClasses(s, cs, RatingKey())
    ensures var r := s[..m];
      && multiset(r) <= multiset(cs)
      && (forall i :: 0 <= i < |r| - 1 ==> r[i].rating >= r[i + 1].rating)
      && (forall c :: c in multiset(cs) - multiset(r) ==> |r| > 0 && c.rating <= r[|r| - 1].rating)
      && (forall k :: KeyClass(r, RatingKey(), k) <= KeyClass(cs, RatingKey(), k))
  {
    TopRatedPrefixSorted(s, m);
    TopRatedTail(s, m);
    PrefixMultiset(s, m);
    TopRatedPrefixStable(cs, s, m);
  }

  lemma PrefixMultiset<T>(s: seq<T>, m: nat)
    requires m <= |s|
    ensures multiset(s[..m]) <= multiset(s)
  {
    assert s == s[..m] + s[m..];
  }

  lemma TopRatedPrefixSorted(s: seq<Company>, m: nat)
    requires m <= |s| && Sorted(s, RatingKey(), true)
    ensures var r := s[..m];
      forall i :: 0 <= i < |r| - 1 ==> r[i].rating >= r[i + 1].rating
  {
    forall i | 0 <= i < m - 1
      ensures s[i].rating >= s[i + 1].rating
    {
      assert Compare(RatingKey()(s[i]), RatingKey()(s[i + 1]), true) <= 0;
    }
  }

  lemma TopRatedPrefixStable(cs: seq<Company>, s: seq<Company>, m: nat)
    requires m <= |s| && SameKeyClasses(s, cs, RatingKey())
    ensures forall k :: KeyClass(s[..m], RatingKey(), k) <= KeyClass(cs, RatingKey(), k)
  {
    forall k
      ensures KeyClass(s[..m], RatingKey(), k) <= KeyClass(cs, RatingKey(), k)
    {
      KeyClassOfPrefix(s, RatingKey(), m, k);
    }
  }

  // ------------------------------------------------------ year histogram

  /** One `{ year, companies }` point of `companiesByYear`. */
  datatype YearPoint = YearPoint(year: int, companies: nat)

  function ToYearPoints(entries: seq<Bucket<int>>): (r: seq<YearPoint>)
    ensures |r| == |entries|
    ensures forall i :: 0 <= i < |entries| ==> r[i] == YearPoint(entries[i].name, entries[i].value)
  {
    seq(|entries|, i requires 0 <= i < |entries| => YearPoint(entries[i].name, entries[i].value))
  }

  /** The years of the points, in order. */
  function Years(points: seq<YearPoint>): (r: seq<int>)
    ensures |r| == |points|
    ensures forall i :: 0 <= i < |points| ==> r[i] == points[i].year
  {
    seq(|points|, i requires 0 <= i < |points| => points[i].year)
  }

  function YearKey(): YearPoint -> SortKey
  {
    (p: YearPoint) => Num(p.year)
  }

  lemma SortedYears(r: seq<YearPoint>)
    requires Sorted(r, YearKey(), false)
    ensures forall i, j :: 0 <= i < j < |r| ==> r[i].year <= r[j].year
  {
    forall i, j | 0 <= i < j < |r|
      ensures r[i].year <= r[j].year
    {
      assert Compare(YearKey()(r[i]), YearKey()(r[j]), false) <= 0;
    }
  }

  /** `.sort((a, b) => a.year - b.year)`: a permutation with non-decreasing years. */
  function ByYear(points: seq<YearPoint>): (r: seq<YearPoint>)
    ensures multiset(r) == multiset(points)
    ensures forall i, j :: 0 <= i < j < |r| ==> r[i].year <= r[j].year
  {
    SortBySorted(points, YearKey(), false);
    SortedYears(SortBy(points, YearKey(), false));
    SortBy(points, YearKey(), false)
  }

  /** Points with pairwise different years come out in strictly increasing
      year order. */
  lemma ByYearStrict(points: seq<YearPoint>)
    requires forall i, j :: 0 <= i < j < |points| ==> points[i].year != points[j].year
    ensures var r := ByYear(points);
      forall i, j :: 0 <= i < j < |r| ==> r[i].year < r[j].year
  {
    forall i, j | 0 <= i < j < |points|
      ensures YearKey()(points[i]) != YearKey()(points[j])
    {
    }
    SortByDistinctKeys(points, YearKey(), false);
    var r := ByYear(points);
    assert r == SortBy(points, YearKey(), false);
    forall i, j | 0 <= i < j < |r|
      ensures r[i].year < r[j].year
    {
      assert YearKey()(r[i]) != YearKey()(r[j]);
    }
  }

  /** The points of a year count table: pairwise different years, each one
      a year of `years` with its number of occurrences, and every year of
      `years` among them. */
  lemma YearPointsOfTally(years: seq<int>)
    ensures var u := ToYearPoints(Tally(years));
      && (forall i, j :: 0 <= i < j < |u| ==> u[i].year != u[j].year)
      && (forall p :: p in u ==> p.year in years && p.companies == multiset(years)[p.year])
      && (forall y :: y in years ==> y in Years(u))
  {
    var t := Tally(years);
    var u := ToYearPoints(t);
    TallyCounts(years);
    assert Names(t) == Distinct(years);
    forall p | p in u
      ensures p.year in years && p.companies == multiset(years)[p.year]
    {
      var i :| 0 <= i < |u| && u[i] == p;
      assert t[i].name in Names(t);
    }
    forall y | y in years
      ensures y in Years(u)
    {
      assert y in Names(t);
      var i :| 0 <= i < |t| && Names(t)[i] == y;
      assert Years(u)[i] == y;
    }
  }

  /** The year histogram of `years`, as a set of properties of its points. */
  lemma YearHistogram(years: seq<int>)
    ensures var r := ByYear(ToYearPoints(Tally(years)));
      && |r| == |Distinct(years)|
      && (forall i, j :: 0 <= i < j < |r| ==> r[i].year < r[j].year)
      && (forall p :: p in r ==> p.year in years && p.companies == multiset(years)[p.year])
      && (forall y :: y in Years(r) <==> y in years)
  {
    var u := ToYearPoints(Tally(years));
    var r := ByYear(u);
    YearPointsOfTally(years);
    ByYearStrict(u);
    assert |r| == |u| by {
      assert |multiset(r)| == |multiset(u)|;
    }
    assert forall p :: p in r <==> p in u by {
      assert forall p :: p in r <==> p in multiset(r);
    }
    forall y | y in Years(u)
      ensures y in Years(r)
    {
      var i :| 0 <= i < |u| && Years(u)[i] == y;
      assert u[i] in r;
      var j :| 0 <= j < |r| && r[j] == u[i];
      assert Years(r)[j] == y;
    }
    forall y | y in Years(r)
      ensures y in years
    {
      var j :| 0 <= j < |r| && Years(r)[j] == y;
      assert r[j] in r;
    }
  }

  /** `companiesByYear`: one point per distinct founding year, in strictly
      increasing year order, each holding the number of companies founded
      that year. */
  method CompaniesByYear(cs: seq<Company>) returns (points: seq<YearPoint>)
    ensures |points| == |Distinct(Project(cs, FoundedOf))|
    ensures forall i, j :: 0 <= i < j < |points| ==> points[i].year < points[j].year
    ensures forall p :: p in points ==>
      p.year in Project(cs, FoundedOf) && p.companies == multiset(Project(cs, FoundedOf))[p.year]
    ensures forall y :: y in Years(points) <==> y in Project(cs, FoundedOf)
  {
    var entries := CountBy(cs, FoundedOf);
    points := ByYear(ToYearPoints(entries));
    YearHistogram(Project(cs, FoundedOf));
  }
}
