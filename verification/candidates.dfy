/** Candidate generation by customer name, shared word for word by the
    Customer+Policy+Premium and Customer+Premium+Tenure passes: every pair of
    normalised names scoring at least the threshold, bucketed by score, expanded to
    all row pairs carrying those names, de-duplicated in descending-score order and
    stable-sorted by the broker row number. */
module NameCandidates {
  import opened Wrappers
  import opened Ids
  import opened Records
  import opened Seqs
  import opened NameNormalizer

  /** `{i: j}`: broker row `i` proposed as a partner of insurer row `j`. */
  datatype Pair = Pair(broker: Id, insurer: Id)

  /** The range of `fuzz.ratio`, which the model takes as a parameter. */
  type Score = s: int | 0 <= s <= 100

  /** The threshold both passes pass to `compute_similarity`. */
  const Threshold: int := 71

  /** `(name1, name2)` as appended to `results[score]`. */
  datatype Hit = Hit(name1: string, name2: string, score: Score)

  function HitScore(h: Hit): int { h.score }

  function BrokerName(f: BrokerFields): Option<string> { f.custName }

  function InsurerName(f: InsurerFields): Option<string> { f.insuredCustomerName }

  /** `astype(str)`: a missing cell becomes the text "nan". */
  function AsText(name: Option<string>): string {
    match name
    case None => "nan"
    case Some(s) => s
  }

  /** An entry of `names1`/`names2`: a distinct raw name converted to text, then
      normalised. */
  function ListKey(name: Option<string>): string {
    PreprocessName(Some(AsText(name)))
  }

  /** The key a row is selected by: `preprocess_name` on the raw cell, where a
      missing cell gives "". */
  function RowKey(name: Option<string>): string {
    PreprocessName(name)
  }

  function RawNames<F>(rows: seq<Row<F>>, name: F -> Option<string>): seq<Option<string>> {
    seq(|rows|, k requires 0 <= k < |rows| => name(rows[k].fields))
  }

  function Keys(names: seq<Option<string>>, key: Option<string> -> string): seq<string> {
    seq(|names|, k requires 0 <= k < |names| => key(names[k]))
  }

  /** `names1`: the column's distinct raw values, normalised; since different raw
      names can normalise alike, entries may repeat. */
  function NameList<F>(rows: seq<Row<F>>, name: F -> Option<string>): seq<string> {
    Keys(Unique(RawNames(rows, name)), ListKey)
  }

  lemma KeysOfUniqueMember<F>(rows: seq<Row<F>>, name: F -> Option<string>, key: Option<string> -> string, n: string)
    ensures n in Keys(Unique(RawNames(rows, name)), key) <==> exists k :: 0 <= k < |rows| && key(name(rows[k].fields)) == n
  {
    var raw := RawNames(rows, name);
    UniqueSpec(raw);
    var u := Unique(raw);
    if n in Keys(u, key) {
      var m :| 0 <= m < |u| && Keys(u, key)[m] == n;
      assert u[m] in raw;
      var k :| 0 <= k < |raw| && raw[k] == u[m];
      assert key(name(rows[k].fields)) == n;
    }
    if exists k :: 0 <= k < |rows| && key(name(rows[k].fields)) == n {
      var k :| 0 <= k < |rows| && key(name(rows[k].fields)) == n;
      assert raw[k] in u;
      var m :| 0 <= m < |u| && u[m] == raw[k];
      assert Keys(u, key)[m] == n;
    }
  }

  /** A listed name is the normalisation of some row's name, and every row's name
      is listed. */
  lemma NameListMember<F>(rows: seq<Row<F>>, name: F -> Option<string>, n: string)
    ensures n in NameList(rows, name) <==> exists k :: 0 <= k < |rows| && ListKey(name(rows[k].fields)) == n
  {
    KeysOfUniqueMember(rows, name, ListKey, n);
  }

  /** The inner loop over `names2` for one `name1`. */
  function HitsFor(n1: string, names2: seq<string>, ratio: (string, string) -> Score): seq<Hit> {
    if names2 == [] then []
    else (if ratio(n1, names2[0]) >= Threshold then [Hit(n1, names2[0], ratio(n1, names2[0]))] else [])
         + HitsFor(n1, names2[1..], ratio)
  }

  /** Every recorded `(name1, name2)` with its score, in loop order. */
  function Hits(names1: seq<string>, names2: seq<string>, ratio: (string, string) -> Score): seq<Hit> {
    if names1 == [] then [] else HitsFor(names1[0], names2, ratio) + Hits(names1[1..], names2, ratio)
  }

  /** A name pair is recorded when both names are listed and score at least the
      threshold; it is recorded with its own score. */
  predicate Qualifies(h: Hit, names1: seq<string>, names2: seq<string>, ratio: (string, string) -> Score) {
    h.name1 in names1 && h.name2 in names2 && h.score == ratio(h.name1, h.name2) && h.score >= Threshold
  }

  lemma {:induction false} HitsForMember(n1: string, names2: seq<string>, ratio: (string, string) -> Score, h: Hit)
    ensures h in HitsFor(n1, names2, ratio) <==> h.name1 == n1 && Qualifies(h, [n1], names2, ratio)
  {
    if names2 != [] {
      HitsForMember(n1, names2[1..], ratio, h);
      assert names2 == [names2[0]] + names2[1..];
    }
  }

  /** Exactly the qualifying name pairs are recorded. */
  lemma {:induction false} HitsMember(names1: seq<string>, names2: seq<string>, ratio: (string, string) -> Score, h: Hit)
    ensures h in Hits(names1, names2, ratio) <==> Qualifies(h, names1, names2, ratio)
  {
    if names1 != [] {
      HitsForMember(names1[0], names2, ratio, h);
      HitsMember(names1[1..], names2, ratio, h);
      assert names1 == [names1[0]] + names1[1..];
    }
  }

  /** `results[s]`: the name pairs scoring exactly `s`, in the order appended. */
  function Bucket(hits: seq<Hit>, s: int): seq<Hit> {
    if hits == [] then []
    else (if hits[0].score == s then [hits[0]] else []) + Bucket(hits[1..], s)
  }

  /** The buckets of `sorted_similarity_dict`, from score `s` down to the threshold. */
  function Descending(hits: seq<Hit>, s: int): seq<Hit>
    decreases s
  {
    if s < Threshold then [] else Bucket(hits, s) + Descending(hits, s - 1)
  }

  /** The name pairs whose score lies in `lo..hi`, in order. */
  function InRange(hits: seq<Hit>, lo: int, hi: int): seq<Hit> {
    if hits == [] then []
    else (if lo <= hits[0].score <= hi then [hits[0]] else []) + InRange(hits[1..], lo, hi)
  }

  lemma {:induction false} BucketMember(hits: seq<Hit>, s: int, h: Hit)
    ensures h in Bucket(hits, s) <==> h in hits && h.score == s
  {
    if hits != [] {
      BucketMember(hits[1..], s, h);
      assert hits == [hits[0]] + hits[1..];
    }
  }

  lemma {:induction false} InRangeSplit(hits: seq<Hit>, lo: int, hi: int)
    requires lo <= hi
    ensures multiset(InRange(hits, lo, hi)) == multiset(Bucket(hits, hi)) + multiset(InRange(hits, lo, hi - 1))
  {
    if hits != [] {
      InRangeSplit(hits[1..], lo, hi);
    }
  }

  lemma {:induction false} InRangeAll(hits: seq<Hit>, lo: int, hi: int)
    requires forall k :: 0 <= k < |hits| ==> lo <= hits[k].score <= hi
    ensures InRange(hits, lo, hi) == hits
  {
    if hits != [] {
      InRangeAll(hits[1..], lo, hi);
    }
  }

  lemma {:induction false} DescendingRange(hits: seq<Hit>, s: int)
    ensures multiset(Descending(hits, s)) == multiset(InRange(hits, Threshold, s))
    decreases s
  {
    if s < Threshold {
      InRangeEmpty(hits, Threshold, s);
    } else {
      DescendingRange(hits, s - 1);
      InRangeSplit(hits, Threshold, s);
    }
  }

  lemma {:induction false} InRangeEmpty(hits: seq<Hit>, lo: int, hi: int)
    requires hi < lo
    ensures InRange(hits, lo, hi) == []
  {
    if hits != [] {
      InRangeEmpty(hits[1..], lo, hi);
    }
  }

  lemma {:induction false} DescendingOrder(hits: seq<Hit>, s: int)
    ensures NonIncreasing(Descending(hits, s), HitScore)
    ensures forall h :: h in Descending(hits, s) ==> h.score <= s
    decreases s
  {
    if s >= Threshold {
      DescendingOrder(hits, s - 1);
      var b := Bucket(hits, s);
      forall h | h in b ensures h.score == s {
        BucketMember(hits, s, h);
      }
      NonIncreasingAppend(b, Descending(hits, s - 1), HitScore);
    }
  }

  /** Ordering the buckets by descending score rearranges the recorded pairs,
      losing none, so that scores never increase. */
  predicate AboveThreshold(hits: seq<Hit>) {
    forall k :: 0 <= k < |hits| ==> hits[k].score >= Threshold
  }

  lemma HitsAboveThreshold(names1: seq<string>, names2: seq<string>, ratio: (string, string) -> Score)
    ensures AboveThreshold(Hits(names1, names2, ratio))
  {
    var hits := Hits(names1, names2, ratio);
    forall k | 0 <= k < |hits| ensures hits[k].score >= Threshold {
      HitsMember(names1, names2, ratio, hits[k]);
    }
  }

  /** Ordering the buckets by descending score rearranges the recorded pairs,
      losing none, so that scores never increase. */
  lemma DescendingSpec(hits: seq<Hit>)
    requires AboveThreshold(hits)
    ensures multiset(Descending(hits, 100)) == multiset(hits)
    ensures NonIncreasing(Descending(hits, 100), HitScore)
  {
    InRangeAll(hits, Threshold, 100);
    DescendingRange(hits, 100);
    DescendingOrder(hits, 100);
  }

  /** The indices listed under a name, an empty list when the name is absent. */
  function Listed(d: map<string, seq<Id>>, n: string): seq<Id> {
    if n in d then d[n] else []
  }

  function NamedAs<F>(name: F -> Option<string>, n: string): Row<F> -> bool {
    (r: Row<F>) => RowKey(name(r.fields)) == n
  }

  /** The `Index` values of the rows whose normalised name is `n`, in sheet order. */
  function RowsNamed<F>(rows: seq<Row<F>>, name: F -> Option<string>, n: string): seq<Id> {
    IdsOf(Select(rows, NamedAs(name, n)))
  }

  lemma RowsNamedMember<F>(rows: seq<Row<F>>, name: F -> Option<string>, n: string, i: Id)
    ensures i in RowsNamed(rows, name, n) <==>
            exists k :: 0 <= k < |rows| && rows[k].index == i && RowKey(name(rows[k].fields)) == n
  {
    var sel := Select(rows, NamedAs(name, n));
    SelectMembers(rows, NamedAs(name, n));
    if i in RowsNamed(rows, name, n) {
      var m :| 0 <= m < |sel| && IdsOf(sel)[m] == i;
      var k :| 0 <= k < |rows| && rows[k] == sel[m];
      assert rows[k].index == i;
    }
    if exists k :: 0 <= k < |rows| && rows[k].index == i && RowKey(name(rows[k].fields)) == n {
      var k :| 0 <= k < |rows| && rows[k].index == i && RowKey(name(rows[k].fields)) == n;
      assert NamedAs(name, n)(rows[k]);
      var m :| 0 <= m < |sel| && sel[m] == rows[k];
      assert IdsOf(sel)[m] == i;
    }
  }

  /** For each name of `keys` in turn, the rows carrying that name appended to its list. */
  function IndexDict<F>(keys: seq<string>, rows: seq<Row<F>>, name: F -> Option<string>): map<string, seq<Id>>
    decreases |keys|
  {
    if keys == [] then map[]
    else
      var d := IndexDict(keys[..|keys| - 1], rows, name);
      var n := keys[|keys| - 1];
      d[n := Listed(d, n) + RowsNamed(rows, name, n)]
  }

  /** A row is listed under a name iff the name was extended at least once and the
      row carries that name. */
  lemma {:induction false} IndexDictMember<F>(keys: seq<string>, rows: seq<Row<F>>, name: F -> Option<string>, n: string, i: Id)
    ensures i in Listed(IndexDict(keys, rows, name), n) <==> n in keys && i in RowsNamed(rows, name, n)
    decreases |keys|
  {
    if keys != [] {
      var init := keys[..|keys| - 1];
      IndexDictMember(init, rows, name, n, i);
      assert keys == init + [keys[|keys| - 1]];
    }
  }

  function FirstNames(hits: seq<Hit>): seq<string> {
    seq(|hits|, k requires 0 <= k < |hits| => hits[k].name1)
  }

  function SecondNames(hits: seq<Hit>): seq<string> {
    seq(|hits|, k requires 0 <= k < |hits| => hits[k].name2)
  }

  /** `for i in left: for j in right: {i: j}` */
  function Cross(left: seq<Id>, right: seq<Id>): seq<Pair> {
    if left == [] then []
    else seq(|right|, k requires 0 <= k < |right| => Pair(left[0], right[k])) + Cross(left[1..], right)
  }

  lemma {:induction false} CrossMember(left: seq<Id>, right: seq<Id>, p: Pair)
    ensures p in Cross(left, right) <==> p.broker in left && p.insurer in right
  {
    if left != [] {
      CrossMember(left[1..], right, p);
      assert left == [left[0]] + left[1..];
      var row := seq(|right|, k requires 0 <= k < |right| => Pair(left[0], right[k]));
      if p in row {
        var k :| 0 <= k < |row| && row[k] == p;
      }
      if p.broker == left[0] && p.insurer in right {
        var k :| 0 <= k < |right| && right[k] == p.insurer;
        assert row[k] == p;
      }
    }
  }

  /** The row pairs of each name pair, bucket by bucket, before de-duplication. */
  function Expand(ordered: seq<Hit>, d1: map<string, seq<Id>>, d2: map<string, seq<Id>>): seq<Pair> {
    if ordered == [] then []
    else Cross(Listed(d1, ordered[0].name1), Listed(d2, ordered[0].name2)) + Expand(ordered[1..], d1, d2)
  }

  /** `FromHit(p, h, ...)`: `p` is one of the row pairs name pair `h` expands to. */
  predicate FromHit(p: Pair, h: Hit, d1: map<string, seq<Id>>, d2: map<string, seq<Id>>) {
    p.broker in Listed(d1, h.name1) && p.insurer in Listed(d2, h.name2)
  }

  lemma {:induction false} ExpandMember(ordered: seq<Hit>, d1: map<string, seq<Id>>, d2: map<string, seq<Id>>, p: Pair)
    ensures p in Expand(ordered, d1, d2) <==> exists m :: 0 <= m < |ordered| && FromHit(p, ordered[m], d1, d2)
  {
    if ordered != [] {
      ExpandMember(ordered[1..], d1, d2, p);
      CrossMember(Listed(d1, ordered[0].name1), Listed(d2, ordered[0].name2), p);
      if exists m :: 0 <= m < |ordered| && FromHit(p, ordered[m], d1, d2) {
        var m :| 0 <= m < |ordered| && FromHit(p, ordered[m], d1, d2);
        if m > 0 {
          assert ordered[1..][m - 1] == ordered[m];
        }
      }
      if exists m :: 0 <= m < |ordered[1..]| && FromHit(p, ordered[1..][m], d1, d2) {
        var m :| 0 <= m < |ordered[1..]| && FromHit(p, ordered[1..][m], d1, d2);
        assert ordered[m + 1] == ordered[1..][m];
      }
    }
  }

  /** Expanding name pairs whose scores never increase, where every row pair
      scores what its name pair scored, gives row pairs whose scores never
      increase. */
  lemma {:induction false} ExpandOrder(ordered: seq<Hit>, d1: map<string, seq<Id>>, d2: map<string, seq<Id>>, score: Pair -> int)
    requires NonIncreasing(ordered, HitScore)
    requires forall m, p :: 0 <= m < |ordered| && FromHit(p, ordered[m], d1, d2) ==> score(p) == ordered[m].score
    ensures NonIncreasing(Expand(ordered, d1, d2), score)
  {
    if ordered != [] {
      var head := Cross(Listed(d1, ordered[0].name1), Listed(d2, ordered[0].name2));
      var tail := ordered[1..];
      forall a, b | 0 <= a < b < |tail| ensures HitScore(tail[a]) >= HitScore(tail[b]) {
        assert tail[a] == ordered[a + 1] && tail[b] == ordered[b + 1];
      }
      forall m, p | 0 <= m < |tail| && FromHit(p, tail[m], d1, d2) ensures score(p) == tail[m].score {
        assert tail[m] == ordered[m + 1];
      }
      ExpandOrder(tail, d1, d2, score);
      forall x | x in head ensures score(x) == ordered[0].score {
        CrossMember(Listed(d1, ordered[0].name1), Listed(d2, ordered[0].name2), x);
        assert FromHit(x, ordered[0], d1, d2);
      }
      forall x, y | x in head && y in Expand(tail, d1, d2) ensures score(x) >= score(y) {
        ExpandMember(tail, d1, d2, y);
        var m :| 0 <= m < |tail| && FromHit(y, tail[m], d1, d2);
        assert tail[m] == ordered[m + 1];
      }
      NonIncreasingAppend(head, Expand(tail, d1, d2), score);
    }
  }

  function BrokerNames(brokers: seq<Row<BrokerFields>>): seq<string> {
    NameList(brokers, BrokerName)
  }

  function InsurerNames(insurers: seq<Row<InsurerFields>>): seq<string> {
    NameList(insurers, InsurerName)
  }

  /** `similarity_dict`'s entries in the order `compute_similarity` records them. */
  function NameHits(brokers: seq<Row<BrokerFields>>, insurers: seq<Row<InsurerFields>>, ratio: (string, string) -> Score): seq<Hit> {
    Hits(BrokerNames(brokers), InsurerNames(insurers), ratio)
  }

  function BrokerDict(brokers: seq<Row<BrokerFields>>, hits: seq<Hit>): map<string, seq<Id>> {
    IndexDict(FirstNames(hits), brokers, BrokerName)
  }

  function InsurerDict(insurers: seq<Row<InsurerFields>>, hits: seq<Hit>): map<string, seq<Id>> {
    IndexDict(SecondNames(hits), insurers, InsurerName)
  }

  /** The loop building `indexPairs` from the recorded name pairs and the two
      dictionaries: each row pair once, at its first occurrence in bucket order. */
  function PairsFrom(hits: seq<Hit>, d1: map<string, seq<Id>>, d2: map<string, seq<Id>>): seq<Pair> {
    AddNew([], Expand(Descending(hits, 100), d1, d2))
  }

  lemma DescendingMember(hits: seq<Hit>, h: Hit)
    requires AboveThreshold(hits)
    ensures h in Descending(hits, 100) <==> h in hits
  {
    DescendingSpec(hits);
    assert h in Descending(hits, 100) <==> h in multiset(Descending(hits, 100));
  }

  lemma ExpandedFromHit(hits: seq<Hit>, d1: map<string, seq<Id>>, d2: map<string, seq<Id>>, p: Pair)
    requires AboveThreshold(hits)
    requires p in Expand(Descending(hits, 100), d1, d2)
    ensures exists m :: 0 <= m < |hits| && FromHit(p, hits[m], d1, d2)
  {
    var ordered := Descending(hits, 100);
    ExpandMember(ordered, d1, d2, p);
    var m :| 0 <= m < |ordered| && FromHit(p, ordered[m], d1, d2);
    DescendingMember(hits, ordered[m]);
    var i :| 0 <= i < |hits| && hits[i] == ordered[m];
  }

  lemma HitExpanded(hits: seq<Hit>, d1: map<string, seq<Id>>, d2: map<string, seq<Id>>, p: Pair, m: nat)
    requires AboveThreshold(hits)
    requires m < |hits| && FromHit(p, hits[m], d1, d2)
    ensures p in Expand(Descending(hits, 100), d1, d2)
  {
    var ordered := Descending(hits, 100);
    DescendingMember(hits, hits[m]);
    var i :| 0 <= i < |ordered| && ordered[i] == hits[m];
    ExpandMember(ordered, d1, d2, p);
  }

  /** A row pair is built iff some recorded name pair expands to it. */
  lemma PairsFromMember(hits: seq<Hit>, d1: map<string, seq<Id>>, d2: map<string, seq<Id>>, p: Pair)
    requires AboveThreshold(hits)
    ensures p in PairsFrom(hits, d1, d2) <==> exists m :: 0 <= m < |hits| && FromHit(p, hits[m], d1, d2)
  {
    AddNewSpec([], Expand(Descending(hits, 100), d1, d2));
    if p in PairsFrom(hits, d1, d2) {
      ExpandedFromHit(hits, d1, d2, p);
    }
    if exists m :: 0 <= m < |hits| && FromHit(p, hits[m], d1, d2) {
      var m :| 0 <= m < |hits| && FromHit(p, hits[m], d1, d2);
      HitExpanded(hits, d1, d2, p, m);
    }
  }

  /** The built list has no repeats and, when each row pair scores what its name
      pair scored, its scores never increase. */
  lemma PairsFromOrder(hits: seq<Hit>, d1: map<string, seq<Id>>, d2: map<string, seq<Id>>, score: Pair -> int)
    requires AboveThreshold(hits)
    requires forall m, p :: 0 <= m < |hits| && FromHit(p, hits[m], d1, d2) ==> score(p) == hits[m].score
    ensures NoDup(PairsFrom(hits, d1, d2))
    ensures NonIncreasing(PairsFrom(hits, d1, d2), score)
  {
    var ordered := Descending(hits, 100);
    DescendingSpec(hits);
    AddNewSpec([], Expand(ordered, d1, d2));
    forall m, p | 0 <= m < |ordered| && FromHit(p, ordered[m], d1, d2) ensures score(p) == ordered[m].score {
      DescendingMember(hits, ordered[m]);
      var i :| 0 <= i < |hits| && hits[i] == ordered[m];
    }
    ExpandOrder(ordered, d1, d2, score);
    assert [] + Expand(ordered, d1, d2) == Expand(ordered, d1, d2);
    AddNewKeepsOrder([], Expand(ordered, d1, d2), score);
  }

  /** `indexPairs` */
  function IndexPairs(brokers: seq<Row<BrokerFields>>, insurers: seq<Row<InsurerFields>>, ratio: (string, string) -> Score): seq<Pair> {
    var hits := NameHits(brokers, insurers, ratio);
    PairsFrom(hits, BrokerDict(brokers, hits), InsurerDict(insurers, hits))
  }

  /** The row number of the broker index. */
  function BrokerOrdinal(p: Pair): nat { p.broker.ordinal }

  /** `sorted_list`: `indexPairs` stable-sorted by broker row number. */
  function SortedList(brokers: seq<Row<BrokerFields>>, insurers: seq<Row<InsurerFields>>, ratio: (string, string) -> Score): seq<Pair> {
    SortByKey(IndexPairs(brokers, insurers, ratio), BrokerOrdinal)
  }

  /** The normalised names of the rows a pair refers to, if both rows exist. */
  function PairNames(brokers: seq<Row<BrokerFields>>, insurers: seq<Row<InsurerFields>>, p: Pair): Option<(string, string)> {
    match (Lookup(brokers, p.broker), Lookup(insurers, p.insurer))
    case (Some(b), Some(c)) => Some((RowKey(b.custName), RowKey(c.insuredCustomerName)))
    case _ => None
  }

  /** The reference definition of a proposed pair: both rows exist, both
      normalised names are listed, and the names score at least the threshold. */
  predicate NameMatch(brokers: seq<Row<BrokerFields>>, insurers: seq<Row<InsurerFields>>, ratio: (string, string) -> Score, p: Pair) {
    match PairNames(brokers, insurers, p)
    case None => false
    case Some((n1, n2)) => n1 in BrokerNames(brokers) && n2 in InsurerNames(insurers) && ratio(n1, n2) >= Threshold
  }

  /** The score of the names of the rows a pair refers to. */
  function PairScore(brokers: seq<Row<BrokerFields>>, insurers: seq<Row<InsurerFields>>, ratio: (string, string) -> Score, p: Pair): int {
    match PairNames(brokers, insurers, p)
    case None => 0
    case Some((n1, n2)) => ratio(n1, n2)
  }

  function ScoreOf(brokers: seq<Row<BrokerFields>>, insurers: seq<Row<InsurerFields>>, ratio: (string, string) -> Score): Pair -> int {
    (p: Pair) => PairScore(brokers, insurers, ratio, p)
  }

  /** In a sheet without repeated indices, the row carrying an index is the one
      `Lookup` finds. */
  lemma LookupDistinct<F>(rows: seq<Row<F>>, k: nat)
    requires DistinctIds(rows) && k < |rows|
    ensures Lookup(rows, rows[k].index) == Some(rows[k].fields)
  {
    LookupFirst(rows, k);
  }

  /** A row pair an expanded name pair produces refers to two existing rows whose
      normalised names are that name pair. */
  lemma FromHitNames(brokers: seq<Row<BrokerFields>>, insurers: seq<Row<InsurerFields>>, hits: seq<Hit>, h: Hit, p: Pair)
    requires DistinctIds(brokers) && DistinctIds(insurers)
    requires FromHit(p, h, BrokerDict(brokers, hits), InsurerDict(insurers, hits))
    ensures PairNames(brokers, insurers, p) == Some((h.name1, h.name2))
  {
    IndexDictMember(FirstNames(hits), brokers, BrokerName, h.name1, p.broker);
    IndexDictMember(SecondNames(hits), insurers, InsurerName, h.name2, p.insurer);
    RowsNamedMember(brokers, BrokerName, h.name1, p.broker);
    RowsNamedMember(insurers, InsurerName, h.name2, p.insurer);
    var a :| 0 <= a < |brokers| && brokers[a].index == p.broker && RowKey(BrokerName(brokers[a].fields)) == h.name1;
    var b :| 0 <= b < |insurers| && insurers[b].index == p.insurer && RowKey(InsurerName(insurers[b].fields)) == h.name2;
    LookupDistinct(brokers, a);
    LookupDistinct(insurers, b);
  }

  /** A row's normalised name is listed, unless the cell is missing: `names1` holds
      "nan" for it, while the row itself is keyed "". */
  lemma RowKeyListed<F>(rows: seq<Row<F>>, name: F -> Option<string>, k: nat)
    requires k < |rows| && name(rows[k].fields).Some?
    ensures RowKey(name(rows[k].fields)) in NameList(rows, name)
  {
    NameListMember(rows, name, RowKey(name(rows[k].fields)));
  }

  /** The reference definition reads a row's key through `Lookup`; under distinct
      indices that is the row's own key. */
  lemma {:induction false} LookupWitness<F>(rows: seq<Row<F>>, id: Id) returns (k: nat)
    requires Lookup(rows, id).Some?
    ensures k < |rows| && rows[k].index == id && rows[k].fields == Lookup(rows, id).value
  {
    if rows[0].index == id {
      k := 0;
    } else {
      var j := LookupWitness(rows[1..], id);
      k := j + 1;
      assert rows[1..][j] == rows[k];
    }
  }

  /** Every pair of `indexPairs` refers to rows whose listed names score at
      least the threshold. */
  lemma IndexPairsSound(brokers: seq<Row<BrokerFields>>, insurers: seq<Row<InsurerFields>>, ratio: (string, string) -> Score, p: Pair)
    requires DistinctIds(brokers) && DistinctIds(insurers)
    requires p in IndexPairs(brokers, insurers, ratio)
    ensures NameMatch(brokers, insurers, ratio, p)
  {
    var hits := NameHits(brokers, insurers, ratio);
    HitsAboveThreshold(BrokerNames(brokers), InsurerNames(insurers), ratio);
    PairsFromMember(hits, BrokerDict(brokers, hits), InsurerDict(insurers, hits), p);
    var m :| 0 <= m < |hits| && FromHit(p, hits[m], BrokerDict(brokers, hits), InsurerDict(insurers, hits));
    HitsMember(BrokerNames(brokers), InsurerNames(insurers), ratio, hits[m]);
    FromHitNames(brokers, insurers, hits, hits[m], p);
  }

  /** A row pair whose listed names score at least the threshold: those names
      form a recorded name pair, which the dictionaries expand to the row pair. */
  lemma NameMatchHit(brokers: seq<Row<BrokerFields>>, insurers: seq<Row<InsurerFields>>, ratio: (string, string) -> Score, p: Pair)
    returns (h: Hit)
    requires NameMatch(brokers, insurers, ratio, p)
    ensures h in NameHits(brokers, insurers, ratio)
    ensures FromHit(p, h, BrokerDict(brokers, NameHits(brokers, insurers, ratio)), InsurerDict(insurers, NameHits(brokers, insurers, ratio)))
  {
    var hits := NameHits(brokers, insurers, ratio);
    var a := LookupWitness(brokers, p.broker);
    var b := LookupWitness(insurers, p.insurer);
    var n1 := RowKey(brokers[a].fields.custName);
    var n2 := RowKey(insurers[b].fields.insuredCustomerName);
    h := Hit(n1, n2, ratio(n1, n2));
    HitsMember(BrokerNames(brokers), InsurerNames(insurers), ratio, h);
    var i :| 0 <= i < |hits| && hits[i] == h;
    assert FirstNames(hits)[i] == n1 && SecondNames(hits)[i] == n2;
    RowsNamedMember(brokers, BrokerName, n1, p.broker);
    RowsNamedMember(insurers, InsurerName, n2, p.insurer);
    IndexDictMember(FirstNames(hits), brokers, BrokerName, n1, p.broker);
    IndexDictMember(SecondNames(hits), insurers, InsurerName, n2, p.insurer);
  }

  /** Every row pair whose listed names score at least the threshold is in
      `indexPairs`. */
  lemma IndexPairsComplete(brokers: seq<Row<BrokerFields>>, insurers: seq<Row<InsurerFields>>, ratio: (string, string) -> Score, p: Pair)
    requires NameMatch(brokers, insurers, ratio, p)
    ensures p in IndexPairs(brokers, insurers, ratio)
  {
    var hits := NameHits(brokers, insurers, ratio);
    var h := NameMatchHit(brokers, insurers, ratio, p);
    var m :| 0 <= m < |hits| && hits[m] == h;
    HitsAboveThreshold(BrokerNames(brokers), InsurerNames(insurers), ratio);
    PairsFromMember(hits, BrokerDict(brokers, hits), InsurerDict(insurers, hits), p);
  }

  /** `indexPairs` holds exactly the row pairs whose listed names score at least
      the threshold. */
  lemma IndexPairsMember(brokers: seq<Row<BrokerFields>>, insurers: seq<Row<InsurerFields>>, ratio: (string, string) -> Score, p: Pair)
    requires DistinctIds(brokers) && DistinctIds(insurers)
    ensures p in IndexPairs(brokers, insurers, ratio) <==> NameMatch(brokers, insurers, ratio, p)
  {
    if p in IndexPairs(brokers, insurers, ratio) {
      IndexPairsSound(brokers, insurers, ratio, p);
    }
    if NameMatch(brokers, insurers, ratio, p) {
      IndexPairsComplete(brokers, insurers, ratio, p);
    }
  }

  /** A broker row with a missing customer name is selected under the key "", not
      under "nan". It is proposed with an insurer row exactly when some broker's
      raw name normalises to "" (so that "" is listed) and "" scores at least the
      threshold against the insurer row's listed name. */
  lemma MissingBrokerNameProposed(brokers: seq<Row<BrokerFields>>, insurers: seq<Row<InsurerFields>>,
                                  ratio: (string, string) -> Score, k: nat, j: nat)
    requires DistinctIds(brokers) && DistinctIds(insurers)
    requires k < |brokers| && j < |insurers| && brokers[k].fields.custName.None?
    ensures var n2 := RowKey(insurers[j].fields.insuredCustomerName);
            Pair(brokers[k].index, insurers[j].index) in IndexPairs(brokers, insurers, ratio) <==>
              "" in BrokerNames(brokers) && n2 in InsurerNames(insurers) && ratio("", n2) >= Threshold
  {
    LookupDistinct(brokers, k);
    LookupDistinct(insurers, j);
    IndexPairsMember(brokers, insurers, ratio, Pair(brokers[k].index, insurers[j].index));
  }

  /** The same for an insurer row with a missing customer name. */
  lemma MissingInsurerNameProposed(brokers: seq<Row<BrokerFields>>, insurers: seq<Row<InsurerFields>>,
                                   ratio: (string, string) -> Score, k: nat, j: nat)
    requires DistinctIds(brokers) && DistinctIds(insurers)
    requires k < |brokers| && j < |insurers| && insurers[j].fields.insuredCustomerName.None?
    ensures var n1 := RowKey(brokers[k].fields.custName);
            Pair(brokers[k].index, insurers[j].index) in IndexPairs(brokers, insurers, ratio) <==>
              n1 in BrokerNames(brokers) && "" in InsurerNames(insurers) && ratio(n1, "") >= Threshold
  {
    LookupDistinct(brokers, k);
    LookupDistinct(insurers, j);
    IndexPairsMember(brokers, insurers, ratio, Pair(brokers[k].index, insurers[j].index));
  }

  /** `indexPairs` never holds a pair twice, and pairs of higher-scoring names
      come before pairs of lower-scoring names. */
  lemma IndexPairsOrder(brokers: seq<Row<BrokerFields>>, insurers: seq<Row<InsurerFields>>, ratio: (string, string) -> Score)
    requires DistinctIds(brokers) && DistinctIds(insurers)
    ensures NoDup(IndexPairs(brokers, insurers, ratio))
    ensures NonIncreasing(IndexPairs(brokers, insurers, ratio), ScoreOf(brokers, insurers, ratio))
  {
    var hits := NameHits(brokers, insurers, ratio);
    var d1 := BrokerDict(brokers, hits);
    var d2 := InsurerDict(insurers, hits);
    var score := ScoreOf(brokers, insurers, ratio);
    HitsAboveThreshold(BrokerNames(brokers), InsurerNames(insurers), ratio);
    forall m, p | 0 <= m < |hits| && FromHit(p, hits[m], d1, d2) ensures score(p) == hits[m].score {
      HitsMember(BrokerNames(brokers), InsurerNames(insurers), ratio, hits[m]);
      FromHitNames(brokers, insurers, hits, hits[m], p);
    }
    PairsFromOrder(hits, d1, d2, score);
  }

  /** `sorted_list` rearranges `indexPairs`, so it holds the same pairs once each;
      it is ascending by broker row number and stable, so the pairs of one broker
      row stay in descending-score order. */
  lemma SortedListSpec(brokers: seq<Row<BrokerFields>>, insurers: seq<Row<InsurerFields>>, ratio: (string, string) -> Score)
    requires DistinctIds(brokers) && DistinctIds(insurers)
    ensures multiset(SortedList(brokers, insurers, ratio)) == multiset(IndexPairs(brokers, insurers, ratio))
    ensures NoDup(SortedList(brokers, insurers, ratio))
    ensures SortedByKey(SortedList(brokers, insurers, ratio), BrokerOrdinal)
    ensures forall k :: WithKey(SortedList(brokers, insurers, ratio), BrokerOrdinal, k)
                     == WithKey(IndexPairs(brokers, insurers, ratio), BrokerOrdinal, k)
    ensures forall k :: NonIncreasing(WithKey(SortedList(brokers, insurers, ratio), BrokerOrdinal, k), ScoreOf(brokers, insurers, ratio))
  {
    var pairs := IndexPairs(brokers, insurers, ratio);
    SortByKeySpec(pairs, BrokerOrdinal);
    IndexPairsOrder(brokers, insurers, ratio);
    NoDupPermutation(pairs, SortedList(brokers, insurers, ratio));
    forall k ensures NonIncreasing(WithKey(SortedList(brokers, insurers, ratio), BrokerOrdinal, k), ScoreOf(brokers, insurers, ratio)) {
      WithKeyKeepsOrder(pairs, BrokerOrdinal, k, ScoreOf(brokers, insurers, ratio));
    }
  }

  /** Every pair of `sorted_list` refers to rows that exist, on the sheets the
      names came from; the `.values[0]` lookups downstream therefore succeed. */
  lemma SortedListMember(brokers: seq<Row<BrokerFields>>, insurers: seq<Row<InsurerFields>>, ratio: (string, string) -> Score, p: Pair)
    requires DistinctIds(brokers) && DistinctIds(insurers)
    ensures p in SortedList(brokers, insurers, ratio) <==> NameMatch(brokers, insurers, ratio, p)
    ensures p in SortedList(brokers, insurers, ratio) ==> p.broker in IdSet(brokers) && p.insurer in IdSet(insurers)
  {
    SortByKeySpec(IndexPairs(brokers, insurers, ratio), BrokerOrdinal);
    IndexPairsMember(brokers, insurers, ratio, p);
    assert p in SortedList(brokers, insurers, ratio) <==> p in multiset(IndexPairs(brokers, insurers, ratio));
  }

  /** Whatever the sheets, every pair of `sorted_list` names a row of each: the
      indices come from the rows carrying the listed names. */
  lemma SortedListResolvable(brokers: seq<Row<BrokerFields>>, insurers: seq<Row<InsurerFields>>, ratio: (string, string) -> Score)
    ensures forall p :: p in SortedList(brokers, insurers, ratio) ==> p.broker in IdSet(brokers) && p.insurer in IdSet(insurers)
  {
    var hits := NameHits(brokers, insurers, ratio);
    var d1 := BrokerDict(brokers, hits);
    var d2 := InsurerDict(insurers, hits);
    SortByKeySpec(IndexPairs(brokers, insurers, ratio), BrokerOrdinal);
    HitsAboveThreshold(BrokerNames(brokers), InsurerNames(insurers), ratio);
    forall p | p in SortedList(brokers, insurers, ratio)
      ensures p.broker in IdSet(brokers) && p.insurer in IdSet(insurers)
    {
      assert p in multiset(IndexPairs(brokers, insurers, ratio));
      PairsFromMember(hits, d1, d2, p);
      var m :| 0 <= m < |hits| && FromHit(p, hits[m], d1, d2);
      IndexDictMember(FirstNames(hits), brokers, BrokerName, hits[m].name1, p.broker);
      IndexDictMember(SecondNames(hits), insurers, InsurerName, hits[m].name2, p.insurer);
      RowsNamedMember(brokers, BrokerName, hits[m].name1, p.broker);
      RowsNamedMember(insurers, InsurerName, hits[m].name2, p.insurer);
    }
  }
}
