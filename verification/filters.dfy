/** The attribute checks run over the candidate pairs: the product-label
    comparison of Customer+Policy+Premium.py, the 2% premium tolerance of both fuzzy
    passes and the start/end date comparison of Customer+Premium+Tenure.py. Each
    keeps the pairs that pass, in their order. */
module AttributeFilters {
  import opened Wrappers
  import opened Ids
  import opened Records
  import opened Seqs
  import opened NameNormalizer
  import opened NameCandidates

  /** The range of `SequenceMatcher.ratio`, which the model takes as a parameter. */
  type Fraction = r: real | 0.0 <= r <= 1.0

  /** The threshold `check_similarity_for_sorted_list` is called with. */
  const LabelThreshold: real := 0.75

  // ---------------------------------------------------------------------------
  // Keeping the pairs that pass a check

  /** The pairs satisfying `ok`, in order: the shape of every check loop. */
  function Keep(pairs: seq<Pair>, ok: Pair -> bool): seq<Pair> {
    if pairs == [] then []
    else (if ok(pairs[0]) then [pairs[0]] else []) + Keep(pairs[1..], ok)
  }

  /** `a` is `b` with some elements left out. */
  predicate SubsequenceOf<T(==)>(a: seq<T>, b: seq<T>)
    decreases |b|
  {
    if a == [] then true
    else if b == [] then false
    else (a[0] == b[0] && SubsequenceOf(a[1..], b[1..])) || SubsequenceOf(a, b[1..])
  }

  lemma {:induction false} KeepMember(pairs: seq<Pair>, ok: Pair -> bool, p: Pair)
    ensures p in Keep(pairs, ok) <==> p in pairs && ok(p)
  {
    if pairs != [] {
      KeepMember(pairs[1..], ok, p);
      assert pairs == [pairs[0]] + pairs[1..];
    }
  }

  lemma {:induction false} KeepSubsequence(pairs: seq<Pair>, ok: Pair -> bool)
    ensures SubsequenceOf(Keep(pairs, ok), pairs)
  {
    if pairs != [] {
      var rest := Keep(pairs[1..], ok);
      KeepSubsequence(pairs[1..], ok);
      if ok(pairs[0]) {
        assert Keep(pairs, ok) == [pairs[0]] + rest;
        assert ([pairs[0]] + rest)[1..] == rest;
      } else {
        assert Keep(pairs, ok) == rest;
        if rest != [] {
          assert SubsequenceOf(rest, pairs[1..]);
        }
      }
    }
  }

  function Both(ok1: Pair -> bool, ok2: Pair -> bool): Pair -> bool {
    p => ok1(p) && ok2(p)
  }

  /** Two checks one after the other keep what one check of both keeps. */
  lemma {:induction false} KeepTwice(pairs: seq<Pair>, ok1: Pair -> bool, ok2: Pair -> bool)
    ensures Keep(Keep(pairs, ok1), ok2) == Keep(pairs, Both(ok1, ok2))
  {
    if pairs != [] {
      var x := pairs[0];
      var k1 := Keep(pairs, ok1);
      KeepTwice(pairs[1..], ok1, ok2);
      assert Both(ok1, ok2)(x) == (ok1(x) && ok2(x));
      assert Keep(pairs, Both(ok1, ok2)) == (if ok1(x) && ok2(x) then [x] else []) + Keep(pairs[1..], Both(ok1, ok2));
      if ok1(x) {
        assert k1 == [x] + Keep(pairs[1..], ok1);
        assert k1[0] == x && k1[1..] == Keep(pairs[1..], ok1);
        assert Keep(k1, ok2) == (if ok2(x) then [x] else []) + Keep(k1[1..], ok2);
      } else {
        assert k1 == Keep(pairs[1..], ok1);
      }
    }
  }

  lemma {:induction false} KeepNoDup(pairs: seq<Pair>, ok: Pair -> bool)
    requires NoDup(pairs)
    ensures NoDup(Keep(pairs, ok))
  {
    if pairs != [] {
      NoDupCons(pairs);
      KeepNoDup(pairs[1..], ok);
      KeepMember(pairs[1..], ok, pairs[0]);
      if ok(pairs[0]) {
        NoDupAppend([pairs[0]], Keep(pairs[1..], ok));
      }
    }
  }

  lemma {:induction false} KeepSorted(pairs: seq<Pair>, ok: Pair -> bool)
    requires SortedByKey(pairs, BrokerOrdinal)
    ensures SortedByKey(Keep(pairs, ok), BrokerOrdinal)
  {
    if pairs != [] {
      var rest := Keep(pairs[1..], ok);
      forall a, b | 0 <= a < b < |pairs[1..]| ensures BrokerOrdinal(pairs[1..][a]) <= BrokerOrdinal(pairs[1..][b]) {
        assert pairs[1..][a] == pairs[a + 1] && pairs[1..][b] == pairs[b + 1];
      }
      KeepSorted(pairs[1..], ok);
      if ok(pairs[0]) {
        forall b | 0 < b < |[pairs[0]] + rest| ensures BrokerOrdinal(pairs[0]) <= BrokerOrdinal(([pairs[0]] + rest)[b]) {
          var x := rest[b - 1];
          KeepMember(pairs[1..], ok, x);
          var j :| 0 <= j < |pairs[1..]| && pairs[1..][j] == x;
          assert pairs[j + 1] == x;
        }
      }
    }
  }

  /** A check keeps exactly the pairs that pass, in their order: the result leaves
      pairs out of its input and reorders nothing, so it stays free of repeats and
      sorted by broker row. */
  lemma KeepSpec(pairs: seq<Pair>, ok: Pair -> bool)
    ensures forall p :: p in Keep(pairs, ok) <==> p in pairs && ok(p)
    ensures SubsequenceOf(Keep(pairs, ok), pairs)
    ensures NoDup(pairs) ==> NoDup(Keep(pairs, ok))
    ensures SortedByKey(pairs, BrokerOrdinal) ==> SortedByKey(Keep(pairs, ok), BrokerOrdinal)
  {
    forall p ensures p in Keep(pairs, ok) <==> p in pairs && ok(p) {
      KeepMember(pairs, ok, p);
    }
    KeepSubsequence(pairs, ok);
    if NoDup(pairs) {
      KeepNoDup(pairs, ok);
    }
    if SortedByKey(pairs, BrokerOrdinal) {
      KeepSorted(pairs, ok);
    }
  }

  // ---------------------------------------------------------------------------
  // Product labels (Customer+Policy+Premium.py)

  function StripLeft(s: string): (r: string)
    ensures r == [] || !IsSpace(r[0])
    ensures |r| <= |s| && r == s[|s| - |r|..]
  {
    if s != [] && IsSpace(s[0]) then StripLeft(s[1..]) else s
  }

  function StripRight(s: string): (r: string)
    ensures r == [] || !IsSpace(r[|r| - 1])
    ensures |r| <= |s| && r == s[..|r|]
  {
    if s != [] && IsSpace(s[|s| - 1]) then StripRight(s[..|s| - 1]) else s
  }

  /** Leading and trailing whitespace removed. */
  function Strip(s: string): string {
    StripRight(StripLeft(s))
  }

  /** `preprocess_text`: a missing label is "", any other is lower-cased and
      stripped. */
  function PreprocessText(text: Option<string>): string {
    match text
    case None => ""
    case Some(s) => Strip(LowerString(s))
  }

  /** `acronym`: the upper-case letters of a phrase, in order. */
  function Acronym(word: string): (r: string)
    ensures forall c :: c in r ==> c in word && IsUpper(c)
  {
    if word == [] then [] else (if IsUpper(word[0]) then [word[0]] else []) + Acronym(word[1..])
  }

  /** A character `[^A-Za-z0-9\s]` does not match. */
  predicate Cleanable(c: char) {
    IsUpper(c) || IsLower(c) || IsDigit(c) || IsSpace(c)
  }

  /** The input with every other character deleted: exactly the letters, digits
      and whitespace of the input are left. */
  function KeepAlnumSpace(s: string): (r: string)
    ensures forall c :: c in r ==> c in s && Cleanable(c)
    ensures forall c :: c in s && Cleanable(c) ==> c in r
  {
    if s == [] then []
    else
      assert forall c :: c in s ==> c == s[0] || c in s[1..];
      (if Cleanable(s[0]) then [s[0]] else []) + KeepAlnumSpace(s[1..])
  }

  /** Text made only of letters, digits and whitespace is already clean. */
  lemma {:induction false} KeepAlnumSpaceKeeps(s: string)
    requires forall c :: c in s ==> Cleanable(c)
    ensures KeepAlnumSpace(s) == s
  {
    if s != [] {
      assert s == [s[0]] + s[1..];
      KeepAlnumSpaceKeeps(s[1..]);
    }
  }

  /** Cleaning works character by character, so it splits over a concatenation. */
  lemma {:induction false} KeepAlnumSpaceAppend(a: string, b: string)
    ensures KeepAlnumSpace(a + b) == KeepAlnumSpace(a) + KeepAlnumSpace(b)
  {
    if a != [] {
      assert (a + b)[0] == a[0] && (a + b)[1..] == a[1..] + b;
      KeepAlnumSpaceAppend(a[1..], b);
    } else {
      assert a + b == b;
    }
  }

  /** `clean_text`: drop everything but ASCII letters, digits and whitespace, then
      lower-case. */
  function CleanText(text: string): string {
    LowerString(KeepAlnumSpace(text))
  }

  /** `find_similar_elements`: first every pair with the same non-empty acronym,
      then every pair whose cleaned texts are similar enough. */
  function FindSimilarElements(list1: seq<string>, list2: seq<string>, ratio: (string, string) -> Fraction, threshold: real): seq<(string, string)> {
    AcronymMatches(list1, list2) + SimilarTexts(list1, list2, ratio, threshold)
  }

  function AcronymMatches(list1: seq<string>, list2: seq<string>): seq<(string, string)> {
    if list1 == [] then []
    else AcronymMatchesFor(list1[0], list2) + AcronymMatches(list1[1..], list2)
  }

  function AcronymMatchesFor(item1: string, list2: seq<string>): seq<(string, string)> {
    if list2 == [] then []
    else (if Acronym(item1) == Acronym(list2[0]) && Acronym(item1) != [] then [(item1, list2[0])] else [])
         + AcronymMatchesFor(item1, list2[1..])
  }

  function SimilarTexts(list1: seq<string>, list2: seq<string>, ratio: (string, string) -> Fraction, threshold: real): seq<(string, string)> {
    if list1 == [] then []
    else SimilarTextsFor(list1[0], list2, ratio, threshold) + SimilarTexts(list1[1..], list2, ratio, threshold)
  }

  function SimilarTextsFor(item1: string, list2: seq<string>, ratio: (string, string) -> Fraction, threshold: real): seq<(string, string)> {
    if list2 == [] then []
    else (if ratio(CleanText(item1), CleanText(list2[0])) >= threshold then [(item1, list2[0])] else [])
         + SimilarTextsFor(item1, list2[1..], ratio, threshold)
  }

  /** No character of `s` is an upper-case letter. */
  predicate NoUpper(s: string) {
    forall k :: 0 <= k < |s| ==> !IsUpper(s[k])
  }

  lemma NoUpperSlice(s: string, i: nat, j: nat)
    requires NoUpper(s) && i <= j <= |s|
    ensures NoUpper(s[i..j])
  {
    forall k | 0 <= k < j - i ensures !IsUpper(s[i..j][k]) {
      assert s[i..j][k] == s[i + k];
    }
  }

  /** Lower-casing leaves no upper-case letter, and stripping keeps a suffix of a
      prefix: a preprocessed label has none. */
  lemma PreprocessTextLower(text: Option<string>)
    ensures forall c :: c in PreprocessText(text) ==> !IsUpper(c)
  {
    if text.Some? {
      var l := LowerString(text.value);
      assert NoUpper(l);
      var s := StripLeft(l);
      assert s == l[|l| - |s|..|l|];
      NoUpperSlice(l, |l| - |s|, |l|);
      var r := StripRight(s);
      assert r == s[0..|r|];
      NoUpperSlice(s, 0, |r|);
      assert r == PreprocessText(text);
      forall c | c in r ensures !IsUpper(c) {
        var j :| 0 <= j < |r| && r[j] == c;
      }
    }
  }

  /** A phrase without upper-case letters has an empty acronym. */
  lemma {:induction false} AcronymOfLowerCase(word: string)
    requires forall c :: c in word ==> !IsUpper(c)
    ensures Acronym(word) == []
  {
    if word != [] {
      assert word[0] in word;
      assert forall c :: c in word[1..] ==> c in word;
      AcronymOfLowerCase(word[1..]);
    }
  }

  /** The acronym of a preprocessed label is empty. */
  lemma AcronymOfPreprocessed(text: Option<string>)
    ensures Acronym(PreprocessText(text)) == []
  {
    PreprocessTextLower(text);
    AcronymOfLowerCase(PreprocessText(text));
  }

  /** Between two one-element lists, `find_similar_elements` reports the pair at
      most twice: once for a shared non-empty acronym, once for similar texts. */
  lemma FindSimilarSingletons(x: string, y: string, ratio: (string, string) -> Fraction, threshold: real)
    ensures FindSimilarElements([x], [y], ratio, threshold)
         == (if Acronym(x) == Acronym(y) && Acronym(x) != [] then [(x, y)] else [])
          + (if ratio(CleanText(x), CleanText(y)) >= threshold then [(x, y)] else [])
  {
    var a := [x];
    var b := [y];
    assert a[1..] == [] && b[1..] == [];
    assert AcronymMatchesFor(x, b[1..]) == [] && AcronymMatches(a[1..], b) == [];
    assert SimilarTextsFor(x, b[1..], ratio, threshold) == [] && SimilarTexts(a[1..], b, ratio, threshold) == [];
    assert AcronymMatches(a, b) == AcronymMatchesFor(x, b) + [];
    assert SimilarTexts(a, b, ratio, threshold) == SimilarTextsFor(x, b, ratio, threshold) + [];
  }

  /** On two preprocessed labels the acronym branch never fires: the labels are
      similar exactly when their cleaned texts reach the threshold. */
  lemma LabelsSimilarIff(p1: Option<string>, p2: Option<string>, ratio: (string, string) -> Fraction)
    ensures FindSimilarElements([PreprocessText(p1)], [PreprocessText(p2)], ratio, LabelThreshold) != []
        <==> ratio(CleanText(PreprocessText(p1)), CleanText(PreprocessText(p2))) >= LabelThreshold
  {
    var x := PreprocessText(p1);
    var y := PreprocessText(p2);
    AcronymOfPreprocessed(p1);
    FindSimilarSingletons(x, y, ratio, LabelThreshold);
  }

  /** Does the pair's policy type resemble the insurer's product name? */
  predicate LabelsAgree(brokers: seq<Row<BrokerFields>>, insurers: seq<Row<InsurerFields>>, ratio: (string, string) -> Fraction, p: Pair) {
    match (Lookup(brokers, p.broker), Lookup(insurers, p.insurer))
    case (Some(b), Some(c)) =>
      FindSimilarElements([PreprocessText(b.policyType)], [PreprocessText(c.productName)], ratio, LabelThreshold) != []
    case _ => false
  }

  function LabelCheck(brokers: seq<Row<BrokerFields>>, insurers: seq<Row<InsurerFields>>, ratio: (string, string) -> Fraction): Pair -> bool {
    p => LabelsAgree(brokers, insurers, ratio, p)
  }

  /** Every pair refers to rows of the two sheets: the `.values[0]` lookups
      succeed. */
  predicate Resolvable(brokers: seq<Row<BrokerFields>>, insurers: seq<Row<InsurerFields>>, pairs: seq<Pair>) {
    forall p :: p in pairs ==> p.broker in IdSet(brokers) && p.insurer in IdSet(insurers)
  }

  /** `check_similarity_for_sorted_list` on the policy type and product name. */
  function CheckLabels(brokers: seq<Row<BrokerFields>>, insurers: seq<Row<InsurerFields>>, pairs: seq<Pair>, ratio: (string, string) -> Fraction): (r: seq<Pair>)
    requires Resolvable(brokers, insurers, pairs)
  {
    Keep(pairs, LabelCheck(brokers, insurers, ratio))
  }

  /** A pair survives the label check iff the cleaned, lower-cased labels of its
      two rows reach a ratio of 0.75. */
  lemma CheckLabelsMember(brokers: seq<Row<BrokerFields>>, insurers: seq<Row<InsurerFields>>, pairs: seq<Pair>, ratio: (string, string) -> Fraction, p: Pair)
    requires Resolvable(brokers, insurers, pairs)
    ensures p in CheckLabels(brokers, insurers, pairs, ratio) <==>
            p in pairs &&
            ratio(CleanText(PreprocessText(Lookup(brokers, p.broker).value.policyType)),
                  CleanText(PreprocessText(Lookup(insurers, p.insurer).value.productName))) >= LabelThreshold
  {
    KeepMember(pairs, LabelCheck(brokers, insurers, ratio), p);
    if p in pairs {
      assert LabelCheck(brokers, insurers, ratio)(p) == LabelsAgree(brokers, insurers, ratio, p);
      LabelsSimilarIff(Lookup(brokers, p.broker).value.policyType, Lookup(insurers, p.insurer).value.productName, ratio);
    }
  }

  // ---------------------------------------------------------------------------
  // Premiums (both fuzzy passes)

  function Abs(x: real): real { if x < 0.0 then -x else x }

  /** `is_within_2_percent(val1, val2)`, on exact reals. */
  predicate IsWithin2Percent(v1: real, v2: real) {
    Abs(v1 - v2) <= 0.02 * v1
  }

  /** The tolerance is two per cent of the FIRST value: `v2` must lie in
      `[0.98 v1, 1.02 v1]`, an interval that is empty when `v1` is negative. */
  lemma IsWithin2PercentIff(v1: real, v2: real)
    ensures IsWithin2Percent(v1, v2) <==> 0.98 * v1 <= v2 <= 1.02 * v1
    ensures v1 < 0.0 ==> !IsWithin2Percent(v1, v2)
  {
  }

  /** The check is not symmetric: 98 is within 2% of 100, but 100 is not within
      2% of 98; 102 and 100 are each within 2% of the other. */
  lemma IsWithin2PercentExamples()
    ensures IsWithin2Percent(100.0, 98.0)
    ensures !IsWithin2Percent(98.0, 100.0)
    ensures IsWithin2Percent(100.0, 102.0)
    ensures IsWithin2Percent(102.0, 100.0)
    ensures !IsWithin2Percent(100.0, 103.0)
  {
  }

  /** A missing premium is NaN, and every comparison with NaN is false. */
  predicate PremiumsClose(v1: Option<real>, v2: Option<real>) {
    v1.Some? && v2.Some? && IsWithin2Percent(v1.value, v2.value)
  }

  predicate PremiumsAgree(brokers: seq<Row<BrokerFields>>, insurers: seq<Row<InsurerFields>>, p: Pair) {
    match (Lookup(brokers, p.broker), Lookup(insurers, p.insurer))
    case (Some(b), Some(c)) => PremiumsClose(b.odPremium, c.premium)
    case _ => false
  }

  function PremiumCheck(brokers: seq<Row<BrokerFields>>, insurers: seq<Row<InsurerFields>>): Pair -> bool {
    p => PremiumsAgree(brokers, insurers, p)
  }

  /** `check_premium_similarity` on `OD Premium` and `APPLICABLE_PREMIUM_AMOUNT`. */
  function CheckPremiums(brokers: seq<Row<BrokerFields>>, insurers: seq<Row<InsurerFields>>, pairs: seq<Pair>): seq<Pair>
    requires Resolvable(brokers, insurers, pairs)
  {
    Keep(pairs, PremiumCheck(brokers, insurers))
  }

  /** A pair survives iff both premiums are present and the insurer's lies within
      2% of the broker's. */
  lemma CheckPremiumsMember(brokers: seq<Row<BrokerFields>>, insurers: seq<Row<InsurerFields>>, pairs: seq<Pair>, p: Pair)
    requires Resolvable(brokers, insurers, pairs)
    ensures p in CheckPremiums(brokers, insurers, pairs) <==>
            p in pairs &&
            var v1 := Lookup(brokers, p.broker).value.odPremium;
            var v2 := Lookup(insurers, p.insurer).value.premium;
            v1.Some? && v2.Some? && 0.98 * v1.value <= v2.value <= 1.02 * v1.value
  {
    KeepSpec(pairs, PremiumCheck(brokers, insurers));
    if p in pairs {
      var v1 := Lookup(brokers, p.broker).value.odPremium;
      var v2 := Lookup(insurers, p.insurer).value.premium;
      if v1.Some? && v2.Some? {
        IsWithin2PercentIff(v1.value, v2.value);
      }
    }
  }

  // ---------------------------------------------------------------------------
  // Tenure (Customer+Premium+Tenure.py)

  /** Dates compare by equality; a missing date (NaT) equals nothing, itself
      included. */
  predicate SameDate(d1: Option<string>, d2: Option<string>) {
    d1.Some? && d2.Some? && d1.value == d2.value
  }

  predicate TenuresAgree(brokers: seq<Row<BrokerFields>>, insurers: seq<Row<InsurerFields>>, p: Pair) {
    match (Lookup(brokers, p.broker), Lookup(insurers, p.insurer))
    case (Some(b), Some(c)) => SameDate(b.startDate, c.startDate) && SameDate(b.expDate, c.endDate)
    case _ => false
  }

  /** `check_tenure_similarity`: the broker and insurer indices of the pairs whose
      start dates and end dates both agree, as two lists. */
  function CheckTenure(brokers: seq<Row<BrokerFields>>, insurers: seq<Row<InsurerFields>>, pairs: seq<Pair>): (seq<Id>, seq<Id>)
    requires Resolvable(brokers, insurers, pairs)
  {
    if pairs == [] then ([], [])
    else
      var rest := CheckTenure(brokers, insurers, pairs[1..]);
      if TenuresAgree(brokers, insurers, pairs[0]) then ([pairs[0].broker] + rest.0, [pairs[0].insurer] + rest.1)
      else rest
  }

  function TenureCheck(brokers: seq<Row<BrokerFields>>, insurers: seq<Row<InsurerFields>>): Pair -> bool {
    p => TenuresAgree(brokers, insurers, p)
  }

  /** The two index lists paired position by position, stopping at the shorter. */
  function Zip(index1: seq<Id>, index2: seq<Id>): seq<Pair> {
    var n := if |index1| <= |index2| then |index1| else |index2|;
    seq(n, k requires 0 <= k < n => Pair(index1[k], index2[k]))
  }

  /** The two lists have equal length, and zipped back together they are the
      pairs whose start and end dates agree, in their order. */
  lemma {:induction false} CheckTenureSpec(brokers: seq<Row<BrokerFields>>, insurers: seq<Row<InsurerFields>>, pairs: seq<Pair>)
    requires Resolvable(brokers, insurers, pairs)
    ensures |CheckTenure(brokers, insurers, pairs).0| == |CheckTenure(brokers, insurers, pairs).1|
    ensures Zip(CheckTenure(brokers, insurers, pairs).0, CheckTenure(brokers, insurers, pairs).1)
            == Keep(pairs, TenureCheck(brokers, insurers))
  {
    if pairs != [] {
      CheckTenureSpec(brokers, insurers, pairs[1..]);
    }
  }
}
