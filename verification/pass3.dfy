/** The third pass (Customer+Premium+Tenure.py) on the rows the second pass left
    unmatched: pair rows by customer name as before, keep the pairs whose
    premiums agree and whose start and end dates both agree, annotate the rows of
    the surviving pairs and move them to the matched sheets. There is no product
    check in this pass. */
module PremiumTenurePass {
  import opened Wrappers
  import opened Ids
  import opened Records
  import opened Seqs
  import opened NameCandidates
  import opened AttributeFilters
  import opened LedgerState
  import opened MatchIndex

  /** `premium_similarity_list`, checked directly on `sorted_list`. */
  function PremiumSurvivors(data1: BrokerRows, data2: InsurerRows, ratio: (string, string) -> Score): seq<Pair> {
    var sorted := SortedList(data1, data2, ratio);
    SortedListResolvable(data1, data2, ratio);
    FilteredResolvable(data1, data2, sorted);
    CheckPremiums(Filtered1(data1, sorted), Filtered2(data2, sorted), sorted)
  }

  /** The two index lists the tenure check returns. */
  function TenureLists(data1: BrokerRows, data2: InsurerRows, ratio: (string, string) -> Score): (seq<Id>, seq<Id>) {
    var sorted := SortedList(data1, data2, ratio);
    var f1 := Filtered1(data1, sorted);
    var f2 := Filtered2(data2, sorted);
    SortedListResolvable(data1, data2, ratio);
    FilteredResolvable(data1, data2, sorted);
    KeepSpec(sorted, PremiumCheck(f1, f2));
    CheckTenure(f1, f2, PremiumSurvivors(data1, data2, ratio))
  }

  /** The two tenure lists zipped back into pairs: the pass's survivors. */
  function Survivors(data1: BrokerRows, data2: InsurerRows, ratio: (string, string) -> Score): seq<Pair> {
    var t := TenureLists(data1, data2, ratio);
    Zip(t.0, t.1)
  }

  /** Both premiums are present and the insurer's lies within 2% of the broker's. */
  predicate PremiumsMatch(b: BrokerFields, c: InsurerFields) {
    b.odPremium.Some? && c.premium.Some? && 0.98 * b.odPremium.value <= c.premium.value <= 1.02 * b.odPremium.value
  }

  /** Both start dates and both end dates are present and equal. */
  predicate DatesMatch(b: BrokerFields, c: InsurerFields) {
    && b.startDate.Some? && c.startDate.Some? && b.startDate.value == c.startDate.value
    && b.expDate.Some? && c.endDate.Some? && b.expDate.value == c.endDate.value
  }

  /** The reference for what the pass accepts, read off the unmatched sheets: the
      customer names score at least the threshold, the premiums match and the
      dates match. */
  predicate Accepts(data1: BrokerRows, data2: InsurerRows, ratio: (string, string) -> Score, p: Pair) {
    && NameMatch(data1, data2, ratio, p)
    && PremiumsMatch(Lookup(data1, p.broker).value, Lookup(data2, p.insurer).value)
    && DatesMatch(Lookup(data1, p.broker).value, Lookup(data2, p.insurer).value)
  }

  /** The two tenure lists have equal length and zip back into the premium
      survivors whose dates agree, in order. */
  lemma TenureListsSpec(data1: BrokerRows, data2: InsurerRows, ratio: (string, string) -> Score)
    ensures var t := TenureLists(data1, data2, ratio);
            var sorted := SortedList(data1, data2, ratio);
            && |t.0| == |t.1|
            && Survivors(data1, data2, ratio)
               == Keep(PremiumSurvivors(data1, data2, ratio), TenureCheck(Filtered1(data1, sorted), Filtered2(data2, sorted)))
  {
    var sorted := SortedList(data1, data2, ratio);
    var f1 := Filtered1(data1, sorted);
    var f2 := Filtered2(data2, sorted);
    SortedListResolvable(data1, data2, ratio);
    FilteredResolvable(data1, data2, sorted);
    KeepSpec(sorted, PremiumCheck(f1, f2));
    CheckTenureSpec(f1, f2, PremiumSurvivors(data1, data2, ratio));
  }

  /** A pair survives the premium check iff its names and premiums match. */
  lemma PremiumSurvivorsMember(data1: BrokerRows, data2: InsurerRows, ratio: (string, string) -> Score, p: Pair)
    requires DistinctIds(data1) && DistinctIds(data2)
    ensures p in PremiumSurvivors(data1, data2, ratio)
        <==> NameMatch(data1, data2, ratio, p) && PremiumsMatch(Lookup(data1, p.broker).value, Lookup(data2, p.insurer).value)
    ensures p in PremiumSurvivors(data1, data2, ratio) ==> p in SortedList(data1, data2, ratio)
  {
    var sorted := SortedList(data1, data2, ratio);
    SortedListResolvable(data1, data2, ratio);
    FilteredResolvable(data1, data2, sorted);
    SortedListMember(data1, data2, ratio, p);
    CheckPremiumsMember(Filtered1(data1, sorted), Filtered2(data2, sorted), sorted, p);
    if p in sorted {
      FilteredLookup(data1, data2, sorted, p);
    }
  }

  /** On a candidate, the tenure check reads the dates of the unmatched rows. */
  lemma TenureCheckAt(data1: BrokerRows, data2: InsurerRows, ratio: (string, string) -> Score, p: Pair)
    requires DistinctIds(data1) && DistinctIds(data2) && p in SortedList(data1, data2, ratio)
    ensures Lookup(data1, p.broker).Some? && Lookup(data2, p.insurer).Some?
    ensures var sorted := SortedList(data1, data2, ratio);
            (TenureCheck(Filtered1(data1, sorted), Filtered2(data2, sorted))(p)
             <==> DatesMatch(Lookup(data1, p.broker).value, Lookup(data2, p.insurer).value))
  {
    var sorted := SortedList(data1, data2, ratio);
    SortedListResolvable(data1, data2, ratio);
    FilteredLookup(data1, data2, sorted, p);
  }

  /** A pair survives the premium and tenure checks iff it meets the reference. */
  lemma SurvivorsMember(data1: BrokerRows, data2: InsurerRows, ratio: (string, string) -> Score, p: Pair)
    requires DistinctIds(data1) && DistinctIds(data2)
    ensures p in Survivors(data1, data2, ratio) <==> Accepts(data1, data2, ratio, p)
  {
    var sorted := SortedList(data1, data2, ratio);
    var premium := PremiumSurvivors(data1, data2, ratio);
    var tenure := TenureCheck(Filtered1(data1, sorted), Filtered2(data2, sorted));
    TenureListsSpec(data1, data2, ratio);
    KeepMember(premium, tenure, p);
    PremiumSurvivorsMember(data1, data2, ratio, p);
    if p in premium {
      TenureCheckAt(data1, data2, ratio, p);
    }
  }

  /** The survivors keep the candidate order: no pair twice, ascending by broker
      row, and every survivor names a row of each unmatched sheet. */
  lemma SurvivorsOrder(data1: BrokerRows, data2: InsurerRows, ratio: (string, string) -> Score)
    requires DistinctIds(data1) && DistinctIds(data2)
    ensures SubsequenceOf(Survivors(data1, data2, ratio), SortedList(data1, data2, ratio))
    ensures NoDup(Survivors(data1, data2, ratio))
    ensures SortedByKey(Survivors(data1, data2, ratio), BrokerOrdinal)
    ensures Resolvable(data1, data2, Survivors(data1, data2, ratio))
  {
    var sorted := SortedList(data1, data2, ratio);
    var f1 := Filtered1(data1, sorted);
    var f2 := Filtered2(data2, sorted);
    var premium := PremiumSurvivors(data1, data2, ratio);
    SortedListSpec(data1, data2, ratio);
    SortedListResolvable(data1, data2, ratio);
    FilteredResolvable(data1, data2, sorted);
    TenureListsSpec(data1, data2, ratio);
    KeepSpec(sorted, PremiumCheck(f1, f2));
    KeepSpec(premium, TenureCheck(f1, f2));
    KeepTwice(sorted, PremiumCheck(f1, f2), TenureCheck(f1, f2));
    KeepSpec(sorted, Both(PremiumCheck(f1, f2), TenureCheck(f1, f2)));
  }

  /** The surviving pairs are candidates, and name rows of the unmatched sheets. */
  lemma SurvivorsWithin(data1: BrokerRows, data2: InsurerRows, ratio: (string, string) -> Score)
    ensures var sorted := SortedList(data1, data2, ratio);
            var pairs := Survivors(data1, data2, ratio);
            && BrokerIdsOf(pairs) <= BrokerIdsOf(sorted) && BrokerIdsOf(pairs) <= IdSet(data1)
            && InsurerIdsOf(pairs) <= InsurerIdsOf(sorted) && InsurerIdsOf(pairs) <= IdSet(data2)
  {
    var sorted := SortedList(data1, data2, ratio);
    var f1 := Filtered1(data1, sorted);
    var f2 := Filtered2(data2, sorted);
    var premium := PremiumSurvivors(data1, data2, ratio);
    var pairs := Survivors(data1, data2, ratio);
    SortedListResolvable(data1, data2, ratio);
    FilteredResolvable(data1, data2, sorted);
    TenureListsSpec(data1, data2, ratio);
    KeepSpec(sorted, PremiumCheck(f1, f2));
    KeepSpec(premium, TenureCheck(f1, f2));
    assert forall p :: p in pairs ==> p in sorted;
  }

  /** `Index1` and `Index2` list the two sides of the surviving pairs. */
  lemma TenureListsIds(data1: BrokerRows, data2: InsurerRows, ratio: (string, string) -> Score)
    ensures BrokerIdsOf(Survivors(data1, data2, ratio)) == set i | i in TenureLists(data1, data2, ratio).0
    ensures InsurerIdsOf(Survivors(data1, data2, ratio)) == set j | j in TenureLists(data1, data2, ratio).1
  {
    TenureListsSpec(data1, data2, ratio);
    ZipIds(TenureLists(data1, data2, ratio).0, TenureLists(data1, data2, ratio).1);
  }

  /** `final_filtered_data1` after `add_matching_columns`: the broker rows listed in
      `Index1`, each with its `match_dict_1_to_2` entry and the pass's attribute. */
  function NewBrokerMatches(data1: BrokerRows, data2: InsurerRows, ratio: (string, string) -> Score): BrokerRows {
    var sorted := SortedList(data1, data2, ratio);
    var t := TenureLists(data1, data2, ratio);
    MarkMatched(Select(Filtered1(data1, sorted), IndexIn(set i | i in t.0)), ForwardIndex(Zip(t.0, t.1)), CustomerPremiumTenure)
  }

  /** `final_filtered_data2` after `add_matching_columns`. */
  function NewInsurerMatches(data1: BrokerRows, data2: InsurerRows, ratio: (string, string) -> Score): InsurerRows {
    var sorted := SortedList(data1, data2, ratio);
    var t := TenureLists(data1, data2, ratio);
    MarkMatched(Select(Filtered2(data2, sorted), IndexIn(set j | j in t.1)), BackwardIndex(Zip(t.0, t.1)), CustomerPremiumTenure)
  }

  /** The pass: move the annotated rows of the surviving pairs from the unmatched
      sheets to the matched sheets. */
  function Run(lg: Ledgers, ratio: (string, string) -> Score): Ledgers {
    var data1 := lg.unmatchedBroker;
    var data2 := lg.unmatchedInsurer;
    var b := Move(lg.matchedBroker, data1, NewBrokerMatches(data1, data2, ratio));
    var i := Move(lg.matchedInsurer, data2, NewInsurerMatches(data1, data2, ratio));
    Ledgers(b.0, i.0, b.1, i.1)
  }

  /** The broker rows the pass moves are the rows of the surviving pairs: each is
      the unmatched row of that index, its `Matching_Index` lists its partners in
      zip order and its `Matching_Attribute` names the pass. */
  lemma NewBrokerMatchesSpec(data1: BrokerRows, data2: InsurerRows, ratio: (string, string) -> Score)
    requires WellFormed(data1, data2)
    ensures IdSet(NewBrokerMatches(data1, data2, ratio)) == BrokerIdsOf(Survivors(data1, data2, ratio))
    ensures DistinctIds(NewBrokerMatches(data1, data2, ratio))
    ensures forall k :: 0 <= k < |NewBrokerMatches(data1, data2, ratio)| ==>
              var r := NewBrokerMatches(data1, data2, ratio)[k];
              && Lookup(data1, r.index) == Some(r.fields)
              && r.annotation == Some(Annotation(PartnersOfBroker(Survivors(data1, data2, ratio), r.index), [CustomerPremiumTenure]))
  {
    var t := TenureLists(data1, data2, ratio);
    var outer := BrokerIdsOf(SortedList(data1, data2, ratio));
    var pairs := Survivors(data1, data2, ratio);
    var inner := set i | i in t.0;
    var nb := NewBrokerMatches(data1, data2, ratio);
    SurvivorsWithin(data1, data2, ratio);
    TenureListsIds(data1, data2, ratio);
    MarkedPick(data1, outer, inner, ForwardIndex(pairs), CustomerPremiumTenure);
    forall k | 0 <= k < |nb| ensures Get(ForwardIndex(pairs), nb[k].index) == PartnersOfBroker(pairs, nb[k].index) {
      DirectedIndexGet(pairs, nb[k].index);
    }
  }

  /** The same for the insurer rows. */
  lemma NewInsurerMatchesSpec(data1: BrokerRows, data2: InsurerRows, ratio: (string, string) -> Score)
    requires WellFormed(data1, data2)
    ensures IdSet(NewInsurerMatches(data1, data2, ratio)) == InsurerIdsOf(Survivors(data1, data2, ratio))
    ensures DistinctIds(NewInsurerMatches(data1, data2, ratio))
    ensures forall k :: 0 <= k < |NewInsurerMatches(data1, data2, ratio)| ==>
              var r := NewInsurerMatches(data1, data2, ratio)[k];
              && Lookup(data2, r.index) == Some(r.fields)
              && r.annotation == Some(Annotation(PartnersOfInsurer(Survivors(data1, data2, ratio), r.index), [CustomerPremiumTenure]))
  {
    var t := TenureLists(data1, data2, ratio);
    var outer := InsurerIdsOf(SortedList(data1, data2, ratio));
    var pairs := Survivors(data1, data2, ratio);
    var inner := set j | j in t.1;
    var ni := NewInsurerMatches(data1, data2, ratio);
    SurvivorsWithin(data1, data2, ratio);
    TenureListsIds(data1, data2, ratio);
    MarkedPick(data2, outer, inner, BackwardIndex(pairs), CustomerPremiumTenure);
    forall k | 0 <= k < |ni| ensures Get(BackwardIndex(pairs), ni[k].index) == PartnersOfInsurer(pairs, ni[k].index) {
      DirectedIndexGet(pairs, ni[k].index);
    }
  }

  /** The two dictionaries are mutual: insurer row `y` is listed on broker row `x`
      iff `x` is listed on `y`, iff the pair survived. Each partner is listed
      once. */
  lemma MatchingIndexMutual(data1: BrokerRows, data2: InsurerRows, ratio: (string, string) -> Score, j: nat, k: nat)
    requires WellFormed(data1, data2)
    requires j < |NewBrokerMatches(data1, data2, ratio)| && k < |NewInsurerMatches(data1, data2, ratio)|
    ensures var x := NewBrokerMatches(data1, data2, ratio)[j];
            var y := NewInsurerMatches(data1, data2, ratio)[k];
            && (y.index in x.annotation.value.matchingIndex <==> Pair(x.index, y.index) in Survivors(data1, data2, ratio))
            && (x.index in y.annotation.value.matchingIndex <==> Pair(x.index, y.index) in Survivors(data1, data2, ratio))
            && NoDup(x.annotation.value.matchingIndex) && NoDup(y.annotation.value.matchingIndex)
  {
    var pairs := Survivors(data1, data2, ratio);
    var x := NewBrokerMatches(data1, data2, ratio)[j];
    var y := NewInsurerMatches(data1, data2, ratio)[k];
    NewBrokerMatchesSpec(data1, data2, ratio);
    NewInsurerMatchesSpec(data1, data2, ratio);
    SurvivorsOrder(data1, data2, ratio);
    PartnersMember(pairs, x.index, y.index);
    PartnersNoDup(pairs, x.index);
    PartnersNoDup(pairs, y.index);
  }

  /** Every moved broker row has a non-empty `Matching_Index` naming insurer rows. */
  lemma NewBrokerMatchesAnnotated(data1: BrokerRows, data2: InsurerRows, ratio: (string, string) -> Score)
    requires WellFormed(data1, data2)
    ensures forall k :: 0 <= k < |NewBrokerMatches(data1, data2, ratio)| ==>
              NewBrokerMatches(data1, data2, ratio)[k].annotation.Some? &&
              MatchedAnnotation(NewBrokerMatches(data1, data2, ratio)[k].annotation.value, Broker)
  {
    var pairs := Survivors(data1, data2, ratio);
    var nb := NewBrokerMatches(data1, data2, ratio);
    NewBrokerMatchesSpec(data1, data2, ratio);
    SurvivorsOrder(data1, data2, ratio);
    ResolvableAcross(data1, data2, pairs);
    forall k | 0 <= k < |nb| ensures nb[k].annotation.Some? && MatchedAnnotation(nb[k].annotation.value, Broker) {
      assert nb[k].index in IdSet(nb);
      PartnersNonEmpty(pairs, nb[k].index);
      PartnersAcross(pairs, nb[k].index);
    }
  }

  /** Every moved insurer row has a non-empty `Matching_Index` naming broker rows. */
  lemma NewInsurerMatchesAnnotated(data1: BrokerRows, data2: InsurerRows, ratio: (string, string) -> Score)
    requires WellFormed(data1, data2)
    ensures forall k :: 0 <= k < |NewInsurerMatches(data1, data2, ratio)| ==>
              NewInsurerMatches(data1, data2, ratio)[k].annotation.Some? &&
              MatchedAnnotation(NewInsurerMatches(data1, data2, ratio)[k].annotation.value, Insurer)
  {
    var pairs := Survivors(data1, data2, ratio);
    var ni := NewInsurerMatches(data1, data2, ratio);
    NewInsurerMatchesSpec(data1, data2, ratio);
    SurvivorsOrder(data1, data2, ratio);
    ResolvableAcross(data1, data2, pairs);
    forall k | 0 <= k < |ni| ensures ni[k].annotation.Some? && MatchedAnnotation(ni[k].annotation.value, Insurer) {
      assert ni[k].index in IdSet(ni);
      PartnersNonEmpty(pairs, ni[k].index);
      PartnersAcross(pairs, ni[k].index);
    }
  }

  /** The pass keeps the reconciliation invariant; the rows it matches are exactly
      the rows of the surviving pairs, which leave the unmatched sheets and join
      the matched ones. */
  lemma RunKeepsInvariant(lg: Ledgers, brokerIds: set<Id>, insurerIds: set<Id>, ratio: (string, string) -> Score)
    requires Invariant(lg, brokerIds, insurerIds)
    ensures Invariant(Run(lg, ratio), brokerIds, insurerIds)
    ensures var pairs := Survivors(lg.unmatchedBroker, lg.unmatchedInsurer, ratio);
            && IdSet(Run(lg, ratio).matchedBroker) == IdSet(lg.matchedBroker) + BrokerIdsOf(pairs)
            && IdSet(Run(lg, ratio).unmatchedBroker) == IdSet(lg.unmatchedBroker) - BrokerIdsOf(pairs)
            && IdSet(Run(lg, ratio).matchedInsurer) == IdSet(lg.matchedInsurer) + InsurerIdsOf(pairs)
            && IdSet(Run(lg, ratio).unmatchedInsurer) == IdSet(lg.unmatchedInsurer) - InsurerIdsOf(pairs)
  {
    var data1 := lg.unmatchedBroker;
    var data2 := lg.unmatchedInsurer;
    NewBrokerMatchesSpec(data1, data2, ratio);
    NewInsurerMatchesSpec(data1, data2, ratio);
    NewBrokerMatchesAnnotated(data1, data2, ratio);
    NewInsurerMatchesAnnotated(data1, data2, ratio);
    SurvivorsWithin(data1, data2, ratio);
    MoveKeepsReconciled(lg.matchedBroker, data1, NewBrokerMatches(data1, data2, ratio), brokerIds, Broker);
    MoveKeepsReconciled(lg.matchedInsurer, data2, NewInsurerMatches(data1, data2, ratio), insurerIds, Insurer);
  }

  /** The pass never takes a row off the matched sheets nor changes one there:
      a row matched earlier keeps the match columns it got then. */
  lemma RunKeepsMatched(lg: Ledgers, ratio: (string, string) -> Score)
    requires DistinctIds(lg.matchedBroker) && DistinctIds(lg.matchedInsurer)
    ensures Kept(lg.matchedBroker, Run(lg, ratio).matchedBroker)
    ensures Kept(lg.matchedInsurer, Run(lg, ratio).matchedInsurer)
    ensures DistinctIds(Run(lg, ratio).matchedBroker) && DistinctIds(Run(lg, ratio).matchedInsurer)
  {
    var data1 := lg.unmatchedBroker;
    var data2 := lg.unmatchedInsurer;
    MoveKeepsMatched(lg.matchedBroker, data1, NewBrokerMatches(data1, data2, ratio));
    MoveKeepsMatched(lg.matchedInsurer, data2, NewInsurerMatches(data1, data2, ratio));
  }
}
