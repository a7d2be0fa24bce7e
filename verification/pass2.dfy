/** The second pass (Customer+Policy+Premium.py) on the rows the first pass left
    unmatched: pair rows by customer name, keep the pairs whose product labels
    and premiums also agree, annotate the rows of the surviving pairs and move
    them to the matched sheets. */
module PolicyPremiumPass {
  import opened Wrappers
  import opened Ids
  import opened Records
  import opened Seqs
  import opened NameNormalizer
  import opened NameCandidates
  import opened AttributeFilters
  import opened LedgerState
  import opened MatchIndex

  /** `updated_sorted_list`: the candidates whose product labels agree. */
  function LabelSurvivors(data1: BrokerRows, data2: InsurerRows, ratio: (string, string) -> Score, labelRatio: (string, string) -> Fraction): seq<Pair> {
    var sorted := SortedList(data1, data2, ratio);
    SortedListResolvable(data1, data2, ratio);
    FilteredResolvable(data1, data2, sorted);
    CheckLabels(Filtered1(data1, sorted), Filtered2(data2, sorted), sorted, labelRatio)
  }

  /** `premium_similarity_list`: of those, the pairs whose premiums agree. */
  function Survivors(data1: BrokerRows, data2: InsurerRows, ratio: (string, string) -> Score, labelRatio: (string, string) -> Fraction): seq<Pair> {
    var sorted := SortedList(data1, data2, ratio);
    var f1 := Filtered1(data1, sorted);
    var f2 := Filtered2(data2, sorted);
    SortedListResolvable(data1, data2, ratio);
    FilteredResolvable(data1, data2, sorted);
    KeepSpec(sorted, LabelCheck(f1, f2, labelRatio));
    CheckPremiums(f1, f2, LabelSurvivors(data1, data2, ratio, labelRatio))
  }

  /** The reference for what the pass accepts, read off the unmatched sheets: the
      customer names score at least the threshold, the cleaned product labels reach
      a ratio of 0.75, and the insurer's premium lies within 2% of the broker's. */
  predicate Accepts(data1: BrokerRows, data2: InsurerRows, ratio: (string, string) -> Score, labelRatio: (string, string) -> Fraction, p: Pair) {
    && NameMatch(data1, data2, ratio, p)
    && var b := Lookup(data1, p.broker).value;
       var c := Lookup(data2, p.insurer).value;
       && labelRatio(CleanText(PreprocessText(b.policyType)), CleanText(PreprocessText(c.productName))) >= LabelThreshold
       && b.odPremium.Some? && c.premium.Some?
       && 0.98 * b.odPremium.value <= c.premium.value <= 1.02 * b.odPremium.value
  }

  /** A pair survives the three checks iff it meets the reference. */
  lemma SurvivorsMember(data1: BrokerRows, data2: InsurerRows, ratio: (string, string) -> Score, labelRatio: (string, string) -> Fraction, p: Pair)
    requires DistinctIds(data1) && DistinctIds(data2)
    ensures p in Survivors(data1, data2, ratio, labelRatio) <==> Accepts(data1, data2, ratio, labelRatio, p)
  {
    var sorted := SortedList(data1, data2, ratio);
    var f1 := Filtered1(data1, sorted);
    var f2 := Filtered2(data2, sorted);
    var updated := LabelSurvivors(data1, data2, ratio, labelRatio);
    SortedListResolvable(data1, data2, ratio);
    FilteredResolvable(data1, data2, sorted);
    KeepSpec(sorted, LabelCheck(f1, f2, labelRatio));
    SortedListMember(data1, data2, ratio, p);
    CheckLabelsMember(f1, f2, sorted, labelRatio, p);
    CheckPremiumsMember(f1, f2, updated, p);
    if p in sorted {
      FilteredLookup(data1, data2, sorted, p);
    }
  }

  /** The survivors keep the candidate order: no pair twice, ascending by broker
      row, and every survivor names a row of each unmatched sheet. */
  lemma SurvivorsOrder(data1: BrokerRows, data2: InsurerRows, ratio: (string, string) -> Score, labelRatio: (string, string) -> Fraction)
    requires DistinctIds(data1) && DistinctIds(data2)
    ensures SubsequenceOf(Survivors(data1, data2, ratio, labelRatio), SortedList(data1, data2, ratio))
    ensures NoDup(Survivors(data1, data2, ratio, labelRatio))
    ensures SortedByKey(Survivors(data1, data2, ratio, labelRatio), BrokerOrdinal)
    ensures Resolvable(data1, data2, Survivors(data1, data2, ratio, labelRatio))
  {
    var sorted := SortedList(data1, data2, ratio);
    var f1 := Filtered1(data1, sorted);
    var f2 := Filtered2(data2, sorted);
    var updated := LabelSurvivors(data1, data2, ratio, labelRatio);
    SortedListSpec(data1, data2, ratio);
    SortedListResolvable(data1, data2, ratio);
    FilteredResolvable(data1, data2, sorted);
    KeepSpec(sorted, LabelCheck(f1, f2, labelRatio));
    KeepSpec(updated, PremiumCheck(f1, f2));
    KeepTwice(sorted, LabelCheck(f1, f2, labelRatio), PremiumCheck(f1, f2));
    KeepSpec(sorted, Both(LabelCheck(f1, f2, labelRatio), PremiumCheck(f1, f2)));
  }

  /** `Saiba_Dump` after `create_comma_separated_indices`: the broker rows of the
      surviving pairs, each with its partners and the pass's attribute. */
  function NewBrokerMatches(data1: BrokerRows, data2: InsurerRows, ratio: (string, string) -> Score, labelRatio: (string, string) -> Fraction): BrokerRows {
    var sorted := SortedList(data1, data2, ratio);
    var pairs := Survivors(data1, data2, ratio, labelRatio);
    MarkMatched(Select(Filtered1(data1, sorted), IndexIn(BrokerIdsOf(pairs))), SharedIndex(pairs), CustomerPolicyPremium)
  }

  /** `Lombard_Statement` after `create_comma_separated_indices`. */
  function NewInsurerMatches(data1: BrokerRows, data2: InsurerRows, ratio: (string, string) -> Score, labelRatio: (string, string) -> Fraction): InsurerRows {
    var sorted := SortedList(data1, data2, ratio);
    var pairs := Survivors(data1, data2, ratio, labelRatio);
    MarkMatched(Select(Filtered2(data2, sorted), IndexIn(InsurerIdsOf(pairs))), SharedIndex(pairs), CustomerPolicyPremium)
  }

  /** The pass: move the annotated rows of the surviving pairs from the unmatched
      sheets to the matched sheets. */
  function Run(lg: Ledgers, ratio: (string, string) -> Score, labelRatio: (string, string) -> Fraction): Ledgers {
    var data1 := lg.unmatchedBroker;
    var data2 := lg.unmatchedInsurer;
    var b := Move(lg.matchedBroker, data1, NewBrokerMatches(data1, data2, ratio, labelRatio));
    var i := Move(lg.matchedInsurer, data2, NewInsurerMatches(data1, data2, ratio, labelRatio));
    Ledgers(b.0, i.0, b.1, i.1)
  }

  /** The surviving pairs go from broker rows to insurer rows. */
  lemma SurvivorsAcross(data1: BrokerRows, data2: InsurerRows, ratio: (string, string) -> Score, labelRatio: (string, string) -> Fraction)
    requires WellFormed(data1, data2)
    ensures Across(Survivors(data1, data2, ratio, labelRatio))
  {
    SurvivorsOrder(data1, data2, ratio, labelRatio);
    ResolvableAcross(data1, data2, Survivors(data1, data2, ratio, labelRatio));
  }

  /** The surviving pairs are candidates, and name rows of the unmatched sheets. */
  lemma SurvivorsWithin(data1: BrokerRows, data2: InsurerRows, ratio: (string, string) -> Score, labelRatio: (string, string) -> Fraction)
    ensures var sorted := SortedList(data1, data2, ratio);
            var pairs := Survivors(data1, data2, ratio, labelRatio);
            && BrokerIdsOf(pairs) <= BrokerIdsOf(sorted) && BrokerIdsOf(pairs) <= IdSet(data1)
            && InsurerIdsOf(pairs) <= InsurerIdsOf(sorted) && InsurerIdsOf(pairs) <= IdSet(data2)
  {
    var sorted := SortedList(data1, data2, ratio);
    var f1 := Filtered1(data1, sorted);
    var f2 := Filtered2(data2, sorted);
    var updated := LabelSurvivors(data1, data2, ratio, labelRatio);
    var pairs := Survivors(data1, data2, ratio, labelRatio);
    SortedListResolvable(data1, data2, ratio);
    FilteredResolvable(data1, data2, sorted);
    KeepSpec(sorted, LabelCheck(f1, f2, labelRatio));
    KeepSpec(updated, PremiumCheck(f1, f2));
    assert forall p :: p in pairs ==> p in sorted;
  }

  /** The broker rows the pass moves are the rows of the surviving pairs: each is
      the unmatched row of that index, its `Matching_Index` lists its partners in
      the pairs and its `Matching_Attribute` names the pass. */
  lemma NewBrokerMatchesSpec(data1: BrokerRows, data2: InsurerRows, ratio: (string, string) -> Score, labelRatio: (string, string) -> Fraction)
    requires WellFormed(data1, data2)
    ensures IdSet(NewBrokerMatches(data1, data2, ratio, labelRatio)) == BrokerIdsOf(Survivors(data1, data2, ratio, labelRatio))
    ensures DistinctIds(NewBrokerMatches(data1, data2, ratio, labelRatio))
    ensures forall k :: 0 <= k < |NewBrokerMatches(data1, data2, ratio, labelRatio)| ==>
              var r := NewBrokerMatches(data1, data2, ratio, labelRatio)[k];
              && Lookup(data1, r.index) == Some(r.fields)
              && r.annotation == Some(Annotation(PartnersOfBroker(Survivors(data1, data2, ratio, labelRatio), r.index), [CustomerPolicyPremium]))
  {
    var outer := BrokerIdsOf(SortedList(data1, data2, ratio));
    var pairs := Survivors(data1, data2, ratio, labelRatio);
    var nb := NewBrokerMatches(data1, data2, ratio, labelRatio);
    SurvivorsWithin(data1, data2, ratio, labelRatio);
    SurvivorsAcross(data1, data2, ratio, labelRatio);
    MarkedPick(data1, outer, BrokerIdsOf(pairs), SharedIndex(pairs), CustomerPolicyPremium);
    forall k | 0 <= k < |nb| ensures Get(SharedIndex(pairs), nb[k].index) == PartnersOfBroker(pairs, nb[k].index) {
      SharedIndexGet(pairs, nb[k].index);
    }
  }

  /** The same for the insurer rows. */
  lemma NewInsurerMatchesSpec(data1: BrokerRows, data2: InsurerRows, ratio: (string, string) -> Score, labelRatio: (string, string) -> Fraction)
    requires WellFormed(data1, data2)
    ensures IdSet(NewInsurerMatches(data1, data2, ratio, labelRatio)) == InsurerIdsOf(Survivors(data1, data2, ratio, labelRatio))
    ensures DistinctIds(NewInsurerMatches(data1, data2, ratio, labelRatio))
    ensures forall k :: 0 <= k < |NewInsurerMatches(data1, data2, ratio, labelRatio)| ==>
              var r := NewInsurerMatches(data1, data2, ratio, labelRatio)[k];
              && Lookup(data2, r.index) == Some(r.fields)
              && r.annotation == Some(Annotation(PartnersOfInsurer(Survivors(data1, data2, ratio, labelRatio), r.index), [CustomerPolicyPremium]))
  {
    var outer := InsurerIdsOf(SortedList(data1, data2, ratio));
    var pairs := Survivors(data1, data2, ratio, labelRatio);
    var ni := NewInsurerMatches(data1, data2, ratio, labelRatio);
    SurvivorsWithin(data1, data2, ratio, labelRatio);
    SurvivorsAcross(data1, data2, ratio, labelRatio);
    MarkedPick(data2, outer, InsurerIdsOf(pairs), SharedIndex(pairs), CustomerPolicyPremium);
    forall k | 0 <= k < |ni| ensures Get(SharedIndex(pairs), ni[k].index) == PartnersOfInsurer(pairs, ni[k].index) {
      SharedIndexGet(pairs, ni[k].index);
    }
  }

  /** `Matching_Index` is mutual across the two sheets: insurer row `y` is listed on
      broker row `x` iff `x` is listed on `y`, iff the pair survived. Each partner
      is listed once. */
  lemma MatchingIndexMutual(data1: BrokerRows, data2: InsurerRows, ratio: (string, string) -> Score, labelRatio: (string, string) -> Fraction, j: nat, k: nat)
    requires WellFormed(data1, data2)
    requires j < |NewBrokerMatches(data1, data2, ratio, labelRatio)| && k < |NewInsurerMatches(data1, data2, ratio, labelRatio)|
    ensures var x := NewBrokerMatches(data1, data2, ratio, labelRatio)[j];
            var y := NewInsurerMatches(data1, data2, ratio, labelRatio)[k];
            && (y.index in x.annotation.value.matchingIndex <==> Pair(x.index, y.index) in Survivors(data1, data2, ratio, labelRatio))
            && (x.index in y.annotation.value.matchingIndex <==> Pair(x.index, y.index) in Survivors(data1, data2, ratio, labelRatio))
            && NoDup(x.annotation.value.matchingIndex) && NoDup(y.annotation.value.matchingIndex)
  {
    var pairs := Survivors(data1, data2, ratio, labelRatio);
    var x := NewBrokerMatches(data1, data2, ratio, labelRatio)[j];
    var y := NewInsurerMatches(data1, data2, ratio, labelRatio)[k];
    NewBrokerMatchesSpec(data1, data2, ratio, labelRatio);
    NewInsurerMatchesSpec(data1, data2, ratio, labelRatio);
    SurvivorsOrder(data1, data2, ratio, labelRatio);
    PartnersMember(pairs, x.index, y.index);
    PartnersNoDup(pairs, x.index);
    PartnersNoDup(pairs, y.index);
  }

  /** The moved broker rows carry proper match columns. */
  lemma NewBrokerMatchesAnnotated(data1: BrokerRows, data2: InsurerRows, ratio: (string, string) -> Score, labelRatio: (string, string) -> Fraction)
    requires WellFormed(data1, data2)
    ensures forall k :: 0 <= k < |NewBrokerMatches(data1, data2, ratio, labelRatio)| ==>
              NewBrokerMatches(data1, data2, ratio, labelRatio)[k].annotation.Some? &&
              MatchedAnnotation(NewBrokerMatches(data1, data2, ratio, labelRatio)[k].annotation.value, Broker)
  {
    var pairs := Survivors(data1, data2, ratio, labelRatio);
    var nb := NewBrokerMatches(data1, data2, ratio, labelRatio);
    NewBrokerMatchesSpec(data1, data2, ratio, labelRatio);
    SurvivorsAcross(data1, data2, ratio, labelRatio);
    forall k | 0 <= k < |nb| ensures nb[k].annotation.Some? && MatchedAnnotation(nb[k].annotation.value, Broker) {
      assert nb[k].index in IdSet(nb);
      PartnersNonEmpty(pairs, nb[k].index);
      PartnersAcross(pairs, nb[k].index);
    }
  }

  /** The moved insurer rows carry proper match columns. */
  lemma NewInsurerMatchesAnnotated(data1: BrokerRows, data2: InsurerRows, ratio: (string, string) -> Score, labelRatio: (string, string) -> Fraction)
    requires WellFormed(data1, data2)
    ensures forall k :: 0 <= k < |NewInsurerMatches(data1, data2, ratio, labelRatio)| ==>
              NewInsurerMatches(data1, data2, ratio, labelRatio)[k].annotation.Some? &&
              MatchedAnnotation(NewInsurerMatches(data1, data2, ratio, labelRatio)[k].annotation.value, Insurer)
  {
    var pairs := Survivors(data1, data2, ratio, labelRatio);
    var ni := NewInsurerMatches(data1, data2, ratio, labelRatio);
    NewInsurerMatchesSpec(data1, data2, ratio, labelRatio);
    SurvivorsAcross(data1, data2, ratio, labelRatio);
    forall k | 0 <= k < |ni| ensures ni[k].annotation.Some? && MatchedAnnotation(ni[k].annotation.value, Insurer) {
      assert ni[k].index in IdSet(ni);
      PartnersNonEmpty(pairs, ni[k].index);
      PartnersAcross(pairs, ni[k].index);
    }
  }

  /** The pass keeps the reconciliation invariant; the rows it matches are exactly
      the rows of the surviving pairs, which leave the unmatched sheets and join
      the matched ones. */
  lemma RunKeepsInvariant(lg: Ledgers, brokerIds: set<Id>, insurerIds: set<Id>, ratio: (string, string) -> Score, labelRatio: (string, string) -> Fraction)
    requires Invariant(lg, brokerIds, insurerIds)
    ensures Invariant(Run(lg, ratio, labelRatio), brokerIds, insurerIds)
    ensures var pairs := Survivors(lg.unmatchedBroker, lg.unmatchedInsurer, ratio, labelRatio);
            && IdSet(Run(lg, ratio, labelRatio).matchedBroker) == IdSet(lg.matchedBroker) + BrokerIdsOf(pairs)
            && IdSet(Run(lg, ratio, labelRatio).unmatchedBroker) == IdSet(lg.unmatchedBroker) - BrokerIdsOf(pairs)
            && IdSet(Run(lg, ratio, labelRatio).matchedInsurer) == IdSet(lg.matchedInsurer) + InsurerIdsOf(pairs)
            && IdSet(Run(lg, ratio, labelRatio).unmatchedInsurer) == IdSet(lg.unmatchedInsurer) - InsurerIdsOf(pairs)
  {
    var data1 := lg.unmatchedBroker;
    var data2 := lg.unmatchedInsurer;
    var pairs := Survivors(data1, data2, ratio, labelRatio);
    NewBrokerMatchesSpec(data1, data2, ratio, labelRatio);
    NewInsurerMatchesSpec(data1, data2, ratio, labelRatio);
    NewBrokerMatchesAnnotated(data1, data2, ratio, labelRatio);
    NewInsurerMatchesAnnotated(data1, data2, ratio, labelRatio);
    SurvivorsOrder(data1, data2, ratio, labelRatio);
    assert BrokerIdsOf(pairs) <= IdSet(data1);
    assert InsurerIdsOf(pairs) <= IdSet(data2);
    MoveKeepsReconciled(lg.matchedBroker, data1, NewBrokerMatches(data1, data2, ratio, labelRatio), brokerIds, Broker);
    MoveKeepsReconciled(lg.matchedInsurer, data2, NewInsurerMatches(data1, data2, ratio, labelRatio), insurerIds, Insurer);
  }

  /** The pass never takes a row off the matched sheets nor changes one there:
      a row matched earlier keeps the match columns it got then. */
  lemma RunKeepsMatched(lg: Ledgers, ratio: (string, string) -> Score, labelRatio: (string, string) -> Fraction)
    requires DistinctIds(lg.matchedBroker) && DistinctIds(lg.matchedInsurer)
    ensures Kept(lg.matchedBroker, Run(lg, ratio, labelRatio).matchedBroker)
    ensures Kept(lg.matchedInsurer, Run(lg, ratio, labelRatio).matchedInsurer)
    ensures DistinctIds(Run(lg, ratio, labelRatio).matchedBroker) && DistinctIds(Run(lg, ratio, labelRatio).matchedInsurer)
  {
    var data1 := lg.unmatchedBroker;
    var data2 := lg.unmatchedInsurer;
    MoveKeepsMatched(lg.matchedBroker, data1, NewBrokerMatches(data1, data2, ratio, labelRatio));
    MoveKeepsMatched(lg.matchedInsurer, data2, NewInsurerMatches(data1, data2, ratio, labelRatio));
  }
}
