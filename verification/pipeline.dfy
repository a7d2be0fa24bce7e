/** The three passes run one after the other on the two sheets as read: exact
    identifiers first, then customer name with product and premium, then customer
    name with premium and tenure. Each fuzzy pass works only on what the passes
    before it left unmatched. */
module Reconciliation {
  import opened Ids
  import opened Records
  import opened NameCandidates
  import opened AttributeFilters
  import opened LedgerState
  import ExactIdPass
  import PolicyPremiumPass
  import PremiumTenurePass

  /** The whole reconciliation of a broker sheet and an insurer sheet. */
  function Reconcile(brokerFields: seq<BrokerFields>, insurerFields: seq<InsurerFields>,
                     ratio: (string, string) -> Score, labelRatio: (string, string) -> Fraction): Ledgers
  {
    var afterIds := ExactIdPass.Run(brokerFields, insurerFields);
    var afterPolicy := PolicyPremiumPass.Run(afterIds, ratio, labelRatio);
    PremiumTenurePass.Run(afterPolicy, ratio)
  }

  /** At the end, every broker row `S1..Sn` is on exactly one of the two broker
      sheets and every insurer row `L1..Lm` on exactly one of the two insurer
      sheets; the sheets hold no other rows, repeat none, are in index order, and
      only the matched rows carry match columns. */
  lemma ReconcileSplitsLedgers(brokerFields: seq<BrokerFields>, insurerFields: seq<InsurerFields>,
                               ratio: (string, string) -> Score, labelRatio: (string, string) -> Fraction)
    ensures Invariant(Reconcile(brokerFields, insurerFields, ratio, labelRatio),
                      IdSet(AssignIds(brokerFields, Broker)), IdSet(AssignIds(insurerFields, Insurer)))
    ensures var r := Reconcile(brokerFields, insurerFields, ratio, labelRatio);
            forall x: Id :: x in IdSet(r.matchedBroker) + IdSet(r.unmatchedBroker) <==> x.ledger == Broker && 1 <= x.ordinal <= |brokerFields|
    ensures var r := Reconcile(brokerFields, insurerFields, ratio, labelRatio);
            forall x: Id :: x in IdSet(r.matchedInsurer) + IdSet(r.unmatchedInsurer) <==> x.ledger == Insurer && 1 <= x.ordinal <= |insurerFields|
    ensures var r := Reconcile(brokerFields, insurerFields, ratio, labelRatio);
            IdSet(r.matchedBroker) * IdSet(r.unmatchedBroker) == {} && IdSet(r.matchedInsurer) * IdSet(r.unmatchedInsurer) == {}
  {
    var brokerIds := IdSet(AssignIds(brokerFields, Broker));
    var insurerIds := IdSet(AssignIds(insurerFields, Insurer));
    var afterIds := ExactIdPass.Run(brokerFields, insurerFields);
    var afterPolicy := PolicyPremiumPass.Run(afterIds, ratio, labelRatio);
    AssignIdsShape(brokerFields, Broker);
    AssignIdsShape(insurerFields, Insurer);
    ExactIdPass.RunReconciled(brokerFields, insurerFields);
    PolicyPremiumPass.RunKeepsInvariant(afterIds, brokerIds, insurerIds, ratio, labelRatio);
    PremiumTenurePass.RunKeepsInvariant(afterPolicy, brokerIds, insurerIds, ratio);
  }

  /** The two fuzzy passes keep every matched row they are given, and the third
      keeps every row the second matched. */
  lemma FuzzyPassesKeepMatches(lg: Ledgers, ratio: (string, string) -> Score, labelRatio: (string, string) -> Fraction)
    requires DistinctIds(lg.matchedBroker) && DistinctIds(lg.matchedInsurer)
    ensures var afterPolicy := PolicyPremiumPass.Run(lg, ratio, labelRatio);
            var r := PremiumTenurePass.Run(afterPolicy, ratio);
            && Kept(lg.matchedBroker, r.matchedBroker) && Kept(lg.matchedInsurer, r.matchedInsurer)
            && Kept(afterPolicy.matchedBroker, r.matchedBroker) && Kept(afterPolicy.matchedInsurer, r.matchedInsurer)
  {
    var afterPolicy := PolicyPremiumPass.Run(lg, ratio, labelRatio);
    var r := PremiumTenurePass.Run(afterPolicy, ratio);
    PolicyPremiumPass.RunKeepsMatched(lg, ratio, labelRatio);
    PremiumTenurePass.RunKeepsMatched(afterPolicy, ratio);
    KeptTransitive(lg.matchedBroker, afterPolicy.matchedBroker, r.matchedBroker);
    KeptTransitive(lg.matchedInsurer, afterPolicy.matchedInsurer, r.matchedInsurer);
  }

  /** A later pass never undoes an earlier match: every row a pass put on a matched
      sheet is still there at the end, with the match columns it got then. */
  lemma ReconcileKeepsEarlierMatches(brokerFields: seq<BrokerFields>, insurerFields: seq<InsurerFields>,
                                     ratio: (string, string) -> Score, labelRatio: (string, string) -> Fraction)
    ensures var afterIds := ExactIdPass.Run(brokerFields, insurerFields);
            var afterPolicy := PolicyPremiumPass.Run(afterIds, ratio, labelRatio);
            var r := Reconcile(brokerFields, insurerFields, ratio, labelRatio);
            && Kept(afterIds.matchedBroker, r.matchedBroker) && Kept(afterIds.matchedInsurer, r.matchedInsurer)
            && Kept(afterPolicy.matchedBroker, r.matchedBroker) && Kept(afterPolicy.matchedInsurer, r.matchedInsurer)
  {
    ExactIdPass.RunReconciled(brokerFields, insurerFields);
    FuzzyPassesKeepMatches(ExactIdPass.Run(brokerFields, insurerFields), ratio, labelRatio);
  }
}
