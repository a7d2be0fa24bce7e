/** What the two fuzzy passes share once their surviving pairs are known: the
    rows a pair list names, and the `Matching_Index` dictionaries built from it
    (`create_comma_separated_indices` in the second pass, `add_matching_columns`
    in the third). */
module MatchIndex {
  import opened Wrappers
  import opened Ids
  import opened Records
  import opened Seqs
  import opened NameCandidates
  import opened AttributeFilters

  /** The broker indices the pairs mention, as a set. */
  function BrokerIdsOf(pairs: seq<Pair>): set<Id> {
    set p | p in pairs :: p.broker
  }

  /** The insurer indices the pairs mention, as a set. */
  function InsurerIdsOf(pairs: seq<Pair>): set<Id> {
    set p | p in pairs :: p.insurer
  }

  /** The row mask: the row's index is one of `ids`. */
  function IndexIn<F>(ids: set<Id>): Row<F> -> bool {
    (r: Row<F>) => r.index in ids
  }

  /** A selection by index keeps exactly the listed indices the sheet has. */
  lemma IndexInIds<F>(rows: seq<Row<F>>, ids: set<Id>)
    ensures IdSet(Select(rows, IndexIn(ids))) == IdSet(rows) * ids
  {
    SelectIds(rows, IndexIn(ids));
  }

  /** The insurer rows paired with broker row `x`, in pair order. */
  function PartnersOfBroker(pairs: seq<Pair>, x: Id): seq<Id>
    decreases |pairs|
  {
    if pairs == [] then []
    else
      var last := pairs[|pairs| - 1];
      PartnersOfBroker(pairs[..|pairs| - 1], x) + (if last.broker == x then [last.insurer] else [])
  }

  /** The broker rows paired with insurer row `y`, in pair order. */
  function PartnersOfInsurer(pairs: seq<Pair>, y: Id): seq<Id>
    decreases |pairs|
  {
    if pairs == [] then []
    else
      var last := pairs[|pairs| - 1];
      PartnersOfInsurer(pairs[..|pairs| - 1], y) + (if last.insurer == y then [last.broker] else [])
  }

  /** The partners of a row on either ledger. */
  function Partners(pairs: seq<Pair>, x: Id): seq<Id> {
    if x.ledger == Broker then PartnersOfBroker(pairs, x) else PartnersOfInsurer(pairs, x)
  }

  /** Partnership is mutual: `y` is a partner of `x` iff `x` is a partner of `y`,
      iff the pair is in the list. */
  lemma {:induction false} PartnersMember(pairs: seq<Pair>, x: Id, y: Id)
    ensures y in PartnersOfBroker(pairs, x) <==> Pair(x, y) in pairs
    ensures x in PartnersOfInsurer(pairs, y) <==> Pair(x, y) in pairs
    decreases |pairs|
  {
    if pairs != [] {
      var init := pairs[..|pairs| - 1];
      PartnersMember(init, x, y);
      assert pairs == init + [pairs[|pairs| - 1]];
    }
  }

  /** A pair list without repeats lists each partner once. */
  lemma {:induction false} PartnersNoDup(pairs: seq<Pair>, x: Id)
    requires NoDup(pairs)
    ensures NoDup(PartnersOfBroker(pairs, x)) && NoDup(PartnersOfInsurer(pairs, x))
    decreases |pairs|
  {
    if pairs != [] {
      var init := pairs[..|pairs| - 1];
      var last := pairs[|pairs| - 1];
      assert pairs == init + [last];
      assert NoDup(init) by {
        forall a, b | 0 <= a < b < |init| ensures init[a] != init[b] {
          assert init[a] == pairs[a] && init[b] == pairs[b];
        }
      }
      assert last !in init by {
        forall a | 0 <= a < |init| ensures init[a] != last {
          assert init[a] == pairs[a];
        }
      }
      PartnersNoDup(init, x);
      PartnersMember(init, x, last.insurer);
      PartnersMember(init, last.broker, x);
      if last.broker == x {
        NoDupAppend(PartnersOfBroker(init, x), [last.insurer]);
      }
      if last.insurer == x {
        NoDupAppend(PartnersOfInsurer(init, x), [last.broker]);
      }
    }
  }

  /** A row named by the pairs has at least one partner. */
  lemma PartnersNonEmpty(pairs: seq<Pair>, x: Id)
    ensures x in BrokerIdsOf(pairs) ==> |PartnersOfBroker(pairs, x)| > 0
    ensures x in InsurerIdsOf(pairs) ==> |PartnersOfInsurer(pairs, x)| > 0
  {
    if x in BrokerIdsOf(pairs) {
      var p :| p in pairs && p.broker == x;
      PartnersMember(pairs, x, p.insurer);
    }
    if x in InsurerIdsOf(pairs) {
      var p :| p in pairs && p.insurer == x;
      PartnersMember(pairs, p.broker, x);
    }
  }

  /** `create_comma_separated_indices`' single dictionary: each pair appends the
      insurer to the broker's entry and the broker to the insurer's entry. */
  function SharedIndex(pairs: seq<Pair>): map<Id, seq<Id>>
    decreases |pairs|
  {
    if pairs == [] then map[]
    else
      var p := pairs[|pairs| - 1];
      Append(Append(SharedIndex(pairs[..|pairs| - 1]), p.broker, p.insurer), p.insurer, p.broker)
  }

  /** Pairs that go from a broker row to an insurer row. */
  predicate Across(pairs: seq<Pair>) {
    forall p :: p in pairs ==> p.broker.ledger == Broker && p.insurer.ledger == Insurer
  }

  /** Since broker and insurer indices never coincide, the one dictionary holds
      each row's own partners and nothing else. */
  lemma {:induction false} SharedIndexGet(pairs: seq<Pair>, x: Id)
    requires Across(pairs)
    ensures Get(SharedIndex(pairs), x) == Partners(pairs, x)
    decreases |pairs|
  {
    if pairs != [] {
      var init := pairs[..|pairs| - 1];
      var p := pairs[|pairs| - 1];
      assert p in pairs;
      assert Across(init) by {
        forall q | q in init ensures q.broker.ledger == Broker && q.insurer.ledger == Insurer {
          var a :| 0 <= a < |init| && init[a] == q;
          assert pairs[a] == q;
        }
      }
      SharedIndexGet(init, x);
      GetAppend(SharedIndex(init), p.broker, p.insurer, x);
      GetAppend(Append(SharedIndex(init), p.broker, p.insurer), p.insurer, p.broker, x);
    }
  }

  /** `match_dict_1_to_2` of `add_matching_columns`. */
  function ForwardIndex(pairs: seq<Pair>): map<Id, seq<Id>>
    decreases |pairs|
  {
    if pairs == [] then map[]
    else
      var p := pairs[|pairs| - 1];
      Append(ForwardIndex(pairs[..|pairs| - 1]), p.broker, p.insurer)
  }

  /** `match_dict_2_to_1` of `add_matching_columns`. */
  function BackwardIndex(pairs: seq<Pair>): map<Id, seq<Id>>
    decreases |pairs|
  {
    if pairs == [] then map[]
    else
      var p := pairs[|pairs| - 1];
      Append(BackwardIndex(pairs[..|pairs| - 1]), p.insurer, p.broker)
  }

  /** The two dictionaries hold, for each row, its partners in zip order. */
  lemma {:induction false} DirectedIndexGet(pairs: seq<Pair>, x: Id)
    ensures Get(ForwardIndex(pairs), x) == PartnersOfBroker(pairs, x)
    ensures Get(BackwardIndex(pairs), x) == PartnersOfInsurer(pairs, x)
    decreases |pairs|
  {
    if pairs != [] {
      var init := pairs[..|pairs| - 1];
      var p := pairs[|pairs| - 1];
      DirectedIndexGet(init, x);
      GetAppend(ForwardIndex(init), p.broker, p.insurer, x);
      GetAppend(BackwardIndex(init), p.insurer, p.broker, x);
    }
  }

  /** Across pairs, a broker row's partners are insurer rows and an insurer row's
      partners are broker rows. */
  lemma PartnersAcross(pairs: seq<Pair>, x: Id)
    requires Across(pairs)
    ensures forall i :: 0 <= i < |PartnersOfBroker(pairs, x)| ==> PartnersOfBroker(pairs, x)[i].ledger == Insurer
    ensures forall i :: 0 <= i < |PartnersOfInsurer(pairs, x)| ==> PartnersOfInsurer(pairs, x)[i].ledger == Broker
  {
    forall i | 0 <= i < |PartnersOfBroker(pairs, x)| ensures PartnersOfBroker(pairs, x)[i].ledger == Insurer {
      PartnersMember(pairs, x, PartnersOfBroker(pairs, x)[i]);
    }
    forall i | 0 <= i < |PartnersOfInsurer(pairs, x)| ensures PartnersOfInsurer(pairs, x)[i].ledger == Broker {
      PartnersMember(pairs, PartnersOfInsurer(pairs, x)[i], x);
    }
  }

  /** Two selections by index, as the passes make them: the rows picked are rows of
      the sheet with an index in the inner set. */
  lemma PickedRow<F>(data: seq<Row<F>>, outer: set<Id>, inner: set<Id>, k: nat)
    requires DistinctIds(data)
    requires k < |Select(Select(data, IndexIn(outer)), IndexIn(inner))|
    ensures var r := Select(Select(data, IndexIn(outer)), IndexIn(inner))[k];
            r.index in inner && Lookup(data, r.index) == Some(r.fields)
  {
    var f := Select(data, IndexIn(outer));
    var sel := Select(f, IndexIn(inner));
    SelectMembers(data, IndexIn(outer));
    SelectMembers(f, IndexIn(inner));
    var a :| 0 <= a < |f| && f[a] == sel[k];
    var b :| 0 <= b < |data| && data[b] == f[a];
    LookupFirst(data, b);
  }

  /** When the inner set lies within the outer one and within the sheet, the two
      selections pick exactly the inner indices, once each. */
  lemma PickedIds<F>(data: seq<Row<F>>, outer: set<Id>, inner: set<Id>)
    requires DistinctIds(data)
    requires inner <= outer && inner <= IdSet(data)
    ensures IdSet(Select(Select(data, IndexIn(outer)), IndexIn(inner))) == inner
    ensures DistinctIds(Select(Select(data, IndexIn(outer)), IndexIn(inner)))
  {
    var f := Select(data, IndexIn(outer));
    IndexInIds(data, outer);
    IndexInIds(f, inner);
    SelectKeepsShape(data, IndexIn(outer));
    SelectKeepsShape(f, IndexIn(inner));
  }

  /** `add_matching_columns` on the picked rows: each keeps its index and fields
      and gets the dictionary's entry for its index, so the result holds exactly
      the inner indices, once each. */
  lemma MarkedPick<F>(data: seq<Row<F>>, outer: set<Id>, inner: set<Id>, index: map<Id, seq<Id>>, tag: Tag)
    requires DistinctIds(data)
    requires inner <= outer && inner <= IdSet(data)
    ensures IdSet(MarkMatched(Select(Select(data, IndexIn(outer)), IndexIn(inner)), index, tag)) == inner
    ensures DistinctIds(MarkMatched(Select(Select(data, IndexIn(outer)), IndexIn(inner)), index, tag))
    ensures var m := MarkMatched(Select(Select(data, IndexIn(outer)), IndexIn(inner)), index, tag);
            forall k :: 0 <= k < |m| ==>
              && Lookup(data, m[k].index) == Some(m[k].fields)
              && m[k].annotation == Some(Annotation(Get(index, m[k].index), [tag]))
  {
    var sel := Select(Select(data, IndexIn(outer)), IndexIn(inner));
    var m := MarkMatched(sel, index, tag);
    PickedIds(data, outer, inner);
    forall x | x in IdSet(sel) ensures x in IdSet(m) {
      var k :| 0 <= k < |sel| && sel[k].index == x;
      assert m[k].index == x;
    }
    forall k | 0 <= k < |m|
      ensures Lookup(data, m[k].index) == Some(m[k].fields)
    {
      PickedRow(data, outer, inner, k);
    }
  }

  // ---------------------------------------------------------------------------
  // The sheets the checks read

  type BrokerRows = seq<Row<BrokerFields>>
  type InsurerRows = seq<Row<InsurerFields>>

  /** `filtered_data1`: the broker rows some candidate pair names. */
  function Filtered1(data1: BrokerRows, sorted: seq<Pair>): BrokerRows {
    Select(data1, IndexIn(BrokerIdsOf(sorted)))
  }

  /** `filtered_data2`: the insurer rows some candidate pair names. */
  function Filtered2(data2: InsurerRows, sorted: seq<Pair>): InsurerRows {
    Select(data2, IndexIn(InsurerIdsOf(sorted)))
  }

  /** Candidate pairs resolve against the filtered sheets, so the `.values[0]`
      lookups of the checks succeed. */
  lemma FilteredResolvable(data1: BrokerRows, data2: InsurerRows, pairs: seq<Pair>)
    requires Resolvable(data1, data2, pairs)
    ensures Resolvable(Filtered1(data1, pairs), Filtered2(data2, pairs), pairs)
  {
    IndexInIds(data1, BrokerIdsOf(pairs));
    IndexInIds(data2, InsurerIdsOf(pairs));
    forall p | p in pairs ensures p.broker in BrokerIdsOf(pairs) && p.insurer in InsurerIdsOf(pairs) {
    }
  }

  /** The unmatched sheets a pass starts from: no index twice, each on its ledger. */
  predicate WellFormed(data1: BrokerRows, data2: InsurerRows) {
    DistinctIds(data1) && DistinctIds(data2) && OnLedger(data1, Broker) && OnLedger(data2, Insurer)
  }

  /** Looking a candidate's rows up in the filtered sheets finds the rows of the
      unmatched sheets. */
  lemma FilteredLookup(data1: BrokerRows, data2: InsurerRows, sorted: seq<Pair>, p: Pair)
    requires DistinctIds(data1) && DistinctIds(data2)
    requires Resolvable(data1, data2, sorted) && p in sorted
    ensures Lookup(Filtered1(data1, sorted), p.broker) == Lookup(data1, p.broker)
    ensures Lookup(Filtered2(data2, sorted), p.insurer) == Lookup(data2, p.insurer)
  {
    FilteredResolvable(data1, data2, sorted);
    LookupSelect(data1, IndexIn(BrokerIdsOf(sorted)), p.broker);
    LookupSelect(data2, IndexIn(InsurerIdsOf(sorted)), p.insurer);
  }

  /** Pairs that resolve against well-formed sheets go from broker rows to
      insurer rows. */
  lemma ResolvableAcross(data1: BrokerRows, data2: InsurerRows, pairs: seq<Pair>)
    requires WellFormed(data1, data2) && Resolvable(data1, data2, pairs)
    ensures Across(pairs)
  {
    forall p | p in pairs ensures p.broker.ledger == Broker && p.insurer.ledger == Insurer {
      var a :| 0 <= a < |data1| && data1[a].index == p.broker;
      var b :| 0 <= b < |data2| && data2[b].index == p.insurer;
    }
  }

  /** Zipping two lists of equal length pairs every index of each with one of
      the other. */
  lemma ZipIds(index1: seq<Id>, index2: seq<Id>)
    requires |index1| == |index2|
    ensures BrokerIdsOf(Zip(index1, index2)) == set i | i in index1
    ensures InsurerIdsOf(Zip(index1, index2)) == set j | j in index2
  {
    var pairs := Zip(index1, index2);
    forall i | i in index1 ensures i in BrokerIdsOf(pairs) {
      var k :| 0 <= k < |index1| && index1[k] == i;
      assert pairs[k] == Pair(index1[k], index2[k]);
    }
    forall j | j in index2 ensures j in InsurerIdsOf(pairs) {
      var k :| 0 <= k < |index2| && index2[k] == j;
      assert pairs[k] == Pair(index1[k], index2[k]);
    }
  }
}
