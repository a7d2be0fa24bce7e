/** The four sheets a pass hands to the next one, and the bookkeeping every fuzzy
    pass ends with: remove the new matches from the unmatched sheets, append them
    to the matched sheets, drop repeated indices and re-sort by index number. */
module LedgerState {
  import opened Wrappers
  import opened Ids
  import opened Records
  import opened Seqs

  /** `Matched_Data.xlsx` and `Unmatched_Data.xlsx`, one sheet per ledger. */
  datatype Ledgers = Ledgers(
    matchedBroker: seq<Row<BrokerFields>>,
    matchedInsurer: seq<Row<InsurerFields>>,
    unmatchedBroker: seq<Row<BrokerFields>>,
    unmatchedInsurer: seq<Row<InsurerFields>>
  )

  /** The number sorted on: `extract_numeric_part` of the rendered index. */
  function Ordinal<F>(r: Row<F>): nat {
    r.index.ordinal
  }

  /** A freshly numbered sheet repeats no index, lies on its ledger and is in index
      order. */
  lemma AssignIdsShape<F>(fields: seq<F>, l: Ledger)
    ensures DistinctIds(AssignIds(fields, l))
    ensures OnLedger(AssignIds(fields, l), l)
    ensures SortedByKey(AssignIds(fields, l), Ordinal)
    ensures forall x: Id :: x in IdSet(AssignIds(fields, l)) <==> x.ledger == l && 1 <= x.ordinal <= |fields|
  {
    var rows := AssignIds(fields, l);
    forall k | 0 <= k < |rows| ensures rows[k].index == Id(l, k + 1) {
      AssignIdsIndex(fields, l, k);
    }
    forall x: Id | x.ledger == l && 1 <= x.ordinal <= |fields| ensures x in IdSet(rows) {
      assert rows[x.ordinal - 1].index == x;
    }
  }

  /** The rows whose index is not the index of any row of `removed`, in order. */
  function Subtract<F>(rows: seq<Row<F>>, removed: seq<Row<F>>): seq<Row<F>> {
    Select(rows, (r: Row<F>) => r.index !in IdSet(removed))
  }

  /** Rows with an index seen before are dropped: the first row with each index survives. */
  function DropDuplicateIndex<F>(rows: seq<Row<F>>, seen: set<Id>): seq<Row<F>> {
    if rows == [] then []
    else if rows[0].index in seen then DropDuplicateIndex(rows[1..], seen)
    else [rows[0]] + DropDuplicateIndex(rows[1..], seen + {rows[0].index})
  }

  /** `pd.concat([prior, added]).drop_duplicates(subset='Index')
      .sort_values(by='Index', key=extract_numeric_part)`. After de-duplication the
      numbers are distinct, so the result does not depend on the sort's stability. */
  function Merge<F>(prior: seq<Row<F>>, added: seq<Row<F>>): seq<Row<F>> {
    SortByKey(DropDuplicateIndex(prior + added, {}), Ordinal)
  }

  /** Removing rows leaves exactly the indices not removed, and keeps the rows'
      contents, order-free shape and ledger. */
  lemma SubtractSpec<F>(rows: seq<Row<F>>, removed: seq<Row<F>>)
    ensures IdSet(Subtract(rows, removed)) == IdSet(rows) - IdSet(removed)
    ensures DistinctIds(rows) ==> DistinctIds(Subtract(rows, removed))
    ensures forall l :: OnLedger(rows, l) ==> OnLedger(Subtract(rows, removed), l)
    ensures forall j :: 0 <= j < |Subtract(rows, removed)| ==>
              exists k :: 0 <= k < |rows| && rows[k] == Subtract(rows, removed)[j]
  {
    var keep := (r: Row<F>) => r.index !in IdSet(removed);
    SelectIds(rows, keep);
    SelectKeepsShape(rows, keep);
    SelectMembers(rows, keep);
  }

  /** De-duplication keeps exactly the indices not already seen. */
  lemma {:induction false} DropDuplicateIndexIds<F>(rows: seq<Row<F>>, seen: set<Id>)
    ensures IdSet(DropDuplicateIndex(rows, seen)) == IdSet(rows) - seen
    ensures IdSet(DropDuplicateIndex(rows, seen)) * seen == {}
  {
    if rows != [] {
      IdSetCons(rows);
      if rows[0].index in seen {
        DropDuplicateIndexIds(rows[1..], seen);
      } else {
        DropDuplicateIndexIds(rows[1..], seen + {rows[0].index});
        IdSetCons(DropDuplicateIndex(rows, seen));
        assert DropDuplicateIndex(rows, seen)[1..] == DropDuplicateIndex(rows[1..], seen + {rows[0].index});
      }
    }
  }

  /** De-duplication leaves no index twice. */
  lemma {:induction false} DropDuplicateIndexDistinct<F>(rows: seq<Row<F>>, seen: set<Id>)
    ensures DistinctIds(DropDuplicateIndex(rows, seen))
  {
    if rows != [] && rows[0].index !in seen {
      var seen' := seen + {rows[0].index};
      var t := DropDuplicateIndex(rows[1..], seen');
      var d := DropDuplicateIndex(rows, seen);
      DropDuplicateIndexDistinct(rows[1..], seen');
      DropDuplicateIndexIds(rows[1..], seen');
      assert d == [rows[0]] + t;
      forall a, b | 0 <= a < b < |d| ensures d[a].index != d[b].index {
        assert d[b] == t[b - 1];
        if a == 0 {
          assert t[b - 1].index in IdSet(t);
        } else {
          assert d[a] == t[a - 1];
        }
      }
    } else if rows != [] {
      DropDuplicateIndexDistinct(rows[1..], seen);
    }
  }

  /** Row `k` is the first row of the sheet carrying its index. */
  predicate FirstWithIndex<F>(rows: seq<Row<F>>, k: nat)
    requires k < |rows|
  {
    forall i :: 0 <= i < k ==> rows[i].index != rows[k].index
  }

  /** Being first with an index in the tail of a sheet carries over to the
      whole sheet when the head has a different index. */
  lemma FirstWithIndexShift<F>(rows: seq<Row<F>>, k: nat)
    requires k + 1 < |rows|
    requires FirstWithIndex(rows[1..], k) && rows[0].index != rows[k + 1].index
    ensures FirstWithIndex(rows, k + 1)
  {
    forall i | 0 <= i < k + 1 ensures rows[i].index != rows[k + 1].index {
      if i > 0 { assert rows[i] == rows[1..][i - 1]; }
    }
  }

  /** `x` is a row of `rows` that is the first with its index. */
  ghost predicate IsFirstRow<F>(x: Row<F>, rows: seq<Row<F>>) {
    exists k :: 0 <= k < |rows| && rows[k] == x && FirstWithIndex(rows, k)
  }

  /** Every row of `d` is a row of `rows` that is the first with its index. */
  ghost predicate FirstRowsOf<F>(d: seq<Row<F>>, rows: seq<Row<F>>) {
    forall j :: 0 <= j < |d| ==> IsFirstRow(d[j], rows)
  }

  /** Rows that are first with their index in the tail of a sheet stay first in
      the whole sheet when the head's index is not among theirs. */
  lemma FirstRowsOfTail<F>(d: seq<Row<F>>, rows: seq<Row<F>>)
    requires rows != [] && FirstRowsOf(d, rows[1..]) && rows[0].index !in IdSet(d)
    ensures FirstRowsOf(d, rows)
  {
    forall j | 0 <= j < |d| ensures IsFirstRow(d[j], rows) {
      var k :| 0 <= k < |rows[1..]| && rows[1..][k] == d[j] && FirstWithIndex(rows[1..], k);
      assert rows[k + 1] == d[j];
      assert d[j].index in IdSet(d);
      FirstWithIndexShift(rows, k);
      assert 0 <= k + 1 < |rows| && rows[k + 1] == d[j] && FirstWithIndex(rows, k + 1);
    }
  }

  /** The head of a sheet is the first row with its index. */
  lemma FirstRowsOfHead<F>(d: seq<Row<F>>, rows: seq<Row<F>>)
    requires rows != [] && FirstRowsOf(d, rows)
    ensures FirstRowsOf([rows[0]] + d, rows)
  {
    var e := [rows[0]] + d;
    forall j | 0 <= j < |e| ensures IsFirstRow(e[j], rows) {
      if j == 0 {
        assert rows[0] == e[0] && FirstWithIndex(rows, 0);
      } else {
        assert e[j] == d[j - 1];
      }
    }
  }

  /** Each surviving row is the first row of the input with its index. */
  lemma {:induction false} DropDuplicateIndexFirst<F>(rows: seq<Row<F>>, seen: set<Id>)
    ensures FirstRowsOf(DropDuplicateIndex(rows, seen), rows)
  {
    if rows != [] {
      var seen' := if rows[0].index in seen then seen else seen + {rows[0].index};
      var t := DropDuplicateIndex(rows[1..], seen');
      DropDuplicateIndexFirst(rows[1..], seen');
      DropDuplicateIndexIds(rows[1..], seen');
      FirstRowsOfTail(t, rows);
      if rows[0].index !in seen {
        FirstRowsOfHead(t, rows);
      }
    }
  }

  /** Inserting a row with a new index into a sheet without repeated indices keeps
      the indices distinct. */
  lemma {:induction false} InsertDistinct<F>(x: Row<F>, s: seq<Row<F>>, key: Row<F> -> nat)
    requires DistinctIds(s) && x.index !in IdSet(s)
    ensures DistinctIds(Insert(x, s, key))
  {
    if s == [] {
    } else if key(x) <= key(s[0]) {
      IdSetCons(s);
      assert ([x] + s)[1..] == s;
      DistinctIdsCons([x] + s);
    } else {
      IdSetCons(s);
      DistinctIdsCons(s);
      InsertDistinct(x, s[1..], key);
      var t := Insert(x, s[1..], key);
      InsertPermutes(x, s[1..], key);
      IdSetOfPermutation(t, [x] + s[1..]);
      IdSetCons([x] + s[1..]);
      assert ([x] + s[1..])[1..] == s[1..];
      assert ([s[0]] + t)[1..] == t;
      DistinctIdsCons([s[0]] + t);
    }
  }

  /** Sorting a sheet without repeated indices leaves none repeated. */
  lemma {:induction false} SortKeepsDistinct<F>(s: seq<Row<F>>, key: Row<F> -> nat)
    requires DistinctIds(s)
    ensures DistinctIds(SortByKey(s, key))
  {
    if s != [] {
      assert DistinctIds(s[1..]) by {
        forall a, b | 0 <= a < b < |s[1..]| ensures s[1..][a].index != s[1..][b].index {
          assert s[1..][a] == s[a + 1] && s[1..][b] == s[b + 1];
        }
      }
      SortKeepsDistinct(s[1..], key);
      SortByKeySpec(s[1..], key);
      IdSetOfPermutation(SortByKey(s[1..], key), s[1..]);
      assert s[0].index !in IdSet(s[1..]) by {
        forall k | 0 <= k < |s[1..]| ensures s[1..][k].index != s[0].index {
          assert s[1..][k] == s[k + 1];
        }
      }
      InsertDistinct(s[0], SortByKey(s[1..], key), key);
    }
  }

  /** The merged matched sheet holds every index of both inputs exactly once, in
      increasing index order, and only rows taken from the inputs. */
  lemma MergeSpec<F>(prior: seq<Row<F>>, added: seq<Row<F>>)
    ensures IdSet(Merge(prior, added)) == IdSet(prior) + IdSet(added)
    ensures DistinctIds(Merge(prior, added))
    ensures SortedByKey(Merge(prior, added), Ordinal)
    ensures forall r :: r in Merge(prior, added) ==> r in prior || r in added
  {
    var d := DropDuplicateIndex(prior + added, {});
    DropDuplicateIndexIds(prior + added, {});
    DropDuplicateIndexDistinct(prior + added, {});
    DropDuplicateIndexFirst(prior + added, {});
    SortByKeySpec(d, Ordinal);
    SortKeepsDistinct(d, Ordinal);
    IdSetOfPermutation(Merge(prior, added), d);
    IdSetAppend(prior, added);
    forall r | r in Merge(prior, added) ensures r in prior || r in added {
      assert r in multiset(d);
      var j :| 0 <= j < |d| && d[j] == r;
      var k :| 0 <= k < |prior + added| && (prior + added)[k] == d[j] && FirstWithIndex(prior + added, k);
      if k < |prior| { assert prior[k] == r; } else { assert added[k - |prior|] == r; }
    }
  }

  /** Both inputs on one ledger: so is the merge. */
  lemma MergeOnLedger<F>(prior: seq<Row<F>>, added: seq<Row<F>>, l: Ledger)
    requires OnLedger(prior, l) && OnLedger(added, l)
    ensures OnLedger(Merge(prior, added), l)
  {
    MergeSpec(prior, added);
    var m := Merge(prior, added);
    forall k | 0 <= k < |m| ensures m[k].index.ledger == l {
      assert m[k] in m;
      if m[k] in prior {
        var i :| 0 <= i < |prior| && prior[i] == m[k];
      } else {
        var i :| 0 <= i < |added| && added[i] == m[k];
      }
    }
  }

  /** A row already on the matched sheet is kept as it was, match columns
      included: a later match of the same index does not overwrite it. */
  lemma MergePriorWins<F>(prior: seq<Row<F>>, added: seq<Row<F>>, p: nat)
    requires p < |prior| && FirstWithIndex(prior, p)
    ensures prior[p] in Merge(prior, added)
  {
    var id := prior[p].index;
    var d := DropDuplicateIndex(prior + added, {});
    var m := Merge(prior, added);
    MergeSpec(prior, added);
    DropDuplicateIndexFirst(prior + added, {});
    SortByKeySpec(d, Ordinal);
    assert id in IdSet(prior);
    assert id in IdSet(m);
    var q :| 0 <= q < |m| && m[q].index == id;
    assert m[q] in multiset(d);
    var j :| 0 <= j < |d| && d[j] == m[q];
    var k :| 0 <= k < |prior + added| && (prior + added)[k] == d[j] && FirstWithIndex(prior + added, k);
    assert (prior + added)[p] == prior[p];
    assert k <= p;
    assert (prior + added)[k] == prior[k];
    assert k == p;
    assert m[q] == prior[p];
  }

  /** A selection of a sheet sorted by index number is still sorted. */
  lemma {:induction false} SelectKeepsSorted<F>(rows: seq<Row<F>>, keep: Row<F> -> bool)
    requires SortedByKey(rows, Ordinal)
    ensures SortedByKey(Select(rows, keep), Ordinal)
  {
    if rows != [] {
      SortedCons(rows[0], rows[1..], Ordinal);
      assert rows == [rows[0]] + rows[1..];
      SelectKeepsSorted(rows[1..], keep);
      var t := Select(rows[1..], keep);
      if keep(rows[0]) {
        SelectMembers(rows[1..], keep);
        forall b | 0 <= b < |t| ensures Ordinal(rows[0]) <= Ordinal(t[b]) {
          var k :| 0 <= k < |rows[1..]| && rows[1..][k] == t[b];
        }
        SortedCons(rows[0], t, Ordinal);
      }
    }
  }

  /** What a matched row carries: at least one matching index, every one of them
      naming a row of the other ledger, and at least one matching attribute. */
  predicate MatchedAnnotation(a: Annotation, l: Ledger) {
    && |a.matchingIndex| > 0
    && (forall i :: 0 <= i < |a.matchingIndex| ==> a.matchingIndex[i].ledger != l)
    && |a.matchingAttribute| > 0
  }

  /** The reconciliation invariant for one ledger whose rows carry the indices
      `all`: the matched and unmatched sheets split those indices between them,
      neither repeats an index, both are in index order, matched rows carry their
      match columns and unmatched rows carry none. */
  predicate Reconciled<F>(matched: seq<Row<F>>, unmatched: seq<Row<F>>, all: set<Id>, l: Ledger) {
    && IdSet(matched) + IdSet(unmatched) == all
    && IdSet(matched) * IdSet(unmatched) == {}
    && DistinctIds(matched) && DistinctIds(unmatched)
    && OnLedger(matched, l) && OnLedger(unmatched, l)
    && SortedByKey(matched, Ordinal) && SortedByKey(unmatched, Ordinal)
    && (forall k :: 0 <= k < |matched| ==>
          matched[k].annotation.Some? && MatchedAnnotation(matched[k].annotation.value, l))
    && (forall k :: 0 <= k < |unmatched| ==> unmatched[k].annotation.None?)
  }

  /** Both ledgers reconciled: broker rows carry `brokerIds`, insurer rows
      `insurerIds`. */
  predicate Invariant(lg: Ledgers, brokerIds: set<Id>, insurerIds: set<Id>) {
    && Reconciled(lg.matchedBroker, lg.unmatchedBroker, brokerIds, Broker)
    && Reconciled(lg.matchedInsurer, lg.unmatchedInsurer, insurerIds, Insurer)
  }

  /** The end of a fuzzy pass on one ledger: move the newly matched rows, each taken
      from the unmatched sheet and now carrying its match columns, onto the matched
      sheet. */
  function Move<F>(matched: seq<Row<F>>, unmatched: seq<Row<F>>, added: seq<Row<F>>): (seq<Row<F>>, seq<Row<F>>) {
    (Merge(matched, added), Subtract(unmatched, added))
  }

  /** Moving rows keeps the reconciliation invariant, and the rows moved are exactly
      the ones that leave the unmatched sheet. */
  lemma MoveKeepsReconciled<F>(matched: seq<Row<F>>, unmatched: seq<Row<F>>, added: seq<Row<F>>, all: set<Id>, l: Ledger)
    requires Reconciled(matched, unmatched, all, l)
    requires IdSet(added) <= IdSet(unmatched)
    requires forall k :: 0 <= k < |added| ==>
               added[k].annotation.Some? && MatchedAnnotation(added[k].annotation.value, l)
    ensures Reconciled(Move(matched, unmatched, added).0, Move(matched, unmatched, added).1, all, l)
    ensures IdSet(Move(matched, unmatched, added).0) == IdSet(matched) + IdSet(added)
    ensures IdSet(Move(matched, unmatched, added).1) == IdSet(unmatched) - IdSet(added)
  {
    var m := Merge(matched, added);
    var u := Subtract(unmatched, added);
    MergeSpec(matched, added);
    SubtractSpec(unmatched, added);
    assert OnLedger(added, l) by {
      forall k | 0 <= k < |added| ensures added[k].index.ledger == l {
        assert added[k].index in IdSet(unmatched);
        var j :| 0 <= j < |unmatched| && unmatched[j].index == added[k].index;
      }
    }
    MergeOnLedger(matched, added, l);
    SelectKeepsSorted(unmatched, (r: Row<F>) => r.index !in IdSet(added));
    forall k | 0 <= k < |m| ensures m[k].annotation.Some? && MatchedAnnotation(m[k].annotation.value, l) {
      assert m[k] in m;
      if m[k] in matched {
        var i :| 0 <= i < |matched| && matched[i] == m[k];
      } else {
        var i :| 0 <= i < |added| && added[i] == m[k];
      }
    }
    forall k | 0 <= k < |u| ensures u[k].annotation.None? {
      var i :| 0 <= i < |unmatched| && unmatched[i] == u[k];
    }
  }

  /** Every row of `a`, unchanged, is a row of `b`. */
  ghost predicate Kept<F>(a: seq<Row<F>>, b: seq<Row<F>>) {
    forall p :: 0 <= p < |a| ==> a[p] in b
  }

  lemma KeptTransitive<F>(a: seq<Row<F>>, b: seq<Row<F>>, c: seq<Row<F>>)
    requires Kept(a, b) && Kept(b, c)
    ensures Kept(a, c)
  {
    forall p | 0 <= p < |a| ensures a[p] in c {
      var q :| 0 <= q < |b| && b[q] == a[p];
    }
  }

  /** Moving rows never takes a row off the matched sheet nor changes one there,
      and the matched sheet still repeats no index. */
  lemma MoveKeepsMatched<F>(matched: seq<Row<F>>, unmatched: seq<Row<F>>, added: seq<Row<F>>)
    requires DistinctIds(matched)
    ensures Kept(matched, Move(matched, unmatched, added).0)
    ensures DistinctIds(Move(matched, unmatched, added).0)
  {
    MergeSpec(matched, added);
    forall p | 0 <= p < |matched| ensures matched[p] in Move(matched, unmatched, added).0 {
      MergePriorWins(matched, added, p);
    }
  }

  /** Changing only the match columns keeps everything the invariant says about
      indices. */
  lemma SameIndicesShape<F>(a: seq<Row<F>>, b: seq<Row<F>>, l: Ledger)
    requires SameIndices(a, b)
    ensures IdSet(a) == IdSet(b)
    ensures DistinctIds(a) <==> DistinctIds(b)
    ensures OnLedger(a, l) <==> OnLedger(b, l)
    ensures SortedByKey(a, Ordinal) <==> SortedByKey(b, Ordinal)
  {
  }

  /** Splitting an annotated sheet by a mask that only lets through rows with
      proper match columns gives a reconciled pair of sheets, once the columns are
      dropped from the rest. */
  lemma SplitReconciled<F>(data: seq<Row<F>>, hit: Row<F> -> bool, l: Ledger)
    requires DistinctIds(data) && OnLedger(data, l) && SortedByKey(data, Ordinal)
    requires forall k :: 0 <= k < |data| && hit(data[k]) ==>
               data[k].annotation.Some? && MatchedAnnotation(data[k].annotation.value, l)
    ensures Reconciled(Select(data, hit), DropMatchColumns(Reject(data, hit)), IdSet(data), l)
  {
    var miss := (r: Row<F>) => !hit(r);
    var m := Select(data, hit);
    var u := Reject(data, hit);
    SelectRejectPartition(data, hit);
    SelectKeepsShape(data, hit);
    SelectKeepsSorted(data, hit);
    SelectMembers(data, hit);
    RejectIsSelect(data, hit, miss);
    SelectKeepsShape(data, miss);
    SelectKeepsSorted(data, miss);
    SameIndicesShape(DropMatchColumns(u), u, l);
    forall k | 0 <= k < |m| ensures m[k].annotation.Some? && MatchedAnnotation(m[k].annotation.value, l) {
      var j :| 0 <= j < |data| && data[j] == m[k];
    }
  }
}
