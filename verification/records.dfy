/** The two ledgers' rows and the match columns added to them. */
module Records {
  import opened Wrappers
  import opened Ids

  /** The broker sheet's columns that the matching passes read. An empty cell, which
      pandas reads as NaN or NaT, is `None`. */
  datatype BrokerFields = BrokerFields(
    custName: Option<string>,    // CustName
    policyNo: string,            // PolicyNo
    endoNo: string,              // EndoNo
    policyType: Option<string>,  // Policy Type
    odPremium: Option<real>,     // OD Premium
    startDate: Option<string>,   // Policy_StartDate
    expDate: Option<string>      // Exp. Date
  )

  /** The insurer statement's columns that the matching passes read. */
  datatype InsurerFields = InsurerFields(
    insuredCustomerName: Option<string>,  // INSURED_CUSTOMER_NAME
    polNumTxt: string,                    // POL_NUM_TXT
    productName: Option<string>,          // PRODUCT_NAME
    premium: Option<real>,                // APPLICABLE_PREMIUM_AMOUNT
    startDate: Option<string>,            // POLICY_START_DATE
    endDate: Option<string>               // POLICY_END_DATE
  )

  /** The reasons written into `Matching_Attribute`. */
  datatype Tag = PolNumTxtTag | PolicyNoTag | EndoNoTag | CustomerPolicyPremium | CustomerPremiumTenure

  /** The text of a tag as the sheets show it. */
  function TagName(t: Tag): string {
    match t
    case PolNumTxtTag => "POL_NUM_TXT"
    case PolicyNoTag => "PolicyNo"
    case EndoNoTag => "EndoNo"
    case CustomerPolicyPremium => "Customer+Policy+Premium"
    case CustomerPremiumTenure => "Customer+Premium+Tenure"
  }

  /** No two tags share a text, so a `Matching_Attribute` entry names its pass. */
  lemma TagNameInjective(a: Tag, b: Tag)
    ensures TagName(a) == TagName(b) <==> a == b
  {
  }

  /** `Matching_Index` and `Matching_Attribute` before they are joined with ", ". */
  datatype Annotation = Annotation(matchingIndex: seq<Id>, matchingAttribute: seq<Tag>)

  /** A sheet row: its `Index`, its data, and the match columns if it carries them. */
  datatype Row<F> = Row(index: Id, fields: F, annotation: Option<Annotation>)

  /** Row `k` of a freshly read sheet gets the identifier with ordinal `k + 1`. */
  function AssignIds<F>(fields: seq<F>, l: Ledger): (rows: seq<Row<F>>)
    ensures |rows| == |fields|
    ensures forall k :: 0 <= k < |rows| ==>
              rows[k].fields == fields[k] && rows[k].annotation.None? && rows[k].index.ledger == l
    ensures forall k :: 0 <= k < |rows| ==> NumericKey(Render(rows[k].index)) == Some(k + 1)
  {
    var rows := seq(|fields|, k requires 0 <= k < |fields| => Row(Id(l, k + 1), fields[k], None));
    forall k | 0 <= k < |rows|
      ensures NumericKey(Render(rows[k].index)) == Some(k + 1)
    {
      var id := Id(l, k + 1);
      assert rows[k].index == id;
      NumericKeyOfRender(id);
    }
    rows
  }

  /** Row `k` is `Id(l, k + 1)`: the identifiers are distinct and count up from 1. */
  lemma AssignIdsIndex<F>(fields: seq<F>, l: Ledger, k: nat)
    requires k < |fields|
    ensures AssignIds(fields, l)[k] == Row(Id(l, k + 1), fields[k], None)
  {
    NumericKeyOfRender(AssignIds(fields, l)[k].index);
  }

  /** The identifiers of rows `j` and `k` render to the same string only when `j == k`. */
  lemma AssignedIdsDistinct<F>(fields: seq<F>, l: Ledger, j: nat, k: nat)
    requires j < |fields| && k < |fields|
    ensures Render(AssignIds(fields, l)[j].index) == Render(AssignIds(fields, l)[k].index) <==> j == k
  {
    var rows := AssignIds(fields, l);
    RenderInjective(rows[j].index, rows[k].index);
  }

  /** The set of `Index` values of a sheet. */
  function IdSet<F>(rows: seq<Row<F>>): set<Id> {
    set k | 0 <= k < |rows| :: rows[k].index
  }

  /** A row of a sheet has its index among the sheet's indices. */
  lemma RowIndexIn<F>(rows: seq<Row<F>>, r: Row<F>)
    requires r in rows
    ensures r.index in IdSet(rows)
  {
    var k :| 0 <= k < |rows| && rows[k] == r;
  }

  /** The indices of a sheet are its first row's and those of the rest. */
  lemma IdSetCons<F>(rows: seq<Row<F>>)
    requires rows != []
    ensures IdSet(rows) == {rows[0].index} + IdSet(rows[1..])
  {
    forall x | x in IdSet(rows) ensures x in {rows[0].index} + IdSet(rows[1..]) {
      var k :| 0 <= k < |rows| && rows[k].index == x;
      if k > 0 { assert rows[1..][k - 1] == rows[k]; }
    }
    forall x | x in IdSet(rows[1..]) ensures x in IdSet(rows) {
      var k :| 0 <= k < |rows[1..]| && rows[1..][k].index == x;
      assert rows[k + 1] == rows[1..][k];
    }
  }

  /** Concatenating two sheets unites their indices. */
  lemma IdSetAppend<F>(a: seq<Row<F>>, b: seq<Row<F>>)
    ensures IdSet(a + b) == IdSet(a) + IdSet(b)
  {
    forall x | x in IdSet(a + b) ensures x in IdSet(a) + IdSet(b) {
      var k :| 0 <= k < |a + b| && (a + b)[k].index == x;
      if k >= |a| { assert (a + b)[k] == b[k - |a|]; }
    }
    forall x | x in IdSet(b) ensures x in IdSet(a + b) {
      var k :| 0 <= k < |b| && b[k].index == x;
      assert (a + b)[|a| + k] == b[k];
    }
    forall x | x in IdSet(a) ensures x in IdSet(a + b) {
      var k :| 0 <= k < |a| && a[k].index == x;
      assert (a + b)[k] == a[k];
    }
  }

  /** Two sheets holding the same rows, however ordered, hold the same indices. */
  lemma IdSetOfPermutation<F>(a: seq<Row<F>>, b: seq<Row<F>>)
    requires multiset(a) == multiset(b)
    ensures IdSet(a) == IdSet(b)
  {
    forall x | x in IdSet(a) ensures x in IdSet(b) {
      var k :| 0 <= k < |a| && a[k].index == x;
      assert a[k] in multiset(b);
      var j :| 0 <= j < |b| && b[j] == a[k];
    }
    forall x | x in IdSet(b) ensures x in IdSet(a) {
      var k :| 0 <= k < |b| && b[k].index == x;
      assert b[k] in multiset(a);
      var j :| 0 <= j < |a| && a[j] == b[k];
    }
  }

  /** The `Index` column in row order. */
  function IdsOf<F>(rows: seq<Row<F>>): (ids: seq<Id>)
    ensures |ids| == |rows|
    ensures forall k :: 0 <= k < |rows| ==> ids[k] == rows[k].index
  {
    if rows == [] then [] else [rows[0].index] + IdsOf(rows[1..])
  }

  /** No `Index` value occurs twice. */
  predicate DistinctIds<F>(rows: seq<Row<F>>) {
    forall a, b :: 0 <= a < b < |rows| ==> rows[a].index != rows[b].index
  }

  /** A sheet repeats no index exactly when its tail repeats none and its first
      index does not occur in the tail. */
  lemma DistinctIdsCons<F>(rows: seq<Row<F>>)
    requires rows != []
    ensures DistinctIds(rows) <==> DistinctIds(rows[1..]) && rows[0].index !in IdSet(rows[1..])
  {
    var t := rows[1..];
    if DistinctIds(rows) {
      forall a, b | 0 <= a < b < |t| ensures t[a].index != t[b].index {
        assert t[a] == rows[a + 1] && t[b] == rows[b + 1];
      }
      forall k | 0 <= k < |t| ensures t[k].index != rows[0].index {
        assert t[k] == rows[k + 1];
      }
    }
    if DistinctIds(t) && rows[0].index !in IdSet(t) {
      forall a, b | 0 <= a < b < |rows| ensures rows[a].index != rows[b].index {
        assert rows[b] == t[b - 1];
        if a > 0 { assert rows[a] == t[a - 1]; }
      }
    }
  }

  /** Every row belongs to ledger `l`. */
  predicate OnLedger<F>(rows: seq<Row<F>>, l: Ledger) {
    forall k :: 0 <= k < |rows| ==> rows[k].index.ledger == l
  }

  /** The fields of the first row with that index; `None` where the selection is
      empty and the script would raise an `IndexError`. */
  function Lookup<F>(rows: seq<Row<F>>, id: Id): (r: Option<F>)
    ensures r.Some? <==> id in IdSet(rows)
  {
    if rows == [] then None
    else if rows[0].index == id then Some(rows[0].fields)
    else
      var r := Lookup(rows[1..], id);
      IdSetCons(rows);
      r
  }

  /** `Lookup` finds the first row carrying the index; in a sheet without
      duplicate indices, that is the only one. */
  lemma {:induction false} LookupFirst<F>(rows: seq<Row<F>>, k: nat)
    requires k < |rows|
    requires forall j :: 0 <= j < k ==> rows[j].index != rows[k].index
    ensures Lookup(rows, rows[k].index) == Some(rows[k].fields)
  {
    if k > 0 {
      assert forall j :: 0 <= j < k - 1 ==> rows[1..][j] == rows[j + 1];
      LookupFirst(rows[1..], k - 1);
    }
  }

  /** The rows satisfying `keep`, in sheet order. */
  function Select<F>(rows: seq<Row<F>>, keep: Row<F> -> bool): seq<Row<F>> {
    if rows == [] then []
    else (if keep(rows[0]) then [rows[0]] else []) + Select(rows[1..], keep)
  }

  /** The rows failing `keep`, in sheet order. */
  function Reject<F>(rows: seq<Row<F>>, keep: Row<F> -> bool): seq<Row<F>> {
    if rows == [] then []
    else (if keep(rows[0]) then [] else [rows[0]]) + Reject(rows[1..], keep)
  }

  /** A selection holds exactly the rows that pass, in sheet order. */
  lemma {:induction false} SelectMembers<F>(rows: seq<Row<F>>, keep: Row<F> -> bool)
    ensures forall j :: 0 <= j < |Select(rows, keep)| ==>
              keep(Select(rows, keep)[j]) && exists k :: 0 <= k < |rows| && rows[k] == Select(rows, keep)[j]
    ensures forall k :: 0 <= k < |rows| && keep(rows[k]) ==> rows[k] in Select(rows, keep)
  {
    if rows != [] {
      SelectMembers(rows[1..], keep);
      var t := Select(rows[1..], keep);
      var s := Select(rows, keep);
      assert s == (if keep(rows[0]) then [rows[0]] else []) + t;
      forall j | 0 <= j < |s| ensures keep(s[j]) && exists k :: 0 <= k < |rows| && rows[k] == s[j] {
        if !(keep(rows[0]) && j == 0) {
          var j' := if keep(rows[0]) then j - 1 else j;
          assert s[j] == t[j'];
          var k :| 0 <= k < |rows[1..]| && rows[1..][k] == t[j'];
          assert rows[k + 1] == s[j];
        }
      }
      forall k | 0 <= k < |rows| && keep(rows[k]) ensures rows[k] in s {
        if k > 0 {
          assert rows[1..][k - 1] == rows[k];
        }
      }
    }
  }

  /** The indices of a selection are those of the passing rows. */
  lemma SelectIds<F>(rows: seq<Row<F>>, keep: Row<F> -> bool)
    ensures forall x :: x in IdSet(Select(rows, keep)) <==>
              exists k :: 0 <= k < |rows| && rows[k].index == x && keep(rows[k])
  {
    SelectMembers(rows, keep);
    var s := Select(rows, keep);
    forall x ensures x in IdSet(s) <==> exists k :: 0 <= k < |rows| && rows[k].index == x && keep(rows[k]) {
      if x in IdSet(s) {
        var j :| 0 <= j < |s| && s[j].index == x;
        var k :| 0 <= k < |rows| && rows[k] == s[j];
      }
      if exists k :: 0 <= k < |rows| && rows[k].index == x && keep(rows[k]) {
        var k :| 0 <= k < |rows| && rows[k].index == x && keep(rows[k]);
        assert rows[k] in s;
        var j :| 0 <= j < |s| && s[j] == rows[k];
      }
    }
  }

  /** Selecting keeps indices distinct and on the sheet's ledger. */
  lemma {:induction false} SelectKeepsShape<F>(rows: seq<Row<F>>, keep: Row<F> -> bool)
    ensures DistinctIds(rows) ==> DistinctIds(Select(rows, keep))
    ensures forall l :: OnLedger(rows, l) ==> OnLedger(Select(rows, keep), l)
  {
    if rows != [] {
      SelectKeepsShape(rows[1..], keep);
      SelectMembers(rows[1..], keep);
      var t := Select(rows[1..], keep);
      var s := Select(rows, keep);
      assert s == (if keep(rows[0]) then [rows[0]] else []) + t;
      if DistinctIds(rows) {
        assert DistinctIds(rows[1..]);
        forall a, b | 0 <= a < b < |s| ensures s[a].index != s[b].index {
          if keep(rows[0]) && a == 0 {
            assert s[b] == t[b - 1];
            var j :| 0 <= j < |rows[1..]| && rows[1..][j] == t[b - 1];
            assert rows[j + 1] == s[b];
          } else if keep(rows[0]) {
            assert s[a] == t[a - 1] && s[b] == t[b - 1];
          }
        }
      }
      forall l | OnLedger(rows, l) ensures OnLedger(s, l) {
        assert OnLedger(rows[1..], l);
      }
    }
  }

  /** The rows a mask rejects are the rows its complement selects. */
  lemma {:induction false} RejectIsSelect<F>(rows: seq<Row<F>>, keep: Row<F> -> bool, drop: Row<F> -> bool)
    requires forall r :: drop(r) == !keep(r)
    ensures Reject(rows, keep) == Select(rows, drop)
  {
    if rows != [] {
      RejectIsSelect(rows[1..], keep, drop);
    }
  }

  /** A mask and its complement split a sheet without duplicate indices into two
      parts whose indices are disjoint and together make up the sheet's. */
  lemma SelectRejectPartition<F>(rows: seq<Row<F>>, keep: Row<F> -> bool)
    requires DistinctIds(rows)
    ensures IdSet(Select(rows, keep)) + IdSet(Reject(rows, keep)) == IdSet(rows)
    ensures IdSet(Select(rows, keep)) * IdSet(Reject(rows, keep)) == {}
  {
    var drop := (r: Row<F>) => !keep(r);
    RejectIsSelect(rows, keep, drop);
    SelectIds(rows, keep);
    SelectIds(rows, drop);
    forall x | x in IdSet(rows) ensures x in IdSet(Select(rows, keep)) + IdSet(Reject(rows, keep)) {
      var k :| 0 <= k < |rows| && rows[k].index == x;
      if keep(rows[k]) {} else { assert drop(rows[k]); }
    }
    forall x | x in IdSet(Select(rows, keep)) ensures x !in IdSet(Reject(rows, keep)) {
      var a :| 0 <= a < |rows| && rows[a].index == x && keep(rows[a]);
      forall b | 0 <= b < |rows| && rows[b].index == x ensures !drop(rows[b]) {
        assert b == a;
      }
    }
    forall x | x in IdSet(Select(rows, keep)) + IdSet(Reject(rows, keep)) ensures x in IdSet(rows) {
    }
  }

  /** `d[x]` on a dictionary of lists that reads as empty where nothing was
      appended (a `defaultdict(list)`, or one given an empty list per index). */
  function Get<T>(m: map<Id, seq<T>>, x: Id): seq<T> {
    if x in m then m[x] else []
  }

  /** Append `v` to the list kept for `x`. */
  function Append<T>(m: map<Id, seq<T>>, x: Id, v: T): map<Id, seq<T>> {
    m[x := Get(m, x) + [v]]
  }

  lemma GetAppend<T>(m: map<Id, seq<T>>, z: Id, v: T, x: Id)
    ensures Get(Append(m, z, v), x) == Get(m, x) + (if z == x then [v] else [])
  {
  }

  /** Two sheets with the same index column, row by row. */
  predicate SameIndices<F>(a: seq<Row<F>>, b: seq<Row<F>>) {
    |a| == |b| && forall k :: 0 <= k < |a| ==> a[k].index == b[k].index
  }

  /** The match columns of the first row with index `id`: what reading
      `Matching_Index` and `Matching_Attribute` at that index gives. `None` when
      no row has the index, or when that row carries no match columns. */
  function MatchColumns<F>(rows: seq<Row<F>>, id: Id): Option<Annotation> {
    if rows == [] then None
    else if rows[0].index == id then rows[0].annotation
    else MatchColumns(rows[1..], id)
  }

  /** Rewriting only the match columns leaves every lookup of fields unchanged. */
  lemma {:induction false} LookupIgnoresColumns<F>(a: seq<Row<F>>, b: seq<Row<F>>)
    requires |a| == |b|
    requires forall k :: 0 <= k < |a| ==> a[k].index == b[k].index && a[k].fields == b[k].fields
    ensures forall x :: Lookup(a, x) == Lookup(b, x)
  {
    if a != [] {
      assert forall k :: 0 <= k < |a[1..]| ==> a[1..][k] == a[k + 1] && b[1..][k] == b[k + 1];
      LookupIgnoresColumns(a[1..], b[1..]);
    }
  }

  /** When every row's match columns are determined by its index through `cols`,
      reading the columns at an index gives `cols` of it for every index of the
      sheet, and nothing for any other. */
  lemma {:induction false} MatchColumnsByIndex<F>(rows: seq<Row<F>>, cols: Id -> Option<Annotation>)
    requires forall k :: 0 <= k < |rows| ==> rows[k].annotation == cols(rows[k].index)
    ensures forall x :: MatchColumns(rows, x) == if x in IdSet(rows) then cols(x) else None
  {
    if rows != [] {
      assert forall k :: 0 <= k < |rows[1..]| ==> rows[1..][k] == rows[k + 1];
      MatchColumnsByIndex(rows[1..], cols);
      IdSetCons(rows);
    }
  }

  /** Every row gets its `Matching_Index` and `Matching_Attribute` from the two
      dictionaries: the rows and their fields stay as they were, and reading the
      match columns at any index of the sheet gives that index's two lists. */
  function Annotate<F>(rows: seq<Row<F>>, matches: map<Id, seq<Id>>, attributes: map<Id, seq<Tag>>): (r: seq<Row<F>>)
    ensures SameIndices(r, rows)
    ensures forall x :: Lookup(r, x) == Lookup(rows, x)
    ensures forall x :: MatchColumns(r, x) ==
              if x in IdSet(rows) then Some(Annotation(Get(matches, x), Get(attributes, x))) else None
  {
    var r := seq(|rows|, k requires 0 <= k < |rows| =>
      Row(rows[k].index, rows[k].fields, Some(Annotation(Get(matches, rows[k].index), Get(attributes, rows[k].index)))));
    LookupIgnoresColumns(r, rows);
    MatchColumnsByIndex(r, x => Some(Annotation(Get(matches, x), Get(attributes, x))));
    r
  }

  /** A fuzzy pass's columns: `Matching_Index` from the pass's dictionary and the
      one attribute the pass records, at every index of the sheet. */
  function MarkMatched<F>(rows: seq<Row<F>>, matches: map<Id, seq<Id>>, tag: Tag): (r: seq<Row<F>>)
    ensures SameIndices(r, rows)
    ensures forall x :: Lookup(r, x) == Lookup(rows, x)
    ensures forall x :: MatchColumns(r, x) ==
              if x in IdSet(rows) then Some(Annotation(Get(matches, x), [tag])) else None
  {
    var r := seq(|rows|, k requires 0 <= k < |rows| =>
      Row(rows[k].index, rows[k].fields, Some(Annotation(Get(matches, rows[k].index), [tag]))));
    LookupIgnoresColumns(r, rows);
    MatchColumnsByIndex(r, x => Some(Annotation(Get(matches, x), [tag])));
    r
  }

  /** The sheet with its two match columns dropped: the rows and their fields stay
      as they were, and no index carries match columns any more. */
  function DropMatchColumns<F>(rows: seq<Row<F>>): (r: seq<Row<F>>)
    ensures SameIndices(r, rows)
    ensures forall x :: Lookup(r, x) == Lookup(rows, x)
    ensures forall x :: MatchColumns(r, x) == None
  {
    var r := seq(|rows|, k requires 0 <= k < |rows| => Row(rows[k].index, rows[k].fields, None));
    LookupIgnoresColumns(r, rows);
    MatchColumnsByIndex(r, x => None);
    r
  }

  /** In a sheet without repeated indices, looking an index up in a selection
      that keeps it finds what looking it up in the whole sheet finds. */
  lemma LookupSelect<F>(rows: seq<Row<F>>, keep: Row<F> -> bool, id: Id)
    requires DistinctIds(rows) && id in IdSet(Select(rows, keep))
    ensures Lookup(Select(rows, keep), id) == Lookup(rows, id)
  {
    var sel := Select(rows, keep);
    SelectIds(rows, keep);
    SelectMembers(rows, keep);
    SelectKeepsShape(rows, keep);
    var k :| 0 <= k < |rows| && rows[k].index == id && keep(rows[k]);
    LookupFirst(rows, k);
    var j :| 0 <= j < |sel| && sel[j] == rows[k];
    LookupFirst(sel, j);
  }
}
