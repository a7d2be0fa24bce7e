/** The first pass: exact matching of policy and endorsement numbers. Both script
    variants (`Pol_no+End_no.py`, which asks for the two files, and
    `Policy_no+Endorsement_no.py`, which is handed them) run the same matching. */
module ExactIdPass {
  import opened Wrappers
  import opened Ids
  import opened Records
  import opened Seqs
  import opened LedgerState
  import opened MatchBook

  /** The broker column a check reads. */
  function BrokerKey(c: Check, f: BrokerFields): string {
    match c
    case PolicyCheck => f.policyNo
    case EndorsementCheck => f.endoNo
  }

  /** The set of values in the broker column a check reads. */
  function BrokerValues(c: Check, brokers: seq<Row<BrokerFields>>): set<string> {
    set k | 0 <= k < |brokers| :: BrokerKey(c, brokers[k].fields)
  }

  /** The set of the insurer sheet's `POL_NUM_TXT` values. */
  function InsurerValues(insurers: seq<Row<InsurerFields>>): set<string> {
    set k | 0 <= k < |insurers| :: insurers[k].fields.polNumTxt
  }

  /** The values a check finds on both sheets. */
  function CommonValues(c: Check, brokers: seq<Row<BrokerFields>>, insurers: seq<Row<InsurerFields>>): set<string> {
    BrokerValues(c, brokers) * InsurerValues(insurers)
  }

  /** The broker indices whose checked column equals `v`, in order. */
  function BrokersWith(c: Check, brokers: seq<Row<BrokerFields>>, v: string): seq<Id> {
    if brokers == [] then []
    else (if BrokerKey(c, brokers[0].fields) == v then [brokers[0].index] else []) + BrokersWith(c, brokers[1..], v)
  }

  /** The insurer indices whose `POL_NUM_TXT` equals `v`, in order. */
  function InsurersWith(insurers: seq<Row<InsurerFields>>, v: string): seq<Id> {
    if insurers == [] then []
    else (if insurers[0].fields.polNumTxt == v then [insurers[0].index] else []) + InsurersWith(insurers[1..], v)
  }

  /** One broker index linked to each of a list of insurer indices, in order. */
  function Fan(i1: Id, i2s: seq<Id>, c: Check): seq<Link> {
    if i2s == [] then [] else [Link(i1, i2s[0], c)] + Fan(i1, i2s[1..], c)
  }

  /** Every broker index of a list linked to every insurer index of another, broker-major. */
  function Block(i1s: seq<Id>, i2s: seq<Id>, c: Check): seq<Link> {
    if i1s == [] then [] else Fan(i1s[0], i2s, c) + Block(i1s[1..], i2s, c)
  }

  /** The links one check makes, visiting the common values in `order`. The script
      visits a set in an order of its own; `order` stands for it. */
  function CheckLinks(c: Check, brokers: seq<Row<BrokerFields>>, insurers: seq<Row<InsurerFields>>, order: seq<string>): seq<Link> {
    if order == [] then []
    else Block(BrokersWith(c, brokers, order[0]), InsurersWith(insurers, order[0]), c)
         + CheckLinks(c, brokers, insurers, order[1..])
  }

  /** `order` visits every element of `s` exactly once. */
  predicate Enumerates(order: seq<string>, s: set<string>) {
    NoDup(order) && (forall v :: v in order ==> v in s) && (forall v :: v in s ==> v in order)
  }

  lemma {:induction false} BrokersWithMember(c: Check, brokers: seq<Row<BrokerFields>>, v: string)
    ensures forall x :: x in BrokersWith(c, brokers, v) <==>
              exists k :: 0 <= k < |brokers| && brokers[k].index == x && BrokerKey(c, brokers[k].fields) == v
  {
    if brokers != [] {
      BrokersWithMember(c, brokers[1..], v);
      forall x ensures x in BrokersWith(c, brokers, v) <==>
                 exists k :: 0 <= k < |brokers| && brokers[k].index == x && BrokerKey(c, brokers[k].fields) == v
      {
        if exists k :: 0 <= k < |brokers| && brokers[k].index == x && BrokerKey(c, brokers[k].fields) == v {
          var k :| 0 <= k < |brokers| && brokers[k].index == x && BrokerKey(c, brokers[k].fields) == v;
          if k > 0 { assert brokers[1..][k - 1] == brokers[k]; }
        }
        if x in BrokersWith(c, brokers[1..], v) {
          var k :| 0 <= k < |brokers[1..]| && brokers[1..][k].index == x && BrokerKey(c, brokers[1..][k].fields) == v;
          assert brokers[k + 1] == brokers[1..][k];
        }
      }
    }
  }

  lemma {:induction false} BrokersWithNoDup(c: Check, brokers: seq<Row<BrokerFields>>, v: string)
    requires DistinctIds(brokers)
    ensures NoDup(BrokersWith(c, brokers, v))
  {
    if brokers != [] {
      DistinctIdsCons(brokers);
      BrokersWithNoDup(c, brokers[1..], v);
      BrokersWithMember(c, brokers[1..], v);
      var t := BrokersWith(c, brokers[1..], v);
      if BrokerKey(c, brokers[0].fields) == v {
        assert brokers[0].index !in t;
        NoDupAppend([brokers[0].index], t);
      }
    }
  }

  /** `index1_list` lists exactly the broker rows whose checked column is `v`,
      each once when the sheet repeats no index. */
  lemma BrokersWithSpec(c: Check, brokers: seq<Row<BrokerFields>>, v: string)
    ensures forall x :: x in BrokersWith(c, brokers, v) <==>
              exists k :: 0 <= k < |brokers| && brokers[k].index == x && BrokerKey(c, brokers[k].fields) == v
    ensures DistinctIds(brokers) ==> NoDup(BrokersWith(c, brokers, v))
  {
    BrokersWithMember(c, brokers, v);
    if DistinctIds(brokers) {
      BrokersWithNoDup(c, brokers, v);
    }
  }

  /** In a sheet without repeated indices, a broker row is listed for `v` exactly
      when its checked column is `v`. */
  lemma BrokersWithRow(c: Check, brokers: seq<Row<BrokerFields>>, v: string, k: nat)
    requires DistinctIds(brokers) && k < |brokers|
    ensures brokers[k].index in BrokersWith(c, brokers, v) <==> BrokerKey(c, brokers[k].fields) == v
  {
    BrokersWithMember(c, brokers, v);
    if brokers[k].index in BrokersWith(c, brokers, v) {
      var j :| 0 <= j < |brokers| && brokers[j].index == brokers[k].index && BrokerKey(c, brokers[j].fields) == v;
      assert j == k by {
        if j < k || k < j { }
      }
    }
  }

  lemma {:induction false} InsurersWithMember(insurers: seq<Row<InsurerFields>>, v: string)
    ensures forall y :: y in InsurersWith(insurers, v) <==>
              exists k :: 0 <= k < |insurers| && insurers[k].index == y && insurers[k].fields.polNumTxt == v
  {
    if insurers != [] {
      InsurersWithMember(insurers[1..], v);
      forall y ensures y in InsurersWith(insurers, v) <==>
                 exists k :: 0 <= k < |insurers| && insurers[k].index == y && insurers[k].fields.polNumTxt == v
      {
        if exists k :: 0 <= k < |insurers| && insurers[k].index == y && insurers[k].fields.polNumTxt == v {
          var k :| 0 <= k < |insurers| && insurers[k].index == y && insurers[k].fields.polNumTxt == v;
          if k > 0 { assert insurers[1..][k - 1] == insurers[k]; }
        }
        if y in InsurersWith(insurers[1..], v) {
          var k :| 0 <= k < |insurers[1..]| && insurers[1..][k].index == y && insurers[1..][k].fields.polNumTxt == v;
          assert insurers[k + 1] == insurers[1..][k];
        }
      }
    }
  }

  lemma {:induction false} InsurersWithNoDup(insurers: seq<Row<InsurerFields>>, v: string)
    requires DistinctIds(insurers)
    ensures NoDup(InsurersWith(insurers, v))
  {
    if insurers != [] {
      DistinctIdsCons(insurers);
      InsurersWithNoDup(insurers[1..], v);
      InsurersWithMember(insurers[1..], v);
      var t := InsurersWith(insurers[1..], v);
      if insurers[0].fields.polNumTxt == v {
        assert insurers[0].index !in t;
        NoDupAppend([insurers[0].index], t);
      }
    }
  }

  /** `index2_list` lists exactly the insurer rows whose `POL_NUM_TXT` is `v`, each
      once when the sheet repeats no index. */
  lemma InsurersWithSpec(insurers: seq<Row<InsurerFields>>, v: string)
    ensures forall y :: y in InsurersWith(insurers, v) <==>
              exists k :: 0 <= k < |insurers| && insurers[k].index == y && insurers[k].fields.polNumTxt == v
    ensures DistinctIds(insurers) ==> NoDup(InsurersWith(insurers, v))
    ensures InsurersWith(insurers, v) == [] <==> v !in InsurerValues(insurers)
  {
    InsurersWithMember(insurers, v);
    if DistinctIds(insurers) {
      InsurersWithNoDup(insurers, v);
    }
    if v in InsurerValues(insurers) {
      var k :| 0 <= k < |insurers| && insurers[k].fields.polNumTxt == v;
      assert insurers[k].index in InsurersWith(insurers, v);
    }
  }

  /** In a sheet without repeated indices, an insurer row is listed for `v`
      exactly when its `POL_NUM_TXT` is `v`. */
  lemma InsurersWithRow(insurers: seq<Row<InsurerFields>>, v: string, k: nat)
    requires DistinctIds(insurers) && k < |insurers|
    ensures insurers[k].index in InsurersWith(insurers, v) <==> insurers[k].fields.polNumTxt == v
  {
    InsurersWithMember(insurers, v);
    if insurers[k].index in InsurersWith(insurers, v) {
      var j :| 0 <= j < |insurers| && insurers[j].index == insurers[k].index && insurers[j].fields.polNumTxt == v;
      assert j == k by {
        if j < k || k < j { }
      }
    }
  }

  /** The innermost loop gives broker `i1` every insurer of `i2s`, in order. */
  lemma {:induction false} FanBrokerPartners(i1: Id, i2s: seq<Id>, c: Check, x: Id)
    ensures PartnersOf(Fan(i1, i2s, c), BrokerSide, x) == if i1 == x then i2s else []
  {
    if i2s != [] {
      FanBrokerPartners(i1, i2s[1..], c, x);
      assert PartnersOf(Fan(i1, i2s, c), BrokerSide, x)
          == (if i1 == x then [i2s[0]] else []) + PartnersOf(Fan(i1, i2s[1..], c), BrokerSide, x);
      if i1 == x { assert i2s == [i2s[0]] + i2s[1..]; }
    }
  }

  /** The innermost loop gives an insurer of `i2s` the broker `i1`, once. */
  lemma {:induction false} FanInsurerPartners(i1: Id, i2s: seq<Id>, c: Check, x: Id)
    requires NoDup(i2s)
    ensures PartnersOf(Fan(i1, i2s, c), InsurerSide, x) == if x in i2s then [i1] else []
  {
    if i2s != [] {
      NoDupCons(i2s);
      FanInsurerPartners(i1, i2s[1..], c, x);
      assert PartnersOf(Fan(i1, i2s, c), InsurerSide, x)
          == (if i2s[0] == x then [i1] else []) + PartnersOf(Fan(i1, i2s[1..], c), InsurerSide, x);
      assert x in i2s <==> x == i2s[0] || x in i2s[1..];
    }
  }

  /** One common value's double loop gives a broker index in `i1s` every insurer
      in `i2s`, in loop order ... */
  lemma {:induction false} BlockBrokerPartners(i1s: seq<Id>, i2s: seq<Id>, c: Check, x: Id)
    requires NoDup(i1s) && NoDup(i2s)
    ensures PartnersOf(Block(i1s, i2s, c), BrokerSide, x) == if x in i1s then i2s else []
  {
    if i1s != [] {
      NoDupCons(i1s);
      BlockBrokerPartners(i1s[1..], i2s, c, x);
      FanBrokerPartners(i1s[0], i2s, c, x);
      PartnersOfConcat(Fan(i1s[0], i2s, c), Block(i1s[1..], i2s, c), BrokerSide, x);
      assert x in i1s <==> x == i1s[0] || x in i1s[1..];
    }
  }

  /** ... and an insurer index in `i2s` every broker in `i1s`. */
  lemma {:induction false} BlockInsurerPartners(i1s: seq<Id>, i2s: seq<Id>, c: Check, x: Id)
    requires NoDup(i2s)
    ensures PartnersOf(Block(i1s, i2s, c), InsurerSide, x) == if x in i2s then i1s else []
  {
    if i1s != [] {
      BlockInsurerPartners(i1s[1..], i2s, c, x);
      FanInsurerPartners(i1s[0], i2s, c, x);
      PartnersOfConcat(Fan(i1s[0], i2s, c), Block(i1s[1..], i2s, c), InsurerSide, x);
      if x in i2s { assert i1s == [i1s[0]] + i1s[1..]; }
    }
  }

  /** Every link a check produces carries that check. */
  lemma {:induction false} CheckLinksCheck(c: Check, brokers: seq<Row<BrokerFields>>, insurers: seq<Row<InsurerFields>>, order: seq<string>)
    ensures forall k :: 0 <= k < |CheckLinks(c, brokers, insurers, order)| ==> CheckLinks(c, brokers, insurers, order)[k].check == c
  {
    if order != [] {
      CheckLinksCheck(c, brokers, insurers, order[1..]);
      BlockCheck(BrokersWith(c, brokers, order[0]), InsurersWith(insurers, order[0]), c);
    }
  }

  lemma {:induction false} BlockCheck(i1s: seq<Id>, i2s: seq<Id>, c: Check)
    ensures forall k :: 0 <= k < |Block(i1s, i2s, c)| ==> Block(i1s, i2s, c)[k].check == c
  {
    if i1s != [] {
      BlockCheck(i1s[1..], i2s, c);
      FanCheck(i1s[0], i2s, c);
    }
  }

  lemma {:induction false} FanCheck(i1: Id, i2s: seq<Id>, c: Check)
    ensures |Fan(i1, i2s, c)| == |i2s|
    ensures forall k :: 0 <= k < |i2s| ==> Fan(i1, i2s, c)[k] == Link(i1, i2s[k], c)
  {
    if i2s != [] {
      FanCheck(i1, i2s[1..], c);
    }
  }

  /** The links of a visit: the first value's double loop, then the rest. */
  lemma CheckLinksCons(c: Check, brokers: seq<Row<BrokerFields>>, insurers: seq<Row<InsurerFields>>, order: seq<string>)
    requires order != []
    ensures CheckLinks(c, brokers, insurers, order)
         == Block(BrokersWith(c, brokers, order[0]), InsurersWith(insurers, order[0]), c) + CheckLinks(c, brokers, insurers, order[1..])
  {
  }

  /** Visiting one more value adds, for broker row `k`, the insurers sharing that
      value when it is the row's own checked column, and nothing otherwise. */
  lemma CheckLinksBrokerStep(c: Check, brokers: seq<Row<BrokerFields>>, insurers: seq<Row<InsurerFields>>, order: seq<string>, k: nat)
    requires DistinctIds(brokers) && DistinctIds(insurers) && order != [] && k < |brokers|
    ensures PartnersOf(CheckLinks(c, brokers, insurers, order), BrokerSide, brokers[k].index)
         == (if BrokerKey(c, brokers[k].fields) == order[0] then InsurersWith(insurers, order[0]) else [])
          + PartnersOf(CheckLinks(c, brokers, insurers, order[1..]), BrokerSide, brokers[k].index)
  {
    var v := order[0];
    var i1s := BrokersWith(c, brokers, v);
    var i2s := InsurersWith(insurers, v);
    CheckLinksCons(c, brokers, insurers, order);
    BrokersWithNoDup(c, brokers, v);
    InsurersWithNoDup(insurers, v);
    BrokersWithRow(c, brokers, v, k);
    BlockBrokerPartners(i1s, i2s, c, brokers[k].index);
    PartnersOfConcat(Block(i1s, i2s, c), CheckLinks(c, brokers, insurers, order[1..]), BrokerSide, brokers[k].index);
  }

  /** Visiting one more value adds, for insurer row `k`, the brokers listed for
      that value when it is the row's `POL_NUM_TXT`, and nothing otherwise. */
  lemma CheckLinksInsurerStep(c: Check, brokers: seq<Row<BrokerFields>>, insurers: seq<Row<InsurerFields>>, order: seq<string>, k: nat)
    requires DistinctIds(insurers) && order != [] && k < |insurers|
    ensures PartnersOf(CheckLinks(c, brokers, insurers, order), InsurerSide, insurers[k].index)
         == (if insurers[k].fields.polNumTxt == order[0] then BrokersWith(c, brokers, order[0]) else [])
          + PartnersOf(CheckLinks(c, brokers, insurers, order[1..]), InsurerSide, insurers[k].index)
  {
    var v := order[0];
    var i1s := BrokersWith(c, brokers, v);
    var i2s := InsurersWith(insurers, v);
    CheckLinksCons(c, brokers, insurers, order);
    InsurersWithNoDup(insurers, v);
    InsurersWithRow(insurers, v, k);
    BlockInsurerPartners(i1s, i2s, c, insurers[k].index);
    PartnersOfConcat(Block(i1s, i2s, c), CheckLinks(c, brokers, insurers, order[1..]), InsurerSide, insurers[k].index);
  }

  /** Along one check, broker row `k` is linked to the insurers sharing its checked
      column, provided that value is visited. */
  lemma {:induction false} CheckLinksBrokerRow(c: Check, brokers: seq<Row<BrokerFields>>, insurers: seq<Row<InsurerFields>>, order: seq<string>, k: nat)
    requires DistinctIds(brokers) && DistinctIds(insurers) && NoDup(order) && k < |brokers|
    ensures PartnersOf(CheckLinks(c, brokers, insurers, order), BrokerSide, brokers[k].index)
         == if BrokerKey(c, brokers[k].fields) in order then InsurersWith(insurers, BrokerKey(c, brokers[k].fields)) else []
  {
    if order != [] {
      NoDupCons(order);
      CheckLinksBrokerRow(c, brokers, insurers, order[1..], k);
      CheckLinksBrokerStep(c, brokers, insurers, order, k);
      assert BrokerKey(c, brokers[k].fields) in order
         <==> BrokerKey(c, brokers[k].fields) == order[0] || BrokerKey(c, brokers[k].fields) in order[1..];
    }
  }

  /** Along one check, insurer row `k` is linked to the brokers whose checked column
      equals its `POL_NUM_TXT`, provided that value is visited. */
  lemma {:induction false} CheckLinksInsurerRow(c: Check, brokers: seq<Row<BrokerFields>>, insurers: seq<Row<InsurerFields>>, order: seq<string>, k: nat)
    requires DistinctIds(brokers) && DistinctIds(insurers) && NoDup(order) && k < |insurers|
    ensures PartnersOf(CheckLinks(c, brokers, insurers, order), InsurerSide, insurers[k].index)
         == if insurers[k].fields.polNumTxt in order then BrokersWith(c, brokers, insurers[k].fields.polNumTxt) else []
  {
    if order != [] {
      NoDupCons(order);
      CheckLinksInsurerRow(c, brokers, insurers, order[1..], k);
      CheckLinksInsurerStep(c, brokers, insurers, order, k);
      assert insurers[k].fields.polNumTxt in order
         <==> insurers[k].fields.polNumTxt == order[0] || insurers[k].fields.polNumTxt in order[1..];
    }
  }

  /** The broker column's values that the insurer sheet also has, in order of first
      appearance: the order in which the model visits a set of common values. */
  function Visit(c: Check, brokers: seq<Row<BrokerFields>>, insurers: seq<Row<InsurerFields>>): seq<string> {
    Unique(KeysInCommon(c, brokers, insurers))
  }

  function KeysInCommon(c: Check, brokers: seq<Row<BrokerFields>>, insurers: seq<Row<InsurerFields>>): seq<string> {
    if brokers == [] then []
    else (if BrokerKey(c, brokers[0].fields) in InsurerValues(insurers) then [BrokerKey(c, brokers[0].fields)] else [])
         + KeysInCommon(c, brokers[1..], insurers)
  }

  lemma {:induction false} KeysInCommonSpec(c: Check, brokers: seq<Row<BrokerFields>>, insurers: seq<Row<InsurerFields>>)
    ensures forall v :: v in KeysInCommon(c, brokers, insurers) <==> v in CommonValues(c, brokers, insurers)
  {
    if brokers != [] {
      KeysInCommonSpec(c, brokers[1..], insurers);
      assert BrokerValues(c, brokers) == {BrokerKey(c, brokers[0].fields)} + BrokerValues(c, brokers[1..]) by {
        forall w | w in BrokerValues(c, brokers) ensures w in {BrokerKey(c, brokers[0].fields)} + BrokerValues(c, brokers[1..]) {
          var k :| 0 <= k < |brokers| && BrokerKey(c, brokers[k].fields) == w;
          if k > 0 { assert brokers[1..][k - 1] == brokers[k]; }
        }
        forall w | w in BrokerValues(c, brokers[1..]) ensures w in BrokerValues(c, brokers) {
          var k :| 0 <= k < |brokers[1..]| && BrokerKey(c, brokers[1..][k].fields) == w;
          assert brokers[k + 1] == brokers[1..][k];
        }
      }
    }
  }

  /** The visiting order is an enumeration of the common values. */
  lemma VisitEnumerates(c: Check, brokers: seq<Row<BrokerFields>>, insurers: seq<Row<InsurerFields>>)
    ensures Enumerates(Visit(c, brokers, insurers), CommonValues(c, brokers, insurers))
  {
    KeysInCommonSpec(c, brokers, insurers);
    UniqueSpec(KeysInCommon(c, brokers, insurers));
  }

  /** Both checks, policy numbers first, each visiting its common values in the
      given order. */
  function LinksIn(brokers: seq<Row<BrokerFields>>, insurers: seq<Row<InsurerFields>>, policyOrder: seq<string>, endoOrder: seq<string>): seq<Link> {
    CheckLinks(PolicyCheck, brokers, insurers, policyOrder) + CheckLinks(EndorsementCheck, brokers, insurers, endoOrder)
  }

  /** Broker row `k`'s expected matches: the insurers whose `POL_NUM_TXT` equals its
      `PolicyNo`, then those whose `POL_NUM_TXT` equals its `EndoNo`. */
  function BrokerMatchesOf(insurers: seq<Row<InsurerFields>>, f: BrokerFields): seq<Id> {
    InsurersWith(insurers, f.policyNo) + InsurersWith(insurers, f.endoNo)
  }

  /** Insurer row `k`'s expected matches: the brokers whose `PolicyNo` equals its
      `POL_NUM_TXT`, then those whose `EndoNo` does. */
  function CompanyMatchesOf(brokers: seq<Row<BrokerFields>>, f: InsurerFields): seq<Id> {
    BrokersWith(PolicyCheck, brokers, f.polNumTxt) + BrokersWith(EndorsementCheck, brokers, f.polNumTxt)
  }

  /** The insurer row's attributes: `PolicyNo` per policy match, then `EndoNo` per
      endorsement match. */
  function CompanyAttributesOf(brokers: seq<Row<BrokerFields>>, f: InsurerFields): seq<Tag> {
    Repeat(PolicyNoTag, |BrokersWith(PolicyCheck, brokers, f.polNumTxt)|)
    + Repeat(EndoNoTag, |BrokersWith(EndorsementCheck, brokers, f.polNumTxt)|)
  }

  /** Visiting an enumeration of the common values, one check links broker row `k`
      to every insurer sharing its checked column. */
  lemma CheckBrokerRow(c: Check, brokers: seq<Row<BrokerFields>>, insurers: seq<Row<InsurerFields>>, order: seq<string>, k: nat)
    requires DistinctIds(brokers) && DistinctIds(insurers) && k < |brokers|
    requires Enumerates(order, CommonValues(c, brokers, insurers))
    ensures PartnersOf(CheckLinks(c, brokers, insurers, order), BrokerSide, brokers[k].index)
         == InsurersWith(insurers, BrokerKey(c, brokers[k].fields))
  {
    CheckLinksBrokerRow(c, brokers, insurers, order, k);
    InsurersWithSpec(insurers, BrokerKey(c, brokers[k].fields));
    assert BrokerKey(c, brokers[k].fields) in BrokerValues(c, brokers);
  }

  /** Visiting an enumeration of the common values, one check links insurer row `k`
      to every broker whose checked column equals its `POL_NUM_TXT`. */
  lemma CheckInsurerRow(c: Check, brokers: seq<Row<BrokerFields>>, insurers: seq<Row<InsurerFields>>, order: seq<string>, k: nat)
    requires DistinctIds(brokers) && DistinctIds(insurers) && k < |insurers|
    requires Enumerates(order, CommonValues(c, brokers, insurers))
    ensures PartnersOf(CheckLinks(c, brokers, insurers, order), InsurerSide, insurers[k].index)
         == BrokersWith(c, brokers, insurers[k].fields.polNumTxt)
  {
    var v := insurers[k].fields.polNumTxt;
    CheckLinksInsurerRow(c, brokers, insurers, order, k);
    BrokersWithSpec(c, brokers, v);
    assert v in InsurerValues(insurers);
    if BrokersWith(c, brokers, v) != [] {
      assert BrokersWith(c, brokers, v)[0] in BrokersWith(c, brokers, v);
    }
  }

  lemma EmptyBookGet(brokers: seq<Row<BrokerFields>>, insurers: seq<Row<InsurerFields>>, x: Id)
    ensures Get(EmptyBook(brokers, insurers).brokerMatches, x) == []
    ensures Get(EmptyBook(brokers, insurers).companyMatches, x) == []
    ensures Get(EmptyBook(brokers, insurers).brokerAttributes, x) == []
    ensures Get(EmptyBook(brokers, insurers).companyAttributes, x) == []
  {
  }

  /** Whatever order Python visits the two sets of common values in, broker row `k`
      ends with its expected matches and one `POL_NUM_TXT` attribute per match. */
  lemma BookBrokerRow(brokers: seq<Row<BrokerFields>>, insurers: seq<Row<InsurerFields>>, policyOrder: seq<string>, endoOrder: seq<string>, k: nat)
    requires DistinctIds(brokers) && DistinctIds(insurers) && k < |brokers|
    requires Enumerates(policyOrder, CommonValues(PolicyCheck, brokers, insurers))
    requires Enumerates(endoOrder, CommonValues(EndorsementCheck, brokers, insurers))
    ensures Get(Record(EmptyBook(brokers, insurers), LinksIn(brokers, insurers, policyOrder, endoOrder)).brokerMatches, brokers[k].index)
         == BrokerMatchesOf(insurers, brokers[k].fields)
    ensures Get(Record(EmptyBook(brokers, insurers), LinksIn(brokers, insurers, policyOrder, endoOrder)).brokerAttributes, brokers[k].index)
         == Repeat(PolNumTxtTag, |BrokerMatchesOf(insurers, brokers[k].fields)|)
  {
    var x := brokers[k].index;
    var p := CheckLinks(PolicyCheck, brokers, insurers, policyOrder);
    var e := CheckLinks(EndorsementCheck, brokers, insurers, endoOrder);
    EmptyBookGet(brokers, insurers, x);
    RecordPartnersSpec(EmptyBook(brokers, insurers).brokerMatches, p + e, BrokerSide, x);
    RecordTagsSpec(EmptyBook(brokers, insurers).brokerAttributes, p + e, BrokerSide, x);
    PartnersOfAppend(p, e, BrokerSide, x);
    CheckBrokerRow(PolicyCheck, brokers, insurers, policyOrder, k);
    CheckBrokerRow(EndorsementCheck, brokers, insurers, endoOrder, k);
    BrokerTagsRepeat(p + e, x);
  }

  /** The broker side records `POL_NUM_TXT` once per partner, whatever the check. */
  lemma {:induction false} BrokerTagsRepeat(links: seq<Link>, x: Id)
    ensures TagsOf(links, BrokerSide, x) == Repeat(PolNumTxtTag, |PartnersOf(links, BrokerSide, x)|)
  {
    if links != [] {
      BrokerTagsRepeat(links[1..], x);
      if Touches(links[0], BrokerSide, x) {
        assert [PolNumTxtTag] + Repeat(PolNumTxtTag, |PartnersOf(links[1..], BrokerSide, x)|)
            == Repeat(PolNumTxtTag, |PartnersOf(links[1..], BrokerSide, x)| + 1);
      }
    }
  }

  /** Whatever order Python visits the two sets of common values in, insurer row `k`
      ends with its expected matches and attributes. */
  lemma BookInsurerRow(brokers: seq<Row<BrokerFields>>, insurers: seq<Row<InsurerFields>>, policyOrder: seq<string>, endoOrder: seq<string>, k: nat)
    requires DistinctIds(brokers) && DistinctIds(insurers) && k < |insurers|
    requires Enumerates(policyOrder, CommonValues(PolicyCheck, brokers, insurers))
    requires Enumerates(endoOrder, CommonValues(EndorsementCheck, brokers, insurers))
    ensures Get(Record(EmptyBook(brokers, insurers), LinksIn(brokers, insurers, policyOrder, endoOrder)).companyMatches, insurers[k].index)
         == CompanyMatchesOf(brokers, insurers[k].fields)
    ensures Get(Record(EmptyBook(brokers, insurers), LinksIn(brokers, insurers, policyOrder, endoOrder)).companyAttributes, insurers[k].index)
         == CompanyAttributesOf(brokers, insurers[k].fields)
  {
    var y := insurers[k].index;
    var p := CheckLinks(PolicyCheck, brokers, insurers, policyOrder);
    var e := CheckLinks(EndorsementCheck, brokers, insurers, endoOrder);
    EmptyBookGet(brokers, insurers, y);
    RecordPartnersSpec(EmptyBook(brokers, insurers).companyMatches, p + e, InsurerSide, y);
    RecordTagsSpec(EmptyBook(brokers, insurers).companyAttributes, p + e, InsurerSide, y);
    PartnersOfAppend(p, e, InsurerSide, y);
    CheckInsurerRow(PolicyCheck, brokers, insurers, policyOrder, k);
    CheckInsurerRow(EndorsementCheck, brokers, insurers, endoOrder, k);
    CheckLinksCheck(PolicyCheck, brokers, insurers, policyOrder);
    CheckLinksCheck(EndorsementCheck, brokers, insurers, endoOrder);
    TagsOfOneCheck(p, PolicyCheck, InsurerSide, y);
    TagsOfOneCheck(e, EndorsementCheck, InsurerSide, y);
  }

  /** The dictionaries after both checks, visiting common values in the model's
      order. */
  function FinalBook(brokers: seq<Row<BrokerFields>>, insurers: seq<Row<InsurerFields>>): Book {
    Record(EmptyBook(brokers, insurers),
           LinksIn(brokers, insurers, Visit(PolicyCheck, brokers, insurers), Visit(EndorsementCheck, brokers, insurers)))
  }

  /** `data1` with its two match columns filled in. */
  function BrokerSheet(brokers: seq<Row<BrokerFields>>, insurers: seq<Row<InsurerFields>>): seq<Row<BrokerFields>> {
    Annotate(brokers, FinalBook(brokers, insurers).brokerMatches, FinalBook(brokers, insurers).brokerAttributes)
  }

  /** `data2` with its two match columns filled in. */
  function InsurerSheet(brokers: seq<Row<BrokerFields>>, insurers: seq<Row<InsurerFields>>): seq<Row<InsurerFields>> {
    Annotate(insurers, FinalBook(brokers, insurers).companyMatches, FinalBook(brokers, insurers).companyAttributes)
  }

  /** A broker row is matched when its `PolicyNo` is a common policy value or its
      `EndoNo` a common endorsement value. */
  function BrokerHit(policy: set<string>, endo: set<string>): Row<BrokerFields> -> bool {
    (r: Row<BrokerFields>) => r.fields.policyNo in policy || r.fields.endoNo in endo
  }

  /** An insurer row is matched when its `POL_NUM_TXT` is a common value of either check. */
  function InsurerHit(values: set<string>): Row<InsurerFields> -> bool {
    (r: Row<InsurerFields>) => r.fields.polNumTxt in values
  }

  function BrokerHitOf(brokers: seq<Row<BrokerFields>>, insurers: seq<Row<InsurerFields>>): Row<BrokerFields> -> bool {
    BrokerHit(CommonValues(PolicyCheck, brokers, insurers), CommonValues(EndorsementCheck, brokers, insurers))
  }

  function InsurerHitOf(brokers: seq<Row<BrokerFields>>, insurers: seq<Row<InsurerFields>>): Row<InsurerFields> -> bool {
    InsurerHit(CommonValues(PolicyCheck, brokers, insurers) + CommonValues(EndorsementCheck, brokers, insurers))
  }

  /** The first pass on the two freshly read sheets: number the rows, match them,
      and split each sheet into its matched rows (with the match columns) and its
      unmatched rows (with the match columns dropped). */
  function Run(brokerFields: seq<BrokerFields>, insurerFields: seq<InsurerFields>): Ledgers {
    var brokers := AssignIds(brokerFields, Broker);
    var insurers := AssignIds(insurerFields, Insurer);
    var data1 := BrokerSheet(brokers, insurers);
    var data2 := InsurerSheet(brokers, insurers);
    Ledgers(Select(data1, BrokerHitOf(brokers, insurers)),
            Select(data2, InsurerHitOf(brokers, insurers)),
            DropMatchColumns(Reject(data1, BrokerHitOf(brokers, insurers))),
            DropMatchColumns(Reject(data2, InsurerHitOf(brokers, insurers))))
  }

  /** Broker row `k` of the annotated sheet carries its expected matches. */
  lemma BrokerSheetRow(brokers: seq<Row<BrokerFields>>, insurers: seq<Row<InsurerFields>>, k: nat)
    requires DistinctIds(brokers) && DistinctIds(insurers) && k < |brokers|
    ensures BrokerSheet(brokers, insurers)[k]
         == Row(brokers[k].index, brokers[k].fields,
                Some(Annotation(BrokerMatchesOf(insurers, brokers[k].fields),
                                Repeat(PolNumTxtTag, |BrokerMatchesOf(insurers, brokers[k].fields)|))))
  {
    VisitEnumerates(PolicyCheck, brokers, insurers);
    VisitEnumerates(EndorsementCheck, brokers, insurers);
    BookBrokerRow(brokers, insurers, Visit(PolicyCheck, brokers, insurers), Visit(EndorsementCheck, brokers, insurers), k);
  }

  /** Insurer row `k` of the annotated sheet carries its expected matches. */
  lemma InsurerSheetRow(brokers: seq<Row<BrokerFields>>, insurers: seq<Row<InsurerFields>>, k: nat)
    requires DistinctIds(brokers) && DistinctIds(insurers) && k < |insurers|
    ensures InsurerSheet(brokers, insurers)[k]
         == Row(insurers[k].index, insurers[k].fields,
                Some(Annotation(CompanyMatchesOf(brokers, insurers[k].fields), CompanyAttributesOf(brokers, insurers[k].fields))))
  {
    VisitEnumerates(PolicyCheck, brokers, insurers);
    VisitEnumerates(EndorsementCheck, brokers, insurers);
    BookInsurerRow(brokers, insurers, Visit(PolicyCheck, brokers, insurers), Visit(EndorsementCheck, brokers, insurers), k);
  }

  /** The matched-broker mask holds exactly for the rows that found a match. */
  lemma BrokerHitIff(brokers: seq<Row<BrokerFields>>, insurers: seq<Row<InsurerFields>>, k: nat)
    requires k < |brokers|
    ensures BrokerHitOf(brokers, insurers)(brokers[k]) <==> BrokerMatchesOf(insurers, brokers[k].fields) != []
  {
    InsurersWithSpec(insurers, brokers[k].fields.policyNo);
    InsurersWithSpec(insurers, brokers[k].fields.endoNo);
    assert BrokerKey(PolicyCheck, brokers[k].fields) in BrokerValues(PolicyCheck, brokers);
    assert BrokerKey(EndorsementCheck, brokers[k].fields) in BrokerValues(EndorsementCheck, brokers);
  }

  /** A check lists some broker for `v` exactly when `v` is among the values of
      the broker column it reads. */
  lemma BrokersWithNonEmpty(c: Check, brokers: seq<Row<BrokerFields>>, v: string)
    ensures BrokersWith(c, brokers, v) != [] <==> v in BrokerValues(c, brokers)
  {
    BrokersWithMember(c, brokers, v);
    if BrokersWith(c, brokers, v) != [] {
      assert BrokersWith(c, brokers, v)[0] in BrokersWith(c, brokers, v);
    }
    if v in BrokerValues(c, brokers) {
      var j :| 0 <= j < |brokers| && BrokerKey(c, brokers[j].fields) == v;
      assert brokers[j].index in BrokersWith(c, brokers, v);
    }
  }

  /** The matched-insurer mask holds exactly for the rows that found a match. */
  lemma InsurerHitIff(brokers: seq<Row<BrokerFields>>, insurers: seq<Row<InsurerFields>>, k: nat)
    requires k < |insurers|
    ensures InsurerHitOf(brokers, insurers)(insurers[k]) <==> CompanyMatchesOf(brokers, insurers[k].fields) != []
  {
    var v := insurers[k].fields.polNumTxt;
    BrokersWithNonEmpty(PolicyCheck, brokers, v);
    BrokersWithNonEmpty(EndorsementCheck, brokers, v);
    assert v in InsurerValues(insurers);
  }

  /** Every broker row the mask lets through carries proper match columns. */
  lemma BrokerSheetAnnotated(brokers: seq<Row<BrokerFields>>, insurers: seq<Row<InsurerFields>>)
    requires DistinctIds(brokers) && DistinctIds(insurers) && OnLedger(insurers, Insurer)
    ensures forall k :: 0 <= k < |BrokerSheet(brokers, insurers)| && BrokerHitOf(brokers, insurers)(BrokerSheet(brokers, insurers)[k]) ==>
              BrokerSheet(brokers, insurers)[k].annotation.Some?
              && MatchedAnnotation(BrokerSheet(brokers, insurers)[k].annotation.value, Broker)
  {
    var data1 := BrokerSheet(brokers, insurers);
    forall k | 0 <= k < |data1| && BrokerHitOf(brokers, insurers)(data1[k])
      ensures data1[k].annotation.Some? && MatchedAnnotation(data1[k].annotation.value, Broker)
    {
      BrokerSheetRow(brokers, insurers, k);
      BrokerHitIff(brokers, insurers, k);
      var ms := BrokerMatchesOf(insurers, brokers[k].fields);
      InsurersWithSpec(insurers, brokers[k].fields.policyNo);
      InsurersWithSpec(insurers, brokers[k].fields.endoNo);
      forall i | 0 <= i < |ms| ensures ms[i].ledger != Broker {
        assert ms[i] in ms;
      }
    }
  }

  /** Every insurer row the mask lets through carries proper match columns. */
  lemma InsurerSheetAnnotated(brokers: seq<Row<BrokerFields>>, insurers: seq<Row<InsurerFields>>)
    requires DistinctIds(brokers) && DistinctIds(insurers) && OnLedger(brokers, Broker)
    ensures forall k :: 0 <= k < |InsurerSheet(brokers, insurers)| && InsurerHitOf(brokers, insurers)(InsurerSheet(brokers, insurers)[k]) ==>
              InsurerSheet(brokers, insurers)[k].annotation.Some?
              && MatchedAnnotation(InsurerSheet(brokers, insurers)[k].annotation.value, Insurer)
  {
    var data2 := InsurerSheet(brokers, insurers);
    forall k | 0 <= k < |data2| && InsurerHitOf(brokers, insurers)(data2[k])
      ensures data2[k].annotation.Some? && MatchedAnnotation(data2[k].annotation.value, Insurer)
    {
      InsurerSheetRow(brokers, insurers, k);
      InsurerHitIff(brokers, insurers, k);
      var ms := CompanyMatchesOf(brokers, insurers[k].fields);
      BrokersWithSpec(PolicyCheck, brokers, insurers[k].fields.polNumTxt);
      BrokersWithSpec(EndorsementCheck, brokers, insurers[k].fields.polNumTxt);
      forall i | 0 <= i < |ms| ensures ms[i].ledger != Insurer {
        assert ms[i] in ms;
      }
    }
  }

  /** The first pass leaves both ledgers reconciled: every broker row is on exactly
      one of the two broker sheets, every insurer row on exactly one of the two
      insurer sheets, and each matched row names rows of the other ledger. */
  lemma RunReconciled(brokerFields: seq<BrokerFields>, insurerFields: seq<InsurerFields>)
    ensures Invariant(Run(brokerFields, insurerFields),
                      IdSet(AssignIds(brokerFields, Broker)), IdSet(AssignIds(insurerFields, Insurer)))
  {
    var brokers := AssignIds(brokerFields, Broker);
    var insurers := AssignIds(insurerFields, Insurer);
    AssignIdsShape(brokerFields, Broker);
    AssignIdsShape(insurerFields, Insurer);
    SameIndicesShape(BrokerSheet(brokers, insurers), brokers, Broker);
    SameIndicesShape(InsurerSheet(brokers, insurers), insurers, Insurer);
    BrokerSheetAnnotated(brokers, insurers);
    InsurerSheetAnnotated(brokers, insurers);
    SplitReconciled(BrokerSheet(brokers, insurers), BrokerHitOf(brokers, insurers), Broker);
    SplitReconciled(InsurerSheet(brokers, insurers), InsurerHitOf(brokers, insurers), Insurer);
  }

  /** In a freshly numbered insurer sheet, insurer row `j` is listed for `v` once
      when its `POL_NUM_TXT` is `v`, and not at all otherwise. */
  lemma InsurerListed(insurerFields: seq<InsurerFields>, v: string, j: nat)
    requires j < |insurerFields|
    ensures Id(Insurer, j + 1) in InsurersWith(AssignIds(insurerFields, Insurer), v) <==> insurerFields[j].polNumTxt == v
    ensures multiset(InsurersWith(AssignIds(insurerFields, Insurer), v))[Id(Insurer, j + 1)]
            == if insurerFields[j].polNumTxt == v then 1 else 0
  {
    var insurers := AssignIds(insurerFields, Insurer);
    AssignIdsShape(insurerFields, Insurer);
    AssignIdsIndex(insurerFields, Insurer, j);
    InsurersWithRow(insurers, v, j);
    InsurersWithNoDup(insurers, v);
    NoDupCount(InsurersWith(insurers, v), Id(Insurer, j + 1));
  }

  /** In a freshly numbered broker sheet, broker row `k` is listed for `v` once
      when its checked column is `v`, and not at all otherwise. */
  lemma BrokerListed(c: Check, brokerFields: seq<BrokerFields>, v: string, k: nat)
    requires k < |brokerFields|
    ensures Id(Broker, k + 1) in BrokersWith(c, AssignIds(brokerFields, Broker), v) <==> BrokerKey(c, brokerFields[k]) == v
    ensures multiset(BrokersWith(c, AssignIds(brokerFields, Broker), v))[Id(Broker, k + 1)]
            == if BrokerKey(c, brokerFields[k]) == v then 1 else 0
  {
    var brokers := AssignIds(brokerFields, Broker);
    AssignIdsShape(brokerFields, Broker);
    AssignIdsIndex(brokerFields, Broker, k);
    BrokersWithRow(c, brokers, v, k);
    BrokersWithNoDup(c, brokers, v);
    NoDupCount(BrokersWith(c, brokers, v), Id(Broker, k + 1));
  }

  /** In freshly numbered sheets, broker row `k` and insurer row `j` are linked by a
      check exactly when the insurer's `POL_NUM_TXT` equals the checked broker column,
      and the link is recorded on both sides. */
  lemma LinkedIff(brokerFields: seq<BrokerFields>, insurerFields: seq<InsurerFields>, k: nat, j: nat)
    requires k < |brokerFields| && j < |insurerFields|
    ensures Id(Insurer, j + 1) in BrokerMatchesOf(AssignIds(insurerFields, Insurer), brokerFields[k])
        <==> insurerFields[j].polNumTxt == brokerFields[k].policyNo || insurerFields[j].polNumTxt == brokerFields[k].endoNo
    ensures Id(Broker, k + 1) in CompanyMatchesOf(AssignIds(brokerFields, Broker), insurerFields[j])
        <==> insurerFields[j].polNumTxt == brokerFields[k].policyNo || insurerFields[j].polNumTxt == brokerFields[k].endoNo
  {
    InsurerListed(insurerFields, brokerFields[k].policyNo, j);
    InsurerListed(insurerFields, brokerFields[k].endoNo, j);
    BrokerListed(PolicyCheck, brokerFields, insurerFields[j].polNumTxt, k);
    BrokerListed(EndorsementCheck, brokerFields, insurerFields[j].polNumTxt, k);
  }

  /** Broker row `k` has a match exactly when some insurer row's `POL_NUM_TXT`
      equals its `PolicyNo` or its `EndoNo`. */
  lemma BrokerMatchedIff(brokerFields: seq<BrokerFields>, insurerFields: seq<InsurerFields>, k: nat)
    requires k < |brokerFields|
    ensures BrokerMatchesOf(AssignIds(insurerFields, Insurer), brokerFields[k]) != []
        <==> exists j :: 0 <= j < |insurerFields| &&
               (insurerFields[j].polNumTxt == brokerFields[k].policyNo || insurerFields[j].polNumTxt == brokerFields[k].endoNo)
  {
    var insurers := AssignIds(insurerFields, Insurer);
    var ms := BrokerMatchesOf(insurers, brokerFields[k]);
    AssignIdsShape(insurerFields, Insurer);
    if ms != [] {
      assert ms[0] in ms;
      assert ms[0].ledger == Insurer && 1 <= ms[0].ordinal <= |insurerFields| by {
        InsurersWithSpec(insurers, brokerFields[k].policyNo);
        InsurersWithSpec(insurers, brokerFields[k].endoNo);
      }
      LinkedIff(brokerFields, insurerFields, k, ms[0].ordinal - 1);
    } else {
      forall j | 0 <= j < |insurerFields|
        ensures !(insurerFields[j].polNumTxt == brokerFields[k].policyNo || insurerFields[j].polNumTxt == brokerFields[k].endoNo)
      {
        LinkedIff(brokerFields, insurerFields, k, j);
      }
    }
  }

  /** Where broker row `k` of the annotated sheet ends up. */
  lemma BrokerSheetSplit(brokers: seq<Row<BrokerFields>>, insurers: seq<Row<InsurerFields>>, k: nat)
    requires DistinctIds(brokers) && DistinctIds(insurers) && k < |brokers|
    ensures var ms := BrokerMatchesOf(insurers, brokers[k].fields);
            if ms != [] then Row(brokers[k].index, brokers[k].fields, Some(Annotation(ms, Repeat(PolNumTxtTag, |ms|))))
                             in Select(BrokerSheet(brokers, insurers), BrokerHitOf(brokers, insurers))
            else Row(brokers[k].index, brokers[k].fields, None)
                   in DropMatchColumns(Reject(BrokerSheet(brokers, insurers), BrokerHitOf(brokers, insurers)))
  {
    var hit := BrokerHitOf(brokers, insurers);
    var data1 := BrokerSheet(brokers, insurers);
    BrokerSheetRow(brokers, insurers, k);
    BrokerHitIff(brokers, insurers, k);
    SelectMembers(data1, hit);
    SelectMembers(data1, (r: Row<BrokerFields>) => !hit(r));
    RejectIsSelect(data1, hit, (r: Row<BrokerFields>) => !hit(r));
    if BrokerMatchesOf(insurers, brokers[k].fields) == [] {
      var u := Reject(data1, hit);
      assert data1[k] in u;
      var i :| 0 <= i < |u| && u[i] == data1[k];
      assert DropMatchColumns(u)[i] == Row(brokers[k].index, brokers[k].fields, None);
    }
  }

  /** Broker row `k` ends on the matched sheet with its expected match columns when
      it has a match, and on the unmatched sheet without them when it has none;
      never on both. */
  lemma RunBrokerRow(brokerFields: seq<BrokerFields>, insurerFields: seq<InsurerFields>, k: nat)
    requires k < |brokerFields|
    ensures var ms := BrokerMatchesOf(AssignIds(insurerFields, Insurer), brokerFields[k]);
            if ms != [] then Row(Id(Broker, k + 1), brokerFields[k], Some(Annotation(ms, Repeat(PolNumTxtTag, |ms|))))
                             in Run(brokerFields, insurerFields).matchedBroker
            else Row(Id(Broker, k + 1), brokerFields[k], None) in Run(brokerFields, insurerFields).unmatchedBroker
    ensures IdSet(Run(brokerFields, insurerFields).matchedBroker) * IdSet(Run(brokerFields, insurerFields).unmatchedBroker) == {}
  {
    var brokers := AssignIds(brokerFields, Broker);
    var insurers := AssignIds(insurerFields, Insurer);
    AssignIdsShape(brokerFields, Broker);
    AssignIdsShape(insurerFields, Insurer);
    AssignIdsIndex(brokerFields, Broker, k);
    BrokerSheetSplit(brokers, insurers, k);
    RunBrokerSheetsDisjoint(brokerFields, insurerFields);
  }

  /** No broker row is on both broker sheets. */
  lemma RunBrokerSheetsDisjoint(brokerFields: seq<BrokerFields>, insurerFields: seq<InsurerFields>)
    ensures IdSet(Run(brokerFields, insurerFields).matchedBroker) * IdSet(Run(brokerFields, insurerFields).unmatchedBroker) == {}
  {
    var brokers := AssignIds(brokerFields, Broker);
    var insurers := AssignIds(insurerFields, Insurer);
    AssignIdsShape(brokerFields, Broker);
    AssignIdsShape(insurerFields, Insurer);
    var data1 := BrokerSheet(brokers, insurers);
    var hit := BrokerHitOf(brokers, insurers);
    SameIndicesShape(data1, brokers, Broker);
    SameIndicesShape(DropMatchColumns(Reject(data1, hit)), Reject(data1, hit), Broker);
    SelectRejectPartition(data1, hit);
  }

  /** Broker row `k` ends on the matched sheet exactly when some insurer row's
      `POL_NUM_TXT` equals its `PolicyNo` or its `EndoNo`. */
  lemma RunBrokerMatched(brokerFields: seq<BrokerFields>, insurerFields: seq<InsurerFields>, k: nat)
    requires k < |brokerFields|
    ensures Id(Broker, k + 1) in IdSet(Run(brokerFields, insurerFields).matchedBroker)
        <==> exists j :: 0 <= j < |insurerFields| &&
               (insurerFields[j].polNumTxt == brokerFields[k].policyNo || insurerFields[j].polNumTxt == brokerFields[k].endoNo)
  {
    RunBrokerHit(brokerFields, insurerFields, k);
    BrokerMatchedIff(brokerFields, insurerFields, k);
  }

  /** Broker row `k` is on the matched sheet exactly when its match list is not empty. */
  lemma RunBrokerHit(brokerFields: seq<BrokerFields>, insurerFields: seq<InsurerFields>, k: nat)
    requires k < |brokerFields|
    ensures Id(Broker, k + 1) in IdSet(Run(brokerFields, insurerFields).matchedBroker) <==> BrokerMatchesOf(AssignIds(insurerFields, Insurer), brokerFields[k]) != []
  {
    var lg := Run(brokerFields, insurerFields);
    RunBrokerRow(brokerFields, insurerFields, k);
    var ms := BrokerMatchesOf(AssignIds(insurerFields, Insurer), brokerFields[k]);
    var x := Id(Broker, k + 1);
    if ms != [] {
      RowIndexIn(lg.matchedBroker, Row(x, brokerFields[k], Some(Annotation(ms, Repeat(PolNumTxtTag, |ms|)))));
    } else {
      RowIndexIn(lg.unmatchedBroker, Row(x, brokerFields[k], None));
      assert x !in IdSet(lg.matchedBroker) * IdSet(lg.unmatchedBroker);
    }
  }

  /** Insurer row `j` has a match exactly when some broker row's `PolicyNo` or
      `EndoNo` equals its `POL_NUM_TXT`. */
  lemma InsurerMatchedIff(brokerFields: seq<BrokerFields>, insurerFields: seq<InsurerFields>, j: nat)
    requires j < |insurerFields|
    ensures CompanyMatchesOf(AssignIds(brokerFields, Broker), insurerFields[j]) != []
        <==> exists k :: 0 <= k < |brokerFields| &&
               (insurerFields[j].polNumTxt == brokerFields[k].policyNo || insurerFields[j].polNumTxt == brokerFields[k].endoNo)
  {
    var brokers := AssignIds(brokerFields, Broker);
    var ms := CompanyMatchesOf(brokers, insurerFields[j]);
    AssignIdsShape(brokerFields, Broker);
    if ms != [] {
      assert ms[0] in ms;
      assert ms[0].ledger == Broker && 1 <= ms[0].ordinal <= |brokerFields| by {
        BrokersWithSpec(PolicyCheck, brokers, insurerFields[j].polNumTxt);
        BrokersWithSpec(EndorsementCheck, brokers, insurerFields[j].polNumTxt);
      }
      LinkedIff(brokerFields, insurerFields, ms[0].ordinal - 1, j);
    } else {
      forall k | 0 <= k < |brokerFields|
        ensures !(insurerFields[j].polNumTxt == brokerFields[k].policyNo || insurerFields[j].polNumTxt == brokerFields[k].endoNo)
      {
        LinkedIff(brokerFields, insurerFields, k, j);
      }
    }
  }

  /** Where insurer row `k` of the annotated sheet ends up. */
  lemma InsurerSheetSplit(brokers: seq<Row<BrokerFields>>, insurers: seq<Row<InsurerFields>>, k: nat)
    requires DistinctIds(brokers) && DistinctIds(insurers) && k < |insurers|
    ensures var ms := CompanyMatchesOf(brokers, insurers[k].fields);
            if ms != [] then Row(insurers[k].index, insurers[k].fields, Some(Annotation(ms, CompanyAttributesOf(brokers, insurers[k].fields))))
                             in Select(InsurerSheet(brokers, insurers), InsurerHitOf(brokers, insurers))
            else Row(insurers[k].index, insurers[k].fields, None)
                   in DropMatchColumns(Reject(InsurerSheet(brokers, insurers), InsurerHitOf(brokers, insurers)))
  {
    var hit := InsurerHitOf(brokers, insurers);
    var data2 := InsurerSheet(brokers, insurers);
    InsurerSheetRow(brokers, insurers, k);
    InsurerHitIff(brokers, insurers, k);
    SelectMembers(data2, hit);
    SelectMembers(data2, (r: Row<InsurerFields>) => !hit(r));
    RejectIsSelect(data2, hit, (r: Row<InsurerFields>) => !hit(r));
    if CompanyMatchesOf(brokers, insurers[k].fields) == [] {
      var u := Reject(data2, hit);
      assert data2[k] in u;
      var i :| 0 <= i < |u| && u[i] == data2[k];
      assert DropMatchColumns(u)[i] == Row(insurers[k].index, insurers[k].fields, None);
    }
  }

  /** Insurer row `j` ends on the matched sheet with its expected match columns when
      it has a match, and on the unmatched sheet without them when it has none;
      never on both. */
  lemma RunInsurerRow(brokerFields: seq<BrokerFields>, insurerFields: seq<InsurerFields>, j: nat)
    requires j < |insurerFields|
    ensures var brokers := AssignIds(brokerFields, Broker);
            var ms := CompanyMatchesOf(brokers, insurerFields[j]);
            if ms != [] then Row(Id(Insurer, j + 1), insurerFields[j], Some(Annotation(ms, CompanyAttributesOf(brokers, insurerFields[j]))))
                             in Run(brokerFields, insurerFields).matchedInsurer
            else Row(Id(Insurer, j + 1), insurerFields[j], None) in Run(brokerFields, insurerFields).unmatchedInsurer
    ensures IdSet(Run(brokerFields, insurerFields).matchedInsurer) * IdSet(Run(brokerFields, insurerFields).unmatchedInsurer) == {}
  {
    var brokers := AssignIds(brokerFields, Broker);
    var insurers := AssignIds(insurerFields, Insurer);
    AssignIdsShape(brokerFields, Broker);
    AssignIdsShape(insurerFields, Insurer);
    AssignIdsIndex(insurerFields, Insurer, j);
    InsurerSheetSplit(brokers, insurers, j);
    RunInsurerSheetsDisjoint(brokerFields, insurerFields);
  }

  /** No insurer row is on both insurer sheets. */
  lemma RunInsurerSheetsDisjoint(brokerFields: seq<BrokerFields>, insurerFields: seq<InsurerFields>)
    ensures IdSet(Run(brokerFields, insurerFields).matchedInsurer) * IdSet(Run(brokerFields, insurerFields).unmatchedInsurer) == {}
  {
    var brokers := AssignIds(brokerFields, Broker);
    var insurers := AssignIds(insurerFields, Insurer);
    AssignIdsShape(brokerFields, Broker);
    AssignIdsShape(insurerFields, Insurer);
    var data2 := InsurerSheet(brokers, insurers);
    var hit := InsurerHitOf(brokers, insurers);
    SameIndicesShape(data2, insurers, Insurer);
    SameIndicesShape(DropMatchColumns(Reject(data2, hit)), Reject(data2, hit), Insurer);
    SelectRejectPartition(data2, hit);
  }

  /** Insurer row `j` ends on the matched sheet exactly when some broker row's
      `PolicyNo` or `EndoNo` equals its `POL_NUM_TXT`. */
  lemma RunInsurerMatched(brokerFields: seq<BrokerFields>, insurerFields: seq<InsurerFields>, j: nat)
    requires j < |insurerFields|
    ensures Id(Insurer, j + 1) in IdSet(Run(brokerFields, insurerFields).matchedInsurer)
        <==> exists k :: 0 <= k < |brokerFields| &&
               (insurerFields[j].polNumTxt == brokerFields[k].policyNo || insurerFields[j].polNumTxt == brokerFields[k].endoNo)
  {
    RunInsurerHit(brokerFields, insurerFields, j);
    InsurerMatchedIff(brokerFields, insurerFields, j);
  }

  /** Insurer row `j` is on the matched sheet exactly when its match list is not empty. */
  lemma RunInsurerHit(brokerFields: seq<BrokerFields>, insurerFields: seq<InsurerFields>, j: nat)
    requires j < |insurerFields|
    ensures Id(Insurer, j + 1) in IdSet(Run(brokerFields, insurerFields).matchedInsurer) <==> CompanyMatchesOf(AssignIds(brokerFields, Broker), insurerFields[j]) != []
  {
    var lg := Run(brokerFields, insurerFields);
    var brokers := AssignIds(brokerFields, Broker);
    RunInsurerRow(brokerFields, insurerFields, j);
    var ms := CompanyMatchesOf(brokers, insurerFields[j]);
    var x := Id(Insurer, j + 1);
    if ms != [] {
      RowIndexIn(lg.matchedInsurer, Row(x, insurerFields[j], Some(Annotation(ms, CompanyAttributesOf(brokers, insurerFields[j])))));
    } else {
      RowIndexIn(lg.unmatchedInsurer, Row(x, insurerFields[j], None));
      assert x !in IdSet(lg.matchedInsurer) * IdSet(lg.unmatchedInsurer);
    }
  }

  /** The two sides mirror each other: insurer row `j` occurs in broker row `k`'s
      matches as often as broker row `k` occurs in insurer row `j`'s matches (once
      per check that links them), and each row's attribute list is as long as its
      match list. */
  lemma LinksMirror(brokerFields: seq<BrokerFields>, insurerFields: seq<InsurerFields>, k: nat, j: nat)
    requires k < |brokerFields| && j < |insurerFields|
    ensures var brokers := AssignIds(brokerFields, Broker);
            var insurers := AssignIds(insurerFields, Insurer);
            multiset(BrokerMatchesOf(insurers, brokerFields[k]))[Id(Insurer, j + 1)]
            == multiset(CompanyMatchesOf(brokers, insurerFields[j]))[Id(Broker, k + 1)]
    ensures |CompanyAttributesOf(AssignIds(brokerFields, Broker), insurerFields[j])|
            == |CompanyMatchesOf(AssignIds(brokerFields, Broker), insurerFields[j])|
  {
    var brokers := AssignIds(brokerFields, Broker);
    var insurers := AssignIds(insurerFields, Insurer);
    var v := insurerFields[j].polNumTxt;
    InsurerListed(insurerFields, brokerFields[k].policyNo, j);
    InsurerListed(insurerFields, brokerFields[k].endoNo, j);
    BrokerListed(PolicyCheck, brokerFields, v, k);
    BrokerListed(EndorsementCheck, brokerFields, v, k);
    assert multiset(BrokerMatchesOf(insurers, brokerFields[k]))
        == multiset(InsurersWith(insurers, brokerFields[k].policyNo)) + multiset(InsurersWith(insurers, brokerFields[k].endoNo));
    assert multiset(CompanyMatchesOf(brokers, insurerFields[j]))
        == multiset(BrokersWith(PolicyCheck, brokers, v)) + multiset(BrokersWith(EndorsementCheck, brokers, v));
  }

  /** The dictionaries do not depend on the order in which Python happens to visit
      the two sets of common values: any two enumerations give every row the same
      lists. */
  lemma OrderIrrelevant(brokers: seq<Row<BrokerFields>>, insurers: seq<Row<InsurerFields>>,
                        p1: seq<string>, e1: seq<string>, p2: seq<string>, e2: seq<string>, k: nat, j: nat)
    requires DistinctIds(brokers) && DistinctIds(insurers) && k < |brokers| && j < |insurers|
    requires Enumerates(p1, CommonValues(PolicyCheck, brokers, insurers)) && Enumerates(p2, CommonValues(PolicyCheck, brokers, insurers))
    requires Enumerates(e1, CommonValues(EndorsementCheck, brokers, insurers)) && Enumerates(e2, CommonValues(EndorsementCheck, brokers, insurers))
    ensures Get(Record(EmptyBook(brokers, insurers), LinksIn(brokers, insurers, p1, e1)).brokerMatches, brokers[k].index)
         == Get(Record(EmptyBook(brokers, insurers), LinksIn(brokers, insurers, p2, e2)).brokerMatches, brokers[k].index)
    ensures Get(Record(EmptyBook(brokers, insurers), LinksIn(brokers, insurers, p1, e1)).brokerAttributes, brokers[k].index)
         == Get(Record(EmptyBook(brokers, insurers), LinksIn(brokers, insurers, p2, e2)).brokerAttributes, brokers[k].index)
    ensures Get(Record(EmptyBook(brokers, insurers), LinksIn(brokers, insurers, p1, e1)).companyMatches, insurers[j].index)
         == Get(Record(EmptyBook(brokers, insurers), LinksIn(brokers, insurers, p2, e2)).companyMatches, insurers[j].index)
    ensures Get(Record(EmptyBook(brokers, insurers), LinksIn(brokers, insurers, p1, e1)).companyAttributes, insurers[j].index)
         == Get(Record(EmptyBook(brokers, insurers), LinksIn(brokers, insurers, p2, e2)).companyAttributes, insurers[j].index)
  {
    BookBrokerRow(brokers, insurers, p1, e1, k);
    BookBrokerRow(brokers, insurers, p2, e2, k);
    BookInsurerRow(brokers, insurers, p1, e1, j);
    BookInsurerRow(brokers, insurers, p2, e2, j);
  }
}
