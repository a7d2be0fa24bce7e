/** What the first pass's innermost loop body does: each execution links one
    broker row to one insurer row and appends to the four dictionaries. The
    lemmas say what a run of links leaves in each row's lists. */
module MatchBook {
  import opened Ids
  import opened Records
  import opened Seqs

  /** The two checks: the broker's `PolicyNo`, then its `EndoNo`, against the
      insurer's `POL_NUM_TXT`. */
  datatype Check = PolicyCheck | EndorsementCheck

  /** The attribute the insurer row is given when a check links it. */
  function InsurerTagFor(c: Check): Tag {
    match c
    case PolicyCheck => PolicyNoTag
    case EndorsementCheck => EndoNoTag
  }

  /** One execution of the innermost loop body: broker `broker` and insurer
      `insurer` agree on the column `check` reads. */
  datatype Link = Link(broker: Id, insurer: Id, check: Check)

  /** Which end of a link a sheet's row is. */
  datatype Side = BrokerSide | InsurerSide

  /** The row of side `s` that the link joins. */
  function End(l: Link, s: Side): Id {
    match s
    case BrokerSide => l.broker
    case InsurerSide => l.insurer
  }

  /** The link touches row `x` on side `s`. */
  predicate Touches(l: Link, s: Side, x: Id) {
    End(l, s) == x
  }

  /** The index appended to `x`'s matches: the other end of the link. */
  function Partner(l: Link, s: Side): Id {
    match s
    case BrokerSide => l.insurer
    case InsurerSide => l.broker
  }

  /** The attribute appended for `x`: the broker always records `POL_NUM_TXT`, the
      insurer the broker column that agreed. */
  function TagOf(l: Link, s: Side): Tag {
    match s
    case BrokerSide => PolNumTxtTag
    case InsurerSide => InsurerTagFor(l.check)
  }

  /** The partners of `x` along `links`, in link order. */
  function PartnersOf(links: seq<Link>, s: Side, x: Id): seq<Id> {
    if links == [] then []
    else (if Touches(links[0], s, x) then [Partner(links[0], s)] else []) + PartnersOf(links[1..], s, x)
  }

  /** The attributes recorded for `x` along `links`, in link order. */
  function TagsOf(links: seq<Link>, s: Side, x: Id): seq<Tag> {
    if links == [] then []
    else (if Touches(links[0], s, x) then [TagOf(links[0], s)] else []) + TagsOf(links[1..], s, x)
  }

  lemma {:induction false} PartnersOfConcat(a: seq<Link>, b: seq<Link>, s: Side, x: Id)
    ensures PartnersOf(a + b, s, x) == PartnersOf(a, s, x) + PartnersOf(b, s, x)
  {
    if a != [] {
      assert (a + b)[1..] == a[1..] + b;
      PartnersOfConcat(a[1..], b, s, x);
    } else {
      assert a + b == b;
    }
  }

  lemma {:induction false} TagsOfConcat(a: seq<Link>, b: seq<Link>, s: Side, x: Id)
    ensures TagsOf(a + b, s, x) == TagsOf(a, s, x) + TagsOf(b, s, x)
  {
    if a != [] {
      assert (a + b)[1..] == a[1..] + b;
      TagsOfConcat(a[1..], b, s, x);
    } else {
      assert a + b == b;
    }
  }

  /** Following two runs of links one after the other gives each row the partners
      and attributes of the first run, then those of the second. */
  lemma PartnersOfAppend(a: seq<Link>, b: seq<Link>, s: Side, x: Id)
    ensures PartnersOf(a + b, s, x) == PartnersOf(a, s, x) + PartnersOf(b, s, x)
    ensures TagsOf(a + b, s, x) == TagsOf(a, s, x) + TagsOf(b, s, x)
  {
    PartnersOfConcat(a, b, s, x);
    TagsOfConcat(a, b, s, x);
  }

  /** Links that all come from one check record, for each partner, that check's
      attribute. */
  lemma {:induction false} TagsOfOneCheck(links: seq<Link>, c: Check, s: Side, x: Id)
    requires forall k :: 0 <= k < |links| ==> links[k].check == c
    ensures TagsOf(links, s, x) == Repeat(TagOf(Link(x, x, c), s), |PartnersOf(links, s, x)|)
  {
    if links != [] {
      TagsOfOneCheck(links[1..], c, s, x);
      if Touches(links[0], s, x) {
        assert [TagOf(links[0], s)] + Repeat(TagOf(Link(x, x, c), s), |PartnersOf(links[1..], s, x)|)
            == Repeat(TagOf(Link(x, x, c), s), |PartnersOf(links[1..], s, x)| + 1);
      }
    }
  }

  /** `broker_matches`, `company_matches`, `broker_attributes` and
      `company_attributes`. */
  datatype Book = Book(
    brokerMatches: map<Id, seq<Id>>,
    companyMatches: map<Id, seq<Id>>,
    brokerAttributes: map<Id, seq<Tag>>,
    companyAttributes: map<Id, seq<Tag>>
  )

  /** The four dictionaries before the first link: an empty list for every index. */
  function EmptyBook(brokers: seq<Row<BrokerFields>>, insurers: seq<Row<InsurerFields>>): Book {
    Book(map x | x in IdSet(brokers) :: [], map y | y in IdSet(insurers) :: [],
         map x | x in IdSet(brokers) :: [], map y | y in IdSet(insurers) :: [])
  }

  /** One dictionary of lists after the loop body has run for every link in turn:
      each link appends its partner to the list of the row it touches. */
  function RecordPartners(m: map<Id, seq<Id>>, links: seq<Link>, s: Side): map<Id, seq<Id>>
    decreases |links|
  {
    if links == [] then m
    else RecordPartners(Append(m, End(links[0], s), Partner(links[0], s)), links[1..], s)
  }

  /** The same for a dictionary of attributes. */
  function RecordTags(m: map<Id, seq<Tag>>, links: seq<Link>, s: Side): map<Id, seq<Tag>>
    decreases |links|
  {
    if links == [] then m
    else RecordTags(Append(m, End(links[0], s), TagOf(links[0], s)), links[1..], s)
  }

  /** The loop bodies run for every link in turn. Each body appends to four
      different dictionaries, so the four can be followed one at a time. */
  function Record(bk: Book, links: seq<Link>): Book {
    Book(RecordPartners(bk.brokerMatches, links, BrokerSide),
         RecordPartners(bk.companyMatches, links, InsurerSide),
         RecordTags(bk.brokerAttributes, links, BrokerSide),
         RecordTags(bk.companyAttributes, links, InsurerSide))
  }

  /** After the loops a row's match list holds what it held before followed by
      its partners along the links, in link order. */
  lemma {:induction false} RecordPartnersSpec(m: map<Id, seq<Id>>, links: seq<Link>, s: Side, x: Id)
    ensures Get(RecordPartners(m, links, s), x) == Get(m, x) + PartnersOf(links, s, x)
    decreases |links|
  {
    if links != [] {
      var l := links[0];
      RecordPartnersSpec(Append(m, End(l, s), Partner(l, s)), links[1..], s, x);
      GetAppend(m, End(l, s), Partner(l, s), x);
    }
  }

  /** After the loops a row's attribute list holds what it held before followed
      by its attributes along the links, in link order. */
  lemma {:induction false} RecordTagsSpec(m: map<Id, seq<Tag>>, links: seq<Link>, s: Side, x: Id)
    ensures Get(RecordTags(m, links, s), x) == Get(m, x) + TagsOf(links, s, x)
    decreases |links|
  {
    if links != [] {
      var l := links[0];
      RecordTagsSpec(Append(m, End(l, s), TagOf(l, s)), links[1..], s, x);
      GetAppend(m, End(l, s), TagOf(l, s), x);
    }
  }

  /** After the loops each row's four lists hold what they held before followed
      by its partners and attributes along the links, in link order. */
  lemma RecordSpec(bk: Book, links: seq<Link>, x: Id)
    ensures Get(Record(bk, links).brokerMatches, x) == Get(bk.brokerMatches, x) + PartnersOf(links, BrokerSide, x)
    ensures Get(Record(bk, links).companyMatches, x) == Get(bk.companyMatches, x) + PartnersOf(links, InsurerSide, x)
    ensures Get(Record(bk, links).brokerAttributes, x) == Get(bk.brokerAttributes, x) + TagsOf(links, BrokerSide, x)
    ensures Get(Record(bk, links).companyAttributes, x) == Get(bk.companyAttributes, x) + TagsOf(links, InsurerSide, x)
  {
    RecordPartnersSpec(bk.brokerMatches, links, BrokerSide, x);
    RecordPartnersSpec(bk.companyMatches, links, InsurerSide, x);
    RecordTagsSpec(bk.brokerAttributes, links, BrokerSide, x);
    RecordTagsSpec(bk.companyAttributes, links, InsurerSide, x);
  }
}
