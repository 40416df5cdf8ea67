/** The buyer's view of all inquiry groups, rebuilt from flat rows in one pass over each table. */
module RfqView {
  import opened Wrappers
  import opened Sorting
  import opened Rfq
  import RfqRuns

  datatype Row = Row(id: Key, inq: Inquiry)
  datatype OfferRow = OfferRow(id: Id, offer: Offer, marked: bool, listingGoodId: Id)

  /** A group of inquiries, or the group of one offer nobody asked for. */
  datatype GroupId = RfqGroup(key: Key) | ColdGroup(offerId: Id)

  datatype RecipientLine = RecipientLine(inquiryId: Key, sellerId: Id, status: RowStatus, coverage: nat, answered: bool)
  datatype OfferLine = OfferLine(id: Id, sellerId: Id, priceMinor: nat, prices: seq<Option<nat>>, cover: nat, totalMinor: nat)

  datatype Group = Group(
    createdAt: int,
    items: seq<RfqItem>,
    expiresAt: Option<int>,
    stoppedAt: Option<int>,
    closedAt: Option<int>,
    archived: bool,
    recipients: seq<RecipientLine>,
    offers: seq<OfferLine>,
    offerCount: nat,
    markedCount: nat,
    minPriceMinor: Option<nat>)

  type Groups = map<GroupId, Group>

  function KeyOf(r: Row): GroupId { RfqGroup(GroupKey(r.id, r.inq)) }

  // ---- Inquiries into groups ----

  function Coverage(items: seq<RfqItem>): nat {
    if items == [] then 0 else Coverage(items[..|items| - 1]) + if items[|items| - 1].listingId.Some? then 1 else 0
  }

  function LineOf(r: Row): RecipientLine {
    RecipientLine(r.id, r.inq.sellerId, r.inq.status, Coverage(ItemsOf(r.inq)), r.inq.status == RowAnswered)
  }

  /** The rows of one group, in order. */
  function RowsOf(rows: seq<Row>, g: GroupId): seq<Row> {
    if rows == [] then []
    else RowsOf(rows[..|rows| - 1], g) + if KeyOf(rows[|rows| - 1]) == g then [rows[|rows| - 1]] else []
  }

  /** The record created for the first row of a group. */
  function Opened(r: Row): Group {
    Group(r.inq.createdAt, ItemsOf(r.inq), r.inq.expiresAt, r.inq.stoppedAt, r.inq.closedAt, true, [], [], 0, 0, None)
  }

  /** One row joining its group. */
  function Join(g: Group, r: Row): Group {
    g.(createdAt := if r.inq.createdAt > g.createdAt then r.inq.createdAt else g.createdAt,
       archived := g.archived && r.inq.status == RowArchived,
       recipients := g.recipients + [LineOf(r)])
  }

  /** The group that rows arriving in this order make up. */
  function GroupOf(rows: seq<Row>): Group
    requires rows != []
  {
    if |rows| == 1 then Join(Opened(rows[0]), rows[0]) else Join(GroupOf(rows[..|rows| - 1]), rows[|rows| - 1])
  }

  lemma JoinExtends(rows: seq<Row>, r: Row)
    ensures GroupOf(rows + [r]) == Join(if rows == [] then Opened(r) else GroupOf(rows), r)
  {
  }

  predicate AllArchived(rows: seq<Row>) {
    forall i | 0 <= i < |rows| :: rows[i].inq.status == RowArchived
  }

  predicate IsLatest(at: int, rows: seq<Row>) {
    (forall i | 0 <= i < |rows| :: rows[i].inq.createdAt <= at) && exists i | 0 <= i < |rows| :: rows[i].inq.createdAt == at
  }

  function RecipientLines(rows: seq<Row>): seq<RecipientLine> { seq(|rows|, i requires 0 <= i < |rows| => LineOf(rows[i])) }

  lemma {:induction false} GroupHead(rows: seq<Row>)
    requires rows != []
    ensures var g, first := GroupOf(rows), rows[0].inq;
            && g.items == ItemsOf(first) && g.closedAt == first.closedAt && g.stoppedAt == first.stoppedAt && g.expiresAt == first.expiresAt
            && g.offers == [] && g.offerCount == 0 && g.minPriceMinor == None
  {
    if |rows| > 1 {
      GroupHead(rows[..|rows| - 1]);
    }
  }

  lemma {:induction false} GroupLines(rows: seq<Row>)
    requires rows != []
    ensures GroupOf(rows).recipients == RecipientLines(rows)
  {
    if |rows| > 1 {
      var init, last := rows[..|rows| - 1], rows[|rows| - 1];
      GroupLines(init);
      assert RecipientLines(rows) == RecipientLines(init) + [LineOf(last)];
    }
  }

  lemma {:induction false} GroupArchive(rows: seq<Row>)
    requires rows != []
    ensures GroupOf(rows).archived <==> AllArchived(rows)
  {
    if |rows| > 1 {
      var init, last := rows[..|rows| - 1], rows[|rows| - 1];
      GroupArchive(init);
      AllArchivedSplit(rows);
    }
  }

  lemma AllArchivedSplit(rows: seq<Row>)
    requires rows != []
    ensures AllArchived(rows) <==> AllArchived(rows[..|rows| - 1]) && rows[|rows| - 1].inq.status == RowArchived
  {
    var init := rows[..|rows| - 1];
    assert forall i | 0 <= i < |init| :: init[i] == rows[i];
  }

  lemma {:induction false} GroupDate(rows: seq<Row>)
    requires rows != []
    ensures IsLatest(GroupOf(rows).createdAt, rows)
  {
    if |rows| == 1 {
      assert rows[0].inq.createdAt == GroupOf(rows).createdAt;
    } else {
      var init, last := rows[..|rows| - 1], rows[|rows| - 1];
      GroupDate(init);
      LatestGrows(init, last, GroupOf(init).createdAt);
      assert init + [last] == rows;
    }
  }

  /** One line per row in row order, dated by its newest row, archived only if all its rows are. */
  lemma GroupSums(rows: seq<Row>)
    requires rows != []
    ensures var g := GroupOf(rows);
            && g.items == ItemsOf(rows[0].inq) && g.closedAt == rows[0].inq.closedAt && g.stoppedAt == rows[0].inq.stoppedAt
            && g.expiresAt == rows[0].inq.expiresAt
            && g.recipients == RecipientLines(rows) && IsLatest(g.createdAt, rows)
            && (g.archived <==> AllArchived(rows))
            && g.offers == [] && g.offerCount == 0 && g.minPriceMinor == None
  {
    GroupHead(rows);
    GroupLines(rows);
    GroupArchive(rows);
    GroupDate(rows);
  }

  lemma LatestGrows(rows: seq<Row>, r: Row, at: int)
    requires IsLatest(at, rows)
    ensures IsLatest(if r.inq.createdAt > at then r.inq.createdAt else at, rows + [r])
  {
    var all := rows + [r];
    if r.inq.createdAt > at {
      assert all[|rows|].inq.createdAt == r.inq.createdAt;
    } else {
      var i :| 0 <= i < |rows| && rows[i].inq.createdAt == at;
      assert all[i].inq.createdAt == at;
    }
  }

  predicate Distinct(order: seq<GroupId>) {
    forall i, j | 0 <= i < j < |order| :: order[i] != order[j]
  }

  /** The keys of an insertion-ordered map. */
  ghost predicate Lists(order: seq<GroupId>, groups: Groups) {
    Distinct(order) && forall g :: g in order <==> g in groups
  }

  ghost predicate GroupedAt(rows: seq<Row>, groups: Groups, g: GroupId) {
    if RowsOf(rows, g) == [] then g !in groups else g in groups && groups[g] == GroupOf(RowsOf(rows, g))
  }

  ghost predicate Grouped(rows: seq<Row>, groups: Groups) {
    forall g :: GroupedAt(rows, groups, g)
  }

  lemma RowsOfStep(rows: seq<Row>, r: Row, g: GroupId)
    ensures RowsOf(rows + [r], g) == RowsOf(rows, g) + if KeyOf(r) == g then [r] else []
  {
  }

  lemma GroupedStep(rows: seq<Row>, r: Row, groups: Groups)
    requires Grouped(rows, groups)
    ensures Grouped(rows + [r], Joined(groups, r))
  {
    forall g ensures GroupedAt(rows + [r], Joined(groups, r), g) {
      assert GroupedAt(rows, groups, g);
      RowsOfStep(rows, r, g);
      assert RowsOf(rows, g) + [] == RowsOf(rows, g);
      JoinExtends(RowsOf(rows, g), r);
    }
  }

  // ---- Counting over the groups ----

  function Sum(order: seq<GroupId>, counts: map<GroupId, nat>): nat
    requires forall g | g in order :: g in counts
  {
    if order == [] then 0 else Sum(order[..|order| - 1], counts) + counts[order[|order| - 1]]
  }

  lemma {:induction false} SumSame(order: seq<GroupId>, a: map<GroupId, nat>, b: map<GroupId, nat>)
    requires forall g | g in order :: g in a && g in b && a[g] == b[g]
    ensures Sum(order, a) == Sum(order, b)
  {
    if order != [] {
      SumSame(order[..|order| - 1], a, b);
    }
  }

  /** A change in one group is the same change in the sum. */
  lemma {:induction false} SumSet(order: seq<GroupId>, counts: map<GroupId, nat>, g: GroupId, n: nat)
    requires Distinct(order) && g in order && forall h | h in order :: h in counts
    ensures Sum(order, counts[g := n]) == Sum(order, counts) - counts[g] + n
  {
    var init, last := order[..|order| - 1], order[|order| - 1];
    if last == g {
      assert g !in init;
      SumSame(init, counts, counts[g := n]);
    } else {
      SumSet(init, counts, g, n);
    }
  }

  lemma SumAppend(order: seq<GroupId>, counts: map<GroupId, nat>, g: GroupId, n: nat)
    requires g !in order && forall h | h in order :: h in counts
    ensures Sum(order + [g], counts[g := n]) == Sum(order, counts) + n
  {
    assert (order + [g])[..|order|] == order;
    SumSame(order, counts, counts[g := n]);
  }

  function RecipientCounts(groups: Groups): map<GroupId, nat> { map g | g in groups :: |groups[g].recipients| }

  function OfferCounts(groups: Groups): map<GroupId, nat> { map g | g in groups :: groups[g].offerCount }

  /** The listed groups hold `n` recipients and `m` offers in all. */
  ghost predicate Counts(order: seq<GroupId>, groups: Groups, n: nat, m: nat) {
    && Lists(order, groups)
    && Sum(order, RecipientCounts(groups)) == n
    && Sum(order, OfferCounts(groups)) == m
  }

  function Joined(groups: Groups, r: Row): Groups {
    groups[KeyOf(r) := Join(if KeyOf(r) in groups then groups[KeyOf(r)] else Opened(r), r)]
  }

  lemma ListsNew(order: seq<GroupId>, groups: Groups, g: GroupId, rec: Group)
    requires Lists(order, groups)
    ensures g in groups ==> Lists(order, groups[g := rec])
    ensures g !in groups ==> g !in order && Lists(order + [g], groups[g := rec])
  {
  }

  lemma CountsAt(groups: Groups, g: GroupId, rec: Group)
    ensures RecipientCounts(groups[g := rec]) == RecipientCounts(groups)[g := |rec.recipients|]
    ensures OfferCounts(groups[g := rec]) == OfferCounts(groups)[g := rec.offerCount]
  {
  }

  lemma CountNew(order: seq<GroupId>, groups: Groups, g: GroupId, rec: Group, n: nat, m: nat)
    requires Counts(order, groups, n, m) && g !in groups
    ensures Counts(order + [g], groups[g := rec], n + |rec.recipients|, m + rec.offerCount)
  {
    ListsNew(order, groups, g, rec);
    CountsAt(groups, g, rec);
    SumAppend(order, RecipientCounts(groups), g, |rec.recipients|);
    SumAppend(order, OfferCounts(groups), g, rec.offerCount);
  }

  lemma CountSet(order: seq<GroupId>, groups: Groups, g: GroupId, rec: Group, n: nat, m: nat)
    requires Counts(order, groups, n, m) && g in groups
    requires |rec.recipients| >= |groups[g].recipients| && rec.offerCount >= groups[g].offerCount
    ensures Counts(order, groups[g := rec], n + |rec.recipients| - |groups[g].recipients|, m + rec.offerCount - groups[g].offerCount)
  {
    ListsNew(order, groups, g, rec);
    CountsAt(groups, g, rec);
    SumSet(order, RecipientCounts(groups), g, |rec.recipients|);
    SumSet(order, OfferCounts(groups), g, rec.offerCount);
  }

  lemma NothingGrouped()
    ensures Grouped([], map[]) && Counts([], map[], 0, 0)
  {
  }

  lemma InquiryStep(rows: seq<Row>, k: nat, order: seq<GroupId>, groups: Groups)
    requires k < |rows| && Grouped(rows[..k], groups) && Counts(order, groups, k, 0)
    ensures Grouped(rows[..k + 1], Joined(groups, rows[k]))
    ensures Counts(if KeyOf(rows[k]) in groups then order else order + [KeyOf(rows[k])], Joined(groups, rows[k]), k + 1, 0)
  {
    GroupedStep(rows[..k], rows[k], groups);
    assert rows[..k] + [rows[k]] == rows[..k + 1];
    if KeyOf(rows[k]) in groups {
      CountSet(order, groups, KeyOf(rows[k]), Joined(groups, rows[k])[KeyOf(rows[k])], k, 0);
    } else {
      CountNew(order, groups, KeyOf(rows[k]), Join(Opened(rows[k]), rows[k]), k, 0);
    }
  }

  method JoinGroup(groups0: Groups, inq: Row) returns (groups: Groups)
    ensures groups == Joined(groups0, inq)
  {
    groups := groups0;
    var g := KeyOf(inq);
    if g !in groups {
      groups := groups[g := Opened(inq)];
    }
    groups := groups[g := Join(groups[g], inq)];
  }

  method GroupInquiries(rows: seq<Row>) returns (order: seq<GroupId>, groups: Groups)
    ensures Grouped(rows, groups) && Counts(order, groups, |rows|, 0)
  {
    order, groups := [], map[];
    NothingGrouped();
    assert rows[..0] == [];
    for k := 0 to |rows|
      invariant Grouped(rows[..k], groups) && Counts(order, groups, k, 0)
    {
      InquiryStep(rows, k, order, groups);
      if KeyOf(rows[k]) !in groups {
        order := order + [KeyOf(rows[k])];
      }
      groups := JoinGroup(groups, rows[k]);
    }
    assert rows[..|rows|] == rows;
  }

  // ---- Offers to groups ----

  predicate Pairs(r: Row, o: OfferRow) { r.inq.listingId == o.offer.listingId && r.inq.sellerId == o.offer.sellerId }

  /** The last row of the offer's listing and seller that does not come after it. */
  function LegacyRow(rows: seq<Row>, o: OfferRow): Option<Row> {
    if rows == [] then None
    else
      var last := rows[|rows| - 1];
      if Pairs(last, o) && last.inq.createdAt <= o.offer.createdAt then Some(last) else LegacyRow(rows[..|rows| - 1], o)
  }

  predicate HasGroup(rows: seq<Row>, g: GroupId) { RowsOf(rows, g) != [] }

  /** Where an offer belongs: its linked group, the group of its legacy row, or a group of its own. */
  function Home(rows: seq<Row>, o: OfferRow): GroupId {
    if o.offer.rfqGroupId.Some? && HasGroup(rows, RfqGroup(o.offer.rfqGroupId.value)) then RfqGroup(o.offer.rfqGroupId.value)
    else
      match LegacyRow(rows, o)
      case Some(r) => KeyOf(r)
      case None => ColdGroup(o.id)
  }

  lemma {:induction false} RowHasGroup(rows: seq<Row>, r: Row)
    requires r in rows
    ensures r in RowsOf(rows, KeyOf(r))
  {
    if rows[|rows| - 1] != r {
      assert rows == rows[..|rows| - 1] + [rows[|rows| - 1]];
      RowHasGroup(rows[..|rows| - 1], r);
    }
  }

  lemma {:induction false} LegacyRowIn(rows: seq<Row>, o: OfferRow)
    ensures LegacyRow(rows, o).Some? ==> LegacyRow(rows, o).value in rows
  {
    if rows != [] {
      LegacyRowIn(rows[..|rows| - 1], o);
    }
  }

  type ByKey = map<(Id, Id), seq<Row>>

  /** The rows of one listing and seller, in order. */
  function PairRows(rows: seq<Row>, listing: Id, seller: Id): seq<Row> {
    if rows == [] then []
    else
      var last := rows[|rows| - 1];
      PairRows(rows[..|rows| - 1], listing, seller) + if last.inq.listingId == listing && last.inq.sellerId == seller then [last] else []
  }

  /** Looking only at the pair's rows finds the same legacy row. */
  lemma {:induction false} LegacyByPair(rows: seq<Row>, o: OfferRow)
    ensures LegacyRow(PairRows(rows, o.offer.listingId, o.offer.sellerId), o) == LegacyRow(rows, o)
  {
    if rows != [] {
      var init, last := rows[..|rows| - 1], rows[|rows| - 1];
      LegacyByPair(init, o);
      var pair := PairRows(init, o.offer.listingId, o.offer.sellerId);
      assert (pair + [last])[..|pair|] == pair;
      assert pair + [] == pair;
    }
  }

  function AtPair(byKey: ByKey, listing: Id, seller: Id): seq<Row> {
    if (listing, seller) in byKey then byKey[(listing, seller)] else []
  }

  ghost predicate ByPair(rows: seq<Row>, byKey: ByKey) {
    forall l, s :: AtPair(byKey, l, s) == PairRows(rows, l, s)
  }

  lemma ByPairStep(rows: seq<Row>, r: Row, byKey: ByKey)
    requires ByPair(rows, byKey)
    ensures ByPair(rows + [r], byKey[(r.inq.listingId, r.inq.sellerId) := AtPair(byKey, r.inq.listingId, r.inq.sellerId) + [r]])
  {
    var byKey' := byKey[(r.inq.listingId, r.inq.sellerId) := AtPair(byKey, r.inq.listingId, r.inq.sellerId) + [r]];
    forall l, s ensures AtPair(byKey', l, s) == PairRows(rows + [r], l, s) {
      assert (rows + [r])[..|rows|] == rows;
      assert AtPair(byKey, l, s) == PairRows(rows, l, s);
    }
  }

  method IndexRows(rows: seq<Row>) returns (byKey: ByKey)
    ensures ByPair(rows, byKey)
  {
    byKey := map[];
    for k := 0 to |rows|
      invariant ByPair(rows[..k], byKey)
    {
      assert rows[..k] + [rows[k]] == rows[..k + 1];
      ByPairStep(rows[..k], rows[k], byKey);
      var pair := (rows[k].inq.listingId, rows[k].inq.sellerId);
      var list := if pair in byKey then byKey[pair] else [];
      byKey := byKey[pair := list + [rows[k]]];
    }
    assert rows[..|rows|] == rows;
  }

  method FindLegacyRow(list: seq<Row>, o: OfferRow) returns (target: Option<Row>)
    requires forall i | 0 <= i < |list| :: Pairs(list[i], o)
    ensures target == LegacyRow(list, o)
  {
    target := None;
    for j := 0 to |list|
      invariant target == LegacyRow(list[..j], o)
    {
      assert list[..j + 1][..j] == list[..j];
      if list[j].inq.createdAt <= o.offer.createdAt {
        target := Some(list[j]);
      }
    }
    assert list[..|list|] == list;
  }

  lemma {:induction false} PairRowsPair(rows: seq<Row>, o: OfferRow, i: nat)
    requires i < |PairRows(rows, o.offer.listingId, o.offer.sellerId)|
    ensures Pairs(PairRows(rows, o.offer.listingId, o.offer.sellerId)[i], o)
  {
    var init := rows[..|rows| - 1];
    if i < |PairRows(init, o.offer.listingId, o.offer.sellerId)| {
      PairRowsPair(init, o, i);
    }
  }

  /** The group an offer found, if it found one. */
  function LinkOf(rows: seq<Row>, o: OfferRow): Option<GroupId> {
    if Home(rows, o).RfqGroup? then Some(Home(rows, o)) else None
  }

  method LinkOne(rows: seq<Row>, byKey: ByKey, groups: Groups, o: OfferRow) returns (link: Option<GroupId>)
    requires Grouped(rows, groups) && ByPair(rows, byKey)
    ensures link == LinkOf(rows, o)
  {
    link := None;
    if o.offer.rfqGroupId.Some? {
      assert GroupedAt(rows, groups, RfqGroup(o.offer.rfqGroupId.value));
      if RfqGroup(o.offer.rfqGroupId.value) in groups {
        link := Some(RfqGroup(o.offer.rfqGroupId.value));
      }
    }
    if link.None? {
      var pair := (o.offer.listingId, o.offer.sellerId);
      LegacyByPair(rows, o);
      forall i | 0 <= i < |PairRows(rows, o.offer.listingId, o.offer.sellerId)|
        ensures Pairs(PairRows(rows, o.offer.listingId, o.offer.sellerId)[i], o)
      {
        PairRowsPair(rows, o, i);
      }
      assert AtPair(byKey, o.offer.listingId, o.offer.sellerId) == PairRows(rows, o.offer.listingId, o.offer.sellerId);
      if pair in byKey {
        var target := FindLegacyRow(byKey[pair], o);
        if target.Some? {
          link := Some(KeyOf(target.value));
        }
      }
    }
  }

  predicate UniqueIds(offers: seq<OfferRow>) {
    forall i, j | 0 <= i < j < |offers| :: offers[i].id != offers[j].id
  }

  predicate LinkedAt(rows: seq<Row>, o: OfferRow, offerGroup: map<Id, GroupId>) {
    LinkOf(rows, o) == if o.id in offerGroup then Some(offerGroup[o.id]) else None
  }

  method LinkOffers(rows: seq<Row>, offers: seq<OfferRow>, groups: Groups) returns (offerGroup: map<Id, GroupId>)
    requires Grouped(rows, groups) && UniqueIds(offers)
    ensures forall i | 0 <= i < |offers| :: LinkedAt(rows, offers[i], offerGroup)
  {
    var byKey := IndexRows(rows);
    offerGroup := map[];
    for k := 0 to |offers|
      invariant forall i | 0 <= i < k :: LinkedAt(rows, offers[i], offerGroup)
      invariant forall i | k <= i < |offers| :: offers[i].id !in offerGroup
    {
      var link := LinkOne(rows, byKey, groups, offers[k]);
      if link.Some? {
        offerGroup := offerGroup[offers[k].id := link.value];
      }
    }
  }

  // ---- Offers into groups ----

  function Priced(prices: seq<Option<nat>>): nat {
    if prices == [] then 0 else Priced(prices[..|prices| - 1]) + if prices[|prices| - 1].Some? then 1 else 0
  }

  function ViewTotal(offer: Offer, items: seq<RfqItem>): nat {
    var prices := PricesFor(offer, |items|);
    if |items| > 1 then SumPriced(items, prices)
    else if |items| == 1 then prices[0].GetOr(offer.priceMinor) * items[0].qty
    else 0
  }

  function OfferLineOf(o: OfferRow, items: seq<RfqItem>): OfferLine {
    var prices := PricesFor(o.offer, |items|);
    OfferLine(o.id, o.offer.sellerId, o.offer.priceMinor, prices, Priced(prices), ViewTotal(o.offer, items))
  }

  function MinWith(min: Option<nat>, price: nat): Option<nat> {
    if min.None? || price < min.value then Some(price) else min
  }

  /** One offer joining a group. */
  function Receive(g: Group, o: OfferRow): Group {
    g.(offers := g.offers + [OfferLineOf(o, g.items)],
       offerCount := g.offerCount + 1,
       markedCount := g.markedCount + if o.marked then 1 else 0,
       minPriceMinor := MinWith(g.minPriceMinor, o.offer.priceMinor))
  }

  function ReceiveAll(g: Group, os: seq<OfferRow>): Group {
    if os == [] then g else Receive(ReceiveAll(g, os[..|os| - 1]), os[|os| - 1])
  }

  function ColdGroupOf(o: OfferRow): Group {
    Group(o.offer.createdAt, [RfqItem(o.listingGoodId, 0, Some(o.offer.listingId))], None, None, None, false, [],
          [OfferLine(o.id, o.offer.sellerId, o.offer.priceMinor, [Some(o.offer.priceMinor)], 1, o.offer.priceMinor)],
          1, if o.marked then 1 else 0, Some(o.offer.priceMinor))
  }

  /** The offers that belong to one group, in order. */
  function OffersOf(rows: seq<Row>, offers: seq<OfferRow>, g: GroupId): seq<OfferRow> {
    if offers == [] then []
    else OffersOf(rows, offers[..|offers| - 1], g) + if Home(rows, offers[|offers| - 1]) == g then [offers[|offers| - 1]] else []
  }

  lemma OffersOfStep(rows: seq<Row>, offers: seq<OfferRow>, o: OfferRow, g: GroupId)
    ensures OffersOf(rows, offers + [o], g) == OffersOf(rows, offers, g) + if Home(rows, o) == g then [o] else []
  {
  }

  /** What the view holds for a group, given the rows and offers that belong to it. */
  function Whole(rows: seq<Row>, offers: seq<OfferRow>, g: GroupId): Option<Group> {
    var mine, received := RowsOf(rows, g), OffersOf(rows, offers, g);
    if mine != [] then Some(ReceiveAll(GroupOf(mine), received))
    else if received != [] then Some(ReceiveAll(ColdGroupOf(received[0]), received[1..]))
    else None
  }

  ghost predicate CompleteAt(rows: seq<Row>, offers: seq<OfferRow>, groups: Groups, g: GroupId) {
    Whole(rows, offers, g) == if g in groups then Some(groups[g]) else None
  }

  ghost predicate Complete(rows: seq<Row>, offers: seq<OfferRow>, groups: Groups) {
    forall g :: CompleteAt(rows, offers, groups, g)
  }

  lemma ReceiveStep(g: Group, os: seq<OfferRow>, o: OfferRow)
    ensures ReceiveAll(g, os + [o]) == Receive(ReceiveAll(g, os), o)
  {
  }

  lemma HomeExists(rows: seq<Row>, o: OfferRow)
    ensures Home(rows, o).RfqGroup? ==> RowsOf(rows, Home(rows, o)) != []
    ensures Home(rows, o).ColdGroup? ==> Home(rows, o) == ColdGroup(o.id)
  {
    LegacyRowIn(rows, o);
    if LegacyRow(rows, o).Some? {
      RowHasGroup(rows, LegacyRow(rows, o).value);
    }
  }

  lemma {:induction false} ColdHasNoRows(rows: seq<Row>, id: Id)
    ensures RowsOf(rows, ColdGroup(id)) == []
  {
    if rows != [] {
      ColdHasNoRows(rows[..|rows| - 1], id);
    }
  }

  /** A group an offer does not belong to stays as it was. */
  lemma ElsewhereStays(rows: seq<Row>, offers: seq<OfferRow>, o: OfferRow, groups: Groups, groups': Groups, g: GroupId)
    requires CompleteAt(rows, offers, groups, g) && Home(rows, o) != g
    requires g in groups' <==> g in groups
    requires g in groups ==> groups'[g] == groups[g]
    ensures CompleteAt(rows, offers + [o], groups', g)
  {
    OffersOfStep(rows, offers, o, g);
    assert OffersOf(rows, offers, g) + [] == OffersOf(rows, offers, g);
  }

  lemma ReceivedAt(rows: seq<Row>, offers: seq<OfferRow>, o: OfferRow, groups: Groups, g: GroupId)
    requires CompleteAt(rows, offers, groups, g) && Home(rows, o) == g && RowsOf(rows, g) != []
    ensures g in groups && CompleteAt(rows, offers + [o], groups[g := Receive(groups[g], o)], g)
  {
    OffersOfStep(rows, offers, o, g);
    ReceiveStep(GroupOf(RowsOf(rows, g)), OffersOf(rows, offers, g), o);
  }

  /** An offer to a group with rows changes that group only. */
  lemma ReceivedStep(rows: seq<Row>, offers: seq<OfferRow>, o: OfferRow, groups: Groups)
    requires Complete(rows, offers, groups) && Home(rows, o).RfqGroup?
    ensures var h := Home(rows, o);
            h in groups && Complete(rows, offers + [o], groups[h := Receive(groups[h], o)])
  {
    var h := Home(rows, o);
    HomeExists(rows, o);
    assert CompleteAt(rows, offers, groups, h);
    ReceivedAt(rows, offers, o, groups, h);
    var groups' := groups[h := Receive(groups[h], o)];
    forall g ensures CompleteAt(rows, offers + [o], groups', g) {
      assert CompleteAt(rows, offers, groups, g);
      if g != h {
        ElsewhereStays(rows, offers, o, groups, groups', g);
      }
    }
  }

  lemma ColdAt(rows: seq<Row>, offers: seq<OfferRow>, o: OfferRow, groups: Groups, g: GroupId)
    requires CompleteAt(rows, offers, groups, g) && Home(rows, o) == g && RowsOf(rows, g) == [] && OffersOf(rows, offers, g) == []
    ensures g !in groups && CompleteAt(rows, offers + [o], groups[g := ColdGroupOf(o)], g)
  {
    OffersOfStep(rows, offers, o, g);
    assert [] + [o] == [o] && [o][1..] == [];
    assert OffersOf(rows, offers + [o], g) == [o];
  }

  /** An offer that belongs nowhere gets a group of its own. */
  lemma ColdStep(rows: seq<Row>, offers: seq<OfferRow>, o: OfferRow, groups: Groups)
    requires Complete(rows, offers, groups) && Home(rows, o).ColdGroup?
    requires OffersOf(rows, offers, ColdGroup(o.id)) == []
    ensures ColdGroup(o.id) !in groups && Complete(rows, offers + [o], groups[ColdGroup(o.id) := ColdGroupOf(o)])
  {
    var h := ColdGroup(o.id);
    HomeExists(rows, o);
    ColdHasNoRows(rows, o.id);
    assert CompleteAt(rows, offers, groups, h);
    ColdAt(rows, offers, o, groups, h);
    var groups' := groups[h := ColdGroupOf(o)];
    forall g ensures CompleteAt(rows, offers + [o], groups', g) {
      assert CompleteAt(rows, offers, groups, g);
      if g != h {
        ElsewhereStays(rows, offers, o, groups, groups', g);
      }
    }
  }

  lemma {:induction false} OffersOfIds(rows: seq<Row>, offers: seq<OfferRow>, g: GroupId)
    ensures forall o :: o in OffersOf(rows, offers, g) <==> o in offers && Home(rows, o) == g
  {
    if offers != [] {
      OffersOfIds(rows, offers[..|offers| - 1], g);
      assert offers == offers[..|offers| - 1] + [offers[|offers| - 1]];
    }
  }

  lemma ColdIsUnused(rows: seq<Row>, offers: seq<OfferRow>, k: nat)
    requires k < |offers| && UniqueIds(offers)
    ensures OffersOf(rows, offers[..k], ColdGroup(offers[k].id)) == []
  {
    var mine := OffersOf(rows, offers[..k], ColdGroup(offers[k].id));
    OffersOfIds(rows, offers[..k], ColdGroup(offers[k].id));
    if mine != [] {
      var x := mine[0];
      assert x in offers[..k];
      HomeExists(rows, x);
      assert false;
    }
  }

  lemma CompleteBefore(rows: seq<Row>, groups: Groups)
    requires Grouped(rows, groups)
    ensures Complete(rows, [], groups)
  {
    forall g ensures CompleteAt(rows, [], groups, g) {
      assert GroupedAt(rows, groups, g);
    }
  }

  /** The offers up to `k` are in their groups, and counted. */
  ghost predicate AttachedTo(rows: seq<Row>, offers: seq<OfferRow>, k: nat, order: seq<GroupId>, groups: Groups)
    requires k <= |offers|
  {
    Complete(rows, offers[..k], groups) && Counts(order, groups, |rows|, k)
  }

  lemma AttachedNext(rows: seq<Row>, offers: seq<OfferRow>, k: nat, order: seq<GroupId>, groups: Groups)
    requires k < |offers| && Complete(rows, offers[..k] + [offers[k]], groups) && Counts(order, groups, |rows|, k + 1)
    ensures AttachedTo(rows, offers, k + 1, order, groups)
  {
    assert offers[..k] + [offers[k]] == offers[..k + 1];
  }

  lemma AttachLinked(rows: seq<Row>, offers: seq<OfferRow>, k: nat, order: seq<GroupId>, groups: Groups)
    requires k < |offers| && AttachedTo(rows, offers, k, order, groups) && Home(rows, offers[k]).RfqGroup?
    ensures var g := Home(rows, offers[k]);
            g in groups && AttachedTo(rows, offers, k + 1, order, groups[g := Receive(groups[g], offers[k])])
  {
    var g := Home(rows, offers[k]);
    ReceivedStep(rows, offers[..k], offers[k], groups);
    CountSet(order, groups, g, Receive(groups[g], offers[k]), |rows|, k);
    AttachedNext(rows, offers, k, order, groups[g := Receive(groups[g], offers[k])]);
  }

  lemma AttachCold(rows: seq<Row>, offers: seq<OfferRow>, k: nat, order: seq<GroupId>, groups: Groups)
    requires k < |offers| && UniqueIds(offers) && AttachedTo(rows, offers, k, order, groups) && Home(rows, offers[k]).ColdGroup?
    ensures var g := ColdGroup(offers[k].id);
            AttachedTo(rows, offers, k + 1, order + [g], groups[g := ColdGroupOf(offers[k])])
  {
    var g := ColdGroup(offers[k].id);
    ColdIsUnused(rows, offers, k);
    ColdStep(rows, offers[..k], offers[k], groups);
    CountNew(order, groups, g, ColdGroupOf(offers[k]), |rows|, k);
    AttachedNext(rows, offers, k, order + [g], groups[g := ColdGroupOf(offers[k])]);
  }

  lemma LinkSays(rows: seq<Row>, o: OfferRow, offerGroup: map<Id, GroupId>)
    requires LinkedAt(rows, o, offerGroup)
    ensures o.id in offerGroup <==> Home(rows, o).RfqGroup?
    ensures o.id in offerGroup ==> offerGroup[o.id] == Home(rows, o)
  {
  }

  method AttachOffers(rows: seq<Row>, offers: seq<OfferRow>, offerGroup: map<Id, GroupId>, order0: seq<GroupId>, groups0: Groups)
    returns (order: seq<GroupId>, groups: Groups)
    requires Grouped(rows, groups0) && Counts(order0, groups0, |rows|, 0) && UniqueIds(offers)
    requires forall i | 0 <= i < |offers| :: LinkedAt(rows, offers[i], offerGroup)
    ensures Complete(rows, offers, groups) && Counts(order, groups, |rows|, |offers|)
  {
    order, groups := order0, groups0;
    CompleteBefore(rows, groups);
    assert offers[..0] == [];
    for k := 0 to |offers|
      invariant AttachedTo(rows, offers, k, order, groups)
    {
      var o := offers[k];
      assert LinkedAt(rows, offers[k], offerGroup);
      LinkSays(rows, o, offerGroup);
      if o.id in offerGroup {
        AttachLinked(rows, offers, k, order, groups);
        var g := offerGroup[o.id];
        groups := groups[g := Receive(groups[g], o)];
      } else {
        AttachCold(rows, offers, k, order, groups);
        var g := ColdGroup(o.id);
        order := order + [g];
        groups := groups[g := ColdGroupOf(o)];
      }
    }
    assert offers[..|offers|] == offers;
  }

  // ---- The view ----

  datatype Listed = Listed(id: GroupId, createdAt: int)

  predicate Newer(a: Listed, b: Listed) { a.createdAt >= b.createdAt }

  /** The groups that are not archived, in the order of the map. */
  function Visible(order: seq<GroupId>, groups: Groups): seq<Listed>
    requires forall g | g in order :: g in groups
  {
    if order == [] then []
    else
      var last := order[|order| - 1];
      Visible(order[..|order| - 1], groups) + if groups[last].archived then [] else [Listed(last, groups[last].createdAt)]
  }

  lemma {:induction false} VisibleIs(order: seq<GroupId>, groups: Groups)
    requires forall g | g in order :: g in groups
    ensures forall x :: x in Visible(order, groups) <==> x.id in order && !groups[x.id].archived && x.createdAt == groups[x.id].createdAt
  {
    if order != [] {
      VisibleIs(order[..|order| - 1], groups);
      assert order == order[..|order| - 1] + [order[|order| - 1]];
    }
  }

  /** No group is listed twice. */
  lemma {:induction false} VisibleOnce(order: seq<GroupId>, groups: Groups)
    requires Distinct(order) && forall g | g in order :: g in groups
    ensures DistinctBy((x: Listed) => x.id, Visible(order, groups))
  {
    if order != [] {
      var init, last := order[..|order| - 1], order[|order| - 1];
      VisibleOnce(init, groups);
      VisibleIs(init, groups);
      assert last !in init;
      var before := Visible(init, groups);
      assert forall i | 0 <= i < |before| :: before[i] in before;
    }
  }

  lemma ListedInOrder(listed: seq<Listed>)
    requires SortedBy(Newer, listed) && DistinctBy((x: Listed) => x.id, listed)
    ensures forall i, j | 0 <= i < j < |listed| :: listed[i].createdAt >= listed[j].createdAt && listed[i].id != listed[j].id
  {
    var id := (x: Listed) => x.id;
    forall i, j | 0 <= i < j < |listed| ensures listed[i].createdAt >= listed[j].createdAt && listed[i].id != listed[j].id {
      assert Newer(listed[i], listed[j]) && id(listed[i]) != id(listed[j]);
    }
  }

  const MAX_INQUIRIES := 200
  const MAX_OFFERS := 500

  /** The query's `take`. */
  function FirstOf<T>(all: seq<T>, n: nat): seq<T> { if |all| > n then all[..n] else all }

  /**
   * The view of the buyer's inquiries and offers, each given oldest first, of which the oldest 200 and
   * 500 are fetched. Of what is fetched nothing is lost and nothing invented: every group holds exactly
   * its own rows and offers, the counts add up to all of both, and what is listed is every group that
   * is not archived, newest first.
   */
  method GetMyRfqs(inquiries: seq<Row>, sent: seq<OfferRow>) returns (order: seq<GroupId>, groups: Groups, listed: seq<Listed>)
    requires UniqueIds(sent)
    ensures var rows, offers := FirstOf(inquiries, MAX_INQUIRIES), FirstOf(sent, MAX_OFFERS);
            Complete(rows, offers, groups) && Counts(order, groups, |rows|, |offers|)
    ensures forall i, j | 0 <= i < j < |listed| :: listed[i].createdAt >= listed[j].createdAt && listed[i].id != listed[j].id
    ensures forall x :: x in listed <==> x.id in groups && !groups[x.id].archived && x.createdAt == groups[x.id].createdAt
  {
    var rows, offers := FirstOf(inquiries, MAX_INQUIRIES), FirstOf(sent, MAX_OFFERS);
    order, groups := GroupInquiries(rows);
    var offerGroup := LinkOffers(rows, offers, groups);
    order, groups := AttachOffers(rows, offers, offerGroup, order, groups);
    VisibleIs(order, groups);
    listed := StableSort(Newer, Visible(order, groups));
    SortPermutes(Newer, Visible(order, groups));
    SortSorts(Newer, Visible(order, groups));
    VisibleOnce(order, groups);
    SortDistinct(Newer, (x: Listed) => x.id, Visible(order, groups));
    ListedInOrder(listed);
  }

  // ---- What a complete view means ----

  lemma {:induction false} RowsOfMembers(rows: seq<Row>, g: GroupId)
    ensures forall r :: r in RowsOf(rows, g) <==> r in rows && KeyOf(r) == g
  {
    if rows != [] {
      RowsOfMembers(rows[..|rows| - 1], g);
      assert rows == rows[..|rows| - 1] + [rows[|rows| - 1]];
    }
  }

  predicate HasRecipient(g: Group, id: Key) {
    exists i | 0 <= i < |g.recipients| :: g.recipients[i].inquiryId == id
  }

  predicate HasOffer(g: Group, id: Id) {
    exists i | 0 <= i < |g.offers| :: g.offers[i].id == id
  }

  lemma {:induction false} ReceivedRest(g: Group, os: seq<OfferRow>)
    ensures var r := ReceiveAll(g, os);
            r.recipients == g.recipients && r.archived == g.archived && r.createdAt == g.createdAt && r.items == g.items
            && r.offerCount == g.offerCount + |os|
  {
    if os != [] {
      ReceivedRest(g, os[..|os| - 1]);
    }
  }

  function OfferLines(os: seq<OfferRow>, items: seq<RfqItem>): seq<OfferLine> {
    seq(|os|, i requires 0 <= i < |os| => OfferLineOf(os[i], items))
  }

  lemma {:induction false} ReceivedOffers(g: Group, os: seq<OfferRow>)
    ensures ReceiveAll(g, os).offers == g.offers + OfferLines(os, g.items)
  {
    if os != [] {
      var init, last := os[..|os| - 1], os[|os| - 1];
      ReceivedOffers(g, init);
      ReceivedRest(g, init);
      OfferLinesSnoc(os, g.items);
    }
  }

  lemma OfferLinesSnoc(os: seq<OfferRow>, items: seq<RfqItem>)
    requires os != []
    ensures OfferLines(os, items) == OfferLines(os[..|os| - 1], items) + [OfferLineOf(os[|os| - 1], items)]
  {
  }

  predicate SameOffers(g: Group, os: seq<OfferRow>) {
    && |g.offers| == |os| == g.offerCount
    && forall i | 0 <= i < |os| :: g.offers[i].id == os[i].id && g.offers[i].priceMinor == os[i].offer.priceMinor
  }

  lemma ColdHolds(os: seq<OfferRow>)
    requires os != []
    ensures var g := ReceiveAll(ColdGroupOf(os[0]), os[1..]);
            SameOffers(g, os) && g.recipients == [] && !g.archived
  {
    var cold, rest := ColdGroupOf(os[0]), os[1..];
    ReceivedOffers(cold, rest);
    ReceivedRest(cold, rest);
    var g := ReceiveAll(cold, rest);
    forall i | 0 <= i < |os| ensures g.offers[i].id == os[i].id && g.offers[i].priceMinor == os[i].offer.priceMinor {
      if i > 0 {
        assert g.offers[i] == OfferLines(rest, cold.items)[i - 1] && rest[i - 1] == os[i];
      }
    }
  }

  lemma SameLines(g: Group, os: seq<OfferRow>, items: seq<RfqItem>)
    requires g.offers == OfferLines(os, items) && g.offerCount == |os|
    ensures SameOffers(g, os)
  {
  }

  lemma EmptyReceives(g: Group, os: seq<OfferRow>)
    requires g.offers == [] && g.offerCount == 0
    ensures SameOffers(ReceiveAll(g, os), os)
  {
    ReceivedOffers(g, os);
    ReceivedRest(g, os);
    SameLines(ReceiveAll(g, os), os, g.items);
  }

  lemma RfqHolds(mine: seq<Row>, os: seq<OfferRow>)
    requires mine != []
    ensures var g := ReceiveAll(GroupOf(mine), os);
            SameOffers(g, os) && g.recipients == RecipientLines(mine) && (g.archived <==> AllArchived(mine))
  {
    GroupHead(mine);
    GroupLines(mine);
    GroupArchive(mine);
    EmptyReceives(GroupOf(mine), os);
    ReceivedRest(GroupOf(mine), os);
  }

  /** A group holds its own offers, in order, and one line for each of its own rows. */
  lemma WholeHolds(rows: seq<Row>, offers: seq<OfferRow>, g: GroupId)
    requires Whole(rows, offers, g).Some?
    ensures SameOffers(Whole(rows, offers, g).value, OffersOf(rows, offers, g))
    ensures Whole(rows, offers, g).value.recipients == RecipientLines(RowsOf(rows, g))
    ensures Whole(rows, offers, g).value.archived <==> RowsOf(rows, g) != [] && AllArchived(RowsOf(rows, g))
  {
    if RowsOf(rows, g) != [] {
      RfqHolds(RowsOf(rows, g), OffersOf(rows, offers, g));
    } else {
      ColdHolds(OffersOf(rows, offers, g));
    }
  }

  lemma WholeOffers(rows: seq<Row>, offers: seq<OfferRow>, g: GroupId, o: OfferRow)
    requires Whole(rows, offers, g).Some? && o in offers
    requires forall o' | o' in offers && o'.id == o.id :: o' == o
    ensures HasOffer(Whole(rows, offers, g).value, o.id) <==> Home(rows, o) == g
  {
    var whole, os := Whole(rows, offers, g).value, OffersOf(rows, offers, g);
    OffersOfIds(rows, offers, g);
    WholeHolds(rows, offers, g);
    if Home(rows, o) == g {
      var i :| 0 <= i < |os| && os[i] == o;
      assert whole.offers[i].id == o.id;
    }
    if HasOffer(whole, o.id) {
      var i :| 0 <= i < |whole.offers| && whole.offers[i].id == o.id;
      assert os[i] in os;
    }
  }

  lemma WholeRecipients(rows: seq<Row>, offers: seq<OfferRow>, g: GroupId, r: Row)
    requires Whole(rows, offers, g).Some? && r in rows
    requires forall r' | r' in rows && r'.id == r.id :: r' == r
    ensures HasRecipient(Whole(rows, offers, g).value, r.id) <==> KeyOf(r) == g
  {
    var whole, mine := Whole(rows, offers, g).value, RowsOf(rows, g);
    RowsOfMembers(rows, g);
    WholeHolds(rows, offers, g);
    if KeyOf(r) == g {
      var i :| 0 <= i < |mine| && mine[i] == r;
      assert whole.recipients[i].inquiryId == r.id;
    }
    if HasRecipient(whole, r.id) {
      var i :| 0 <= i < |whole.recipients| && whole.recipients[i].inquiryId == r.id;
      assert mine[i] in mine;
    }
  }

  /** Each inquiry is a recipient of exactly one group, and each offer sits in exactly one group. */
  lemma ExactlyOneGroup(rows: seq<Row>, offers: seq<OfferRow>, groups: Groups, r: Row, o: OfferRow)
    requires Complete(rows, offers, groups) && r in rows && o in offers
    requires forall r' | r' in rows && r'.id == r.id :: r' == r
    requires forall o' | o' in offers && o'.id == o.id :: o' == o
    ensures KeyOf(r) in groups && forall g | g in groups :: HasRecipient(groups[g], r.id) <==> g == KeyOf(r)
    ensures Home(rows, o) in groups && forall g | g in groups :: HasOffer(groups[g], o.id) <==> g == Home(rows, o)
  {
    RowHasGroup(rows, r);
    assert CompleteAt(rows, offers, groups, KeyOf(r));
    OffersOfIds(rows, offers, Home(rows, o));
    assert o in OffersOf(rows, offers, Home(rows, o));
    assert CompleteAt(rows, offers, groups, Home(rows, o));
    forall g | g in groups
      ensures HasRecipient(groups[g], r.id) <==> g == KeyOf(r)
      ensures HasOffer(groups[g], o.id) <==> g == Home(rows, o)
    {
      assert CompleteAt(rows, offers, groups, g);
      WholeRecipients(rows, offers, g, r);
      WholeOffers(rows, offers, g, o);
    }
  }

  predicate IsMin(min: Option<nat>, offers: seq<OfferLine>) {
    match min
    case None => offers == []
    case Some(p) => (exists i | 0 <= i < |offers| :: offers[i].priceMinor == p) && forall i | 0 <= i < |offers| :: p <= offers[i].priceMinor
  }

  lemma {:induction false} MinIsKept(g: Group, os: seq<OfferRow>)
    requires IsMin(g.minPriceMinor, g.offers)
    ensures IsMin(ReceiveAll(g, os).minPriceMinor, ReceiveAll(g, os).offers)
  {
    if os != [] {
      MinIsKept(g, os[..|os| - 1]);
      var before, o := ReceiveAll(g, os[..|os| - 1]), os[|os| - 1];
      var after := Receive(before, o);
      assert after.offers[|before.offers|].priceMinor == o.offer.priceMinor;
      if before.minPriceMinor.Some? {
        var i :| 0 <= i < |before.offers| && before.offers[i].priceMinor == before.minPriceMinor.value;
        assert after.offers[i].priceMinor == before.minPriceMinor.value;
      }
    }
  }

  /** The shown minimum is the minimum, and a group counts as archived exactly when it has rows and all are. */
  lemma MinAndArchive(rows: seq<Row>, offers: seq<OfferRow>, groups: Groups, g: GroupId)
    requires Complete(rows, offers, groups) && g in groups
    ensures IsMin(groups[g].minPriceMinor, groups[g].offers)
    ensures SameOffers(groups[g], OffersOf(rows, offers, g)) && groups[g].recipients == RecipientLines(RowsOf(rows, g))
    ensures groups[g].archived <==> RowsOf(rows, g) != [] && AllArchived(RowsOf(rows, g))
  {
    var mine, os := RowsOf(rows, g), OffersOf(rows, offers, g);
    assert CompleteAt(rows, offers, groups, g);
    WholeHolds(rows, offers, g);
    if mine != [] {
      GroupHead(mine);
      MinIsKept(GroupOf(mine), os);
    } else {
      assert ColdGroupOf(os[0]).offers[0].priceMinor == os[0].offer.priceMinor;
      MinIsKept(ColdGroupOf(os[0]), os[1..]);
    }
  }

  /** The total shown for an offer is the one acceptance reports, unless its only line has no price of its own. */
  lemma ViewTotalIsAcceptTotal(offer: Offer, row: Inquiry)
    ensures var items := ItemsOf(row);
            ViewTotal(offer, items) == AcceptTotal(offer, row)
            <==> |items| > 1 || PricesFor(offer, |items|)[0].Some? || offer.priceMinor * items[0].qty == 0
  {
    var items := ItemsOf(row);
    var prices := PricesFor(offer, |items|);
    if |items| == 1 && prices[0].None? {
      assert SumPriced(items[..0], prices[..0]) == 0;
    }
  }

  /** So for every answer the handler took, and every offer made without one, both totals are the same on any row of the group. */
  lemma TotalsAgree(offer: Offer, row: Inquiry, asked: Inquiry, sellerName: string, prices: seq<Option<int>>, priceMinor: Option<nat>, now: int)
    requires || offer.prices.None?
             || (OfferFor(asked, sellerName, prices, priceMinor, now) == Ok(offer) && BasketOf(row) == BasketOf(asked))
    ensures ViewTotal(offer, ItemsOf(row)) == AcceptTotal(offer, row)
  {
    var items := ItemsOf(row);
    if offer.prices.Some? {
      assert |items| == |BasketOf(row)| == |BasketOf(asked)| == |ItemsOf(asked)|;
      var i := RfqRuns.FirstPriceAt(offer.prices.value);
      assert |items| == 1 ==> i == 0;
    }
    ViewTotalIsAcceptTotal(offer, row);
  }
}
