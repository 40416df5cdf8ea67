/** What the buyer's view shows, given that it fetches only the oldest inquiries and offers. */
module RfqFetch {
  import opened Wrappers
  import opened Rfq
  import opened RfqRuns
  import opened RfqView
  import RfqClosing

  /** The buyer's inquiries, each once, oldest first; between equal dates the database may answer in any order. */
  ghost predicate IsBuyerQuery(db: Db, buyer: Id, all: seq<Row>) {
    && (forall i, j | 0 <= i < j < |all| :: all[i].inq.createdAt <= all[j].inq.createdAt && all[i].id != all[j].id)
    && (forall r | r in all :: r.id in db.inquiries && db.inquiries[r.id] == r.inq && r.inq.buyerId == buyer)
    && (forall k | k in db.inquiries && db.inquiries[k].buyerId == buyer :: Row(k, db.inquiries[k]) in all)
  }

  function Fetched(all: seq<Row>): seq<Row> { FirstOf(all, MAX_INQUIRIES) }

  // ---- Which inquiries and offers are shown ----

  predicate DistinctRows(all: seq<Row>) { forall i, j | 0 <= i < j < |all| :: all[i].id != all[j].id }

  lemma RecipientIsFetched(rows: seq<Row>, offers: seq<OfferRow>, groups: Groups, g: GroupId, id: Key)
    requires Complete(rows, offers, groups) && g in groups && HasRecipient(groups[g], id)
    ensures exists i | 0 <= i < |rows| :: rows[i].id == id
  {
    assert CompleteAt(rows, offers, groups, g);
    WholeHolds(rows, offers, g);
    RowsOfMembers(rows, g);
    var i :| 0 <= i < |groups[g].recipients| && groups[g].recipients[i].inquiryId == id;
    assert RowsOf(rows, g)[i] in rows;
  }

  lemma OfferIsFetched(rows: seq<Row>, offers: seq<OfferRow>, groups: Groups, g: GroupId, id: Id)
    requires Complete(rows, offers, groups) && g in groups && HasOffer(groups[g], id)
    ensures exists i | 0 <= i < |offers| :: offers[i].id == id
  {
    assert CompleteAt(rows, offers, groups, g);
    WholeHolds(rows, offers, g);
    OffersOfIds(rows, offers, g);
    var i :| 0 <= i < |groups[g].offers| && groups[g].offers[i].id == id;
    assert OffersOf(rows, offers, g)[i] in offers;
  }

  predicate InSome(groups: Groups, id: Key) { exists g | g in groups :: HasRecipient(groups[g], id) }

  predicate OfferInSome(groups: Groups, id: Id) { exists g | g in groups :: HasOffer(groups[g], id) }

  /** An inquiry is in the view exactly when it is one of the buyer's oldest 200, however old or new the view's other rows. */
  lemma InquiryShownIff(all: seq<Row>, offers: seq<OfferRow>, groups: Groups, n: nat)
    requires DistinctRows(all) && Complete(Fetched(all), offers, groups) && n < |all|
    ensures InSome(groups, all[n].id) <==> n < MAX_INQUIRIES
  {
    var rows, r := Fetched(all), all[n];
    if n < MAX_INQUIRIES {
      assert rows[n] == r;
      RowHasGroup(rows, r);
      assert CompleteAt(rows, offers, groups, KeyOf(r));
      WholeRecipients(rows, offers, KeyOf(r), r);
      assert HasRecipient(groups[KeyOf(r)], r.id);
    }
    if InSome(groups, r.id) {
      var g :| g in groups && HasRecipient(groups[g], r.id);
      RecipientIsFetched(rows, offers, groups, g, r.id);
      var i :| 0 <= i < |rows| && rows[i].id == r.id;
      assert all[i].id == all[n].id;
    }
  }

  lemma FetchedOfferIsShown(rows: seq<Row>, offers: seq<OfferRow>, groups: Groups, o: OfferRow)
    requires UniqueIds(offers) && Complete(rows, offers, groups) && o in offers
    ensures OfferInSome(groups, o.id)
  {
    var g := Home(rows, o);
    OffersOfIds(rows, offers, g);
    assert CompleteAt(rows, offers, groups, g);
    assert o in OffersOf(rows, offers, g);
    WholeOffers(rows, offers, g, o);
    assert HasOffer(groups[g], o.id);
  }

  /** An offer is in the view exactly when it is one of the buyer's oldest 500. */
  lemma OfferShownIff(rows: seq<Row>, sent: seq<OfferRow>, groups: Groups, n: nat)
    requires UniqueIds(sent) && Complete(rows, FirstOf(sent, MAX_OFFERS), groups) && n < |sent|
    ensures OfferInSome(groups, sent[n].id) <==> n < MAX_OFFERS
  {
    var offers, o := FirstOf(sent, MAX_OFFERS), sent[n];
    if n < MAX_OFFERS {
      assert offers[n] == o;
      FetchedOfferIsShown(rows, offers, groups, o);
    }
    if OfferInSome(groups, o.id) {
      var g :| g in groups && HasOffer(groups[g], o.id);
      OfferIsFetched(rows, offers, groups, g, o.id);
      var i :| 0 <= i < |offers| && offers[i].id == o.id;
      assert sent[i].id == sent[n].id;
    }
  }

  // ---- When an offer is shown in the group its acceptance closes ----

  predicate Fits(r: Row, o: OfferRow) { Pairs(r, o) && r.inq.createdAt <= o.offer.createdAt }

  /** The last fitting row is there whenever one fits, and none that fits is newer. */
  lemma {:induction false} LegacyRowIsNewest(rows: seq<Row>, o: OfferRow, r: Row)
    requires forall i, j | 0 <= i < j < |rows| :: rows[i].inq.createdAt <= rows[j].inq.createdAt
    requires r in rows && Fits(r, o)
    ensures LegacyRow(rows, o).Some? && r.inq.createdAt <= LegacyRow(rows, o).value.inq.createdAt
  {
    var init, last := rows[..|rows| - 1], rows[|rows| - 1];
    var k :| 0 <= k < |rows| && rows[k] == r;
    if Fits(last, o) {
      assert k == |rows| - 1 || rows[k].inq.createdAt <= rows[|rows| - 1].inq.createdAt;
    } else {
      assert r in init by {
        assert init[k] == r;
      }
      LegacyRowIsNewest(init, o, r);
    }
  }

  lemma {:induction false} LegacyRowFits(rows: seq<Row>, o: OfferRow)
    ensures LegacyRow(rows, o).Some? ==> LegacyRow(rows, o).value in rows && Fits(LegacyRow(rows, o).value, o)
  {
    if rows != [] {
      LegacyRowFits(rows[..|rows| - 1], o);
    }
  }

  /** Position `i` is fetched, its row fits the offer, and no fetched row that fits is newer. */
  predicate NewestFetched(all: seq<Row>, o: OfferRow, i: nat) {
    && i < |Fetched(all)| && Fits(all[i], o)
    && forall j | 0 <= j < |Fetched(all)| && Fits(all[j], o) :: all[j].inq.createdAt <= all[i].inq.createdAt
  }

  /**
   * The group's inquiries the view needs are among the oldest 200: any of the group's for an offer that
   * names it, the newest of the offer's pair for one that is looked up.
   */
  predicate Reaches(all: seq<Row>, o: OfferRow, group: Option<Key>) {
    match group
    case None => true
    case Some(g) =>
      if o.offer.rfqGroupId.Some? then exists i | 0 <= i < |Fetched(all)| :: KeyOf(all[i]) == RfqGroup(g)
      else exists i | 0 <= i < |Fetched(all)| :: NewestFetched(all, o, i) && KeyOf(all[i]) == RfqGroup(g)
  }

  function Shown(o: OfferRow, group: Option<Key>): GroupId {
    match group
    case None => ColdGroup(o.id)
    case Some(g) => RfqGroup(g)
  }

  lemma NamedShownIff(rows: seq<Row>, o: OfferRow)
    requires o.offer.rfqGroupId.Some?
    ensures Home(rows, o) == RfqGroup(o.offer.rfqGroupId.value) <==> HasGroup(rows, RfqGroup(o.offer.rfqGroupId.value))
  {
    HomeExists(rows, o);
  }

  lemma HasGroupIff(rows: seq<Row>, g: GroupId)
    ensures HasGroup(rows, g) <==> exists i | 0 <= i < |rows| :: KeyOf(rows[i]) == g
  {
    RowsOfMembers(rows, g);
    if HasGroup(rows, g) {
      assert RowsOf(rows, g)[0] in rows;
    }
    if i :| 0 <= i < |rows| && KeyOf(rows[i]) == g {
      assert rows[i] in RowsOf(rows, g);
    }
  }

  /** Two fetched rows that are both newest of the pair have one group, if dates of the pair do not tie. */
  lemma NewestIsOne(db: Db, all: seq<Row>, o: OfferRow, i: nat, r: Row)
    requires IsBuyerQuery(db, o.offer.buyerId, all) && TiesAgree(db.inquiries, o.offer)
    requires NewestFetched(all, o, i) && r in Fetched(all) && Fits(r, o) && all[i].inq.createdAt <= r.inq.createdAt
    ensures KeyOf(r) == KeyOf(all[i])
  {
    assert all[i] in all && r in all;
    var j :| 0 <= j < |Fetched(all)| && Fetched(all)[j] == r;
    assert Fits(all[j], o);
    assert SamePair(db.inquiries[all[i].id], o.offer) && SamePair(db.inquiries[r.id], o.offer);
  }

  lemma LookedUpShownIff(db: Db, all: seq<Row>, o: OfferRow, g: Key)
    requires IsBuyerQuery(db, o.offer.buyerId, all) && TiesAgree(db.inquiries, o.offer) && o.offer.rfqGroupId.None?
    ensures Home(Fetched(all), o) == RfqGroup(g) <==> exists i | 0 <= i < |Fetched(all)| :: NewestFetched(all, o, i) && KeyOf(all[i]) == RfqGroup(g)
  {
    var rows := Fetched(all);
    LegacyRowFits(rows, o);
    forall j | 0 <= j < |rows| && Fits(all[j], o)
      ensures LegacyRow(rows, o).Some? && all[j].inq.createdAt <= LegacyRow(rows, o).value.inq.createdAt
    {
      assert rows[j] == all[j];
      LegacyRowIsNewest(rows, o, all[j]);
    }
    if LegacyRow(rows, o).Some? {
      var i :| 0 <= i < |rows| && rows[i] == LegacyRow(rows, o).value;
      assert NewestFetched(all, o, i);
    }
    if i :| 0 <= i < |rows| && NewestFetched(all, o, i) && KeyOf(all[i]) == RfqGroup(g) {
      NewestIsOne(db, all, o, i, LegacyRow(rows, o).value);
    }
  }

  lemma NoneFetched(db: Db, all: seq<Row>, o: OfferRow)
    requires IsBuyerQuery(db, o.offer.buyerId, all) && IsLegacy(db.inquiries, o.offer, None)
    ensures LegacyRow(Fetched(all), o).None?
  {
    LegacyRowFits(Fetched(all), o);
    forall r | r in Fetched(all) ensures !Fits(r, o) {
      assert r in all && !SamePair(db.inquiries[r.id], o.offer);
    }
  }

  /**
   * The buyer sees an offer in the very group its acceptance closes exactly when the view's fetch of the
   * oldest 200 reaches that group; an offer that closes none stands alone.
   */
  lemma ShownWhereAcceptedIff(db: Db, all: seq<Row>, o: OfferRow, legacy: Option<Key>)
    requires IsBuyerQuery(db, o.offer.buyerId, all) && IsLegacy(db.inquiries, o.offer, legacy)
    requires o.offer.rfqGroupId.Some? || TiesAgree(db.inquiries, o.offer)
    ensures var group := OfferGroup(db.inquiries, o.offer, legacy);
            Home(Fetched(all), o) == Shown(o, group) <==> Reaches(all, o, group)
  {
    var rows, group := Fetched(all), OfferGroup(db.inquiries, o.offer, legacy);
    if o.offer.rfqGroupId.Some? {
      NamedShownIff(rows, o);
      HasGroupIff(rows, RfqGroup(group.value));
      assert forall i | 0 <= i < |rows| :: rows[i] == all[i];
    } else if legacy.Some? {
      LookedUpShownIff(db, all, o, group.value);
    } else {
      NoneFetched(db, all, o);
    }
  }

  lemma LegacyReached(db: Db, all: seq<Row>, o: OfferRow, legacy: Key)
    requires IsBuyerQuery(db, o.offer.buyerId, all) && |all| <= MAX_INQUIRIES && IsLegacy(db.inquiries, o.offer, Some(legacy))
    ensures exists i | 0 <= i < |all| :: NewestFetched(all, o, i) && KeyOf(all[i]) == RfqGroup(GroupKey(legacy, db.inquiries[legacy]))
  {
    var r := Row(legacy, db.inquiries[legacy]);
    var i :| 0 <= i < |all| && all[i] == r;
    forall j | 0 <= j < |all| && Fits(all[j], o) ensures all[j].inq.createdAt <= r.inq.createdAt {
      assert all[j] in all && SamePair(db.inquiries[all[j].id], o.offer);
    }
    assert NewestFetched(all, o, i);
  }

  /** So a buyer with at most 200 inquiries sees every offer there. */
  lemma FewAreShownWhereAccepted(db: Db, all: seq<Row>, o: OfferRow, legacy: Option<Key>)
    requires WellFormed(db) && Linked(db.inquiries, o.offer) && |all| <= MAX_INQUIRIES
    requires IsBuyerQuery(db, o.offer.buyerId, all) && IsLegacy(db.inquiries, o.offer, legacy)
    requires o.offer.rfqGroupId.Some? || TiesAgree(db.inquiries, o.offer)
    ensures Home(Fetched(all), o) == Shown(o, OfferGroup(db.inquiries, o.offer, legacy))
  {
    ShownWhereAcceptedIff(db, all, o, legacy);
    if o.offer.rfqGroupId.Some? {
      var k :| k in db.inquiries && db.inquiries[k].rfqGroupId == o.offer.rfqGroupId && db.inquiries[k].buyerId == o.offer.buyerId;
      var i :| 0 <= i < |all| && all[i] == Row(k, db.inquiries[k]);
      assert KeyOf(all[i]) == RfqGroup(o.offer.rfqGroupId.value);
    } else if legacy.Some? {
      LegacyReached(db, all, o, legacy.value);
    }
  }

  // ---- What it is shown at ----

  lemma LineOfOffer(rows: seq<Row>, offers: seq<OfferRow>, groups: Groups, o: OfferRow)
    requires Complete(rows, offers, groups) && o in offers && Home(rows, o).RfqGroup?
    ensures RowsOf(rows, Home(rows, o)) != [] && Home(rows, o) in groups
    ensures OfferLineOf(o, ItemsOf(RowsOf(rows, Home(rows, o))[0].inq)) in groups[Home(rows, o)].offers
  {
    var g := Home(rows, o);
    var mine, received := RowsOf(rows, g), OffersOf(rows, offers, g);
    HomeExists(rows, o);
    assert CompleteAt(rows, offers, groups, g);
    OffersOfIds(rows, offers, g);
    var i :| 0 <= i < |received| && received[i] == o;
    GroupHead(mine);
    ReceivedOffers(GroupOf(mine), received);
    assert OfferLines(received, ItemsOf(mine[0].inq))[i] == OfferLineOf(o, ItemsOf(mine[0].inq));
  }

  lemma SameTotal(offer: Offer, a: Inquiry, b: Inquiry)
    requires BasketOf(a) == BasketOf(b) && b.items != Some([])
    ensures AcceptTotal(offer, a) == AcceptTotal(offer, b)
  {
    AcceptTotalIsOrderTotal(offer, a, b);
    AcceptTotalIsOrderTotal(offer, b, b);
  }

  /**
   * Shown in the group its acceptance closes, an answer the handler took, or an offer made without one,
   * is shown at the total the acceptance reports, whichever row that reads.
   */
  lemma ShownTotalIsAccepted(db: Db, all: seq<Row>, offers: seq<OfferRow>, groups: Groups, o: OfferRow, seen: Key,
                             asked: Inquiry, sellerName: string, prices: seq<Option<int>>, priceMinor: Option<nat>, now: int)
    requires WellFormed(db) && IsBuyerQuery(db, o.offer.buyerId, all) && Complete(Fetched(all), offers, groups) && o in offers
    requires seen in db.inquiries && Home(Fetched(all), o) == RfqGroup(GroupKey(seen, db.inquiries[seen]))
    requires || o.offer.prices.None?
             || (OfferFor(asked, sellerName, prices, priceMinor, now) == Ok(o.offer) && BasketOf(db.inquiries[seen]) == BasketOf(asked))
    ensures Home(Fetched(all), o) in groups
    ensures exists line | line in groups[Home(Fetched(all), o)].offers :: line.id == o.id && line.totalMinor == AcceptTotal(o.offer, db.inquiries[seen])
  {
    var rows, g := Fetched(all), Home(Fetched(all), o);
    LineOfOffer(rows, offers, groups, o);
    var first := RowsOf(rows, g)[0];
    RowsOfMembers(rows, g);
    assert first in rows && first in all;
    assert SharedOf(db.inquiries[first.id]) == SharedOf(db.inquiries[seen]);
    TotalsAgree(o.offer, first.inq, asked, sellerName, prices, priceMinor, now);
    assert RowOk(seen, db.inquiries[seen]);
    SameTotal(o.offer, first.inq, db.inquiries[seen]);
    assert OfferLineOf(o, ItemsOf(first.inq)).totalMinor == AcceptTotal(o.offer, db.inquiries[seen]);
  }

  // ---- Counted on the table ----

  /** The buyer's inquiries dated before `t`. */
  function Older(db: Db, buyer: Id, t: int): set<Key> {
    set k | k in db.inquiries && db.inquiries[k].buyerId == buyer && db.inquiries[k].createdAt < t
  }

  function Before(all: seq<Row>, t: int): (n: nat)
    ensures n <= |all|
  {
    if all == [] || all[0].inq.createdAt >= t then 0 else 1 + Before(all[1..], t)
  }

  lemma {:induction false} BeforeSplits(all: seq<Row>, t: int)
    requires forall i, j | 0 <= i < j < |all| :: all[i].inq.createdAt <= all[j].inq.createdAt
    ensures forall i | 0 <= i < |all| :: i < Before(all, t) <==> all[i].inq.createdAt < t
  {
    if all != [] && all[0].inq.createdAt < t {
      BeforeSplits(all[1..], t);
      assert forall i | 0 < i < |all| :: all[i] == all[1..][i - 1];
    }
  }

  lemma {:induction false} CountRows(all: seq<Row>, n: nat)
    requires DistinctRows(all) && n <= |all|
    ensures |set i | 0 <= i < n :: all[i].id| == n
  {
    if n > 0 {
      CountRows(all, n - 1);
      assert (set i | 0 <= i < n :: all[i].id) == (set i | 0 <= i < n - 1 :: all[i].id) + {all[n - 1].id};
    }
  }

  lemma OlderCount(db: Db, buyer: Id, all: seq<Row>, t: int)
    requires IsBuyerQuery(db, buyer, all)
    ensures |Older(db, buyer, t)| == Before(all, t)
  {
    var n := Before(all, t);
    BeforeSplits(all, t);
    CountRows(all, n);
    var ids := set i | 0 <= i < n :: all[i].id;
    forall k | k in Older(db, buyer, t) ensures k in ids {
      var i :| 0 <= i < |all| && all[i] == Row(k, db.inquiries[k]);
      assert i < n;
    }
    forall i | 0 <= i < n ensures all[i].id in Older(db, buyer, t) {
      assert all[i] in all;
    }
    assert ids == Older(db, buyer, t);
  }

  /** `first` is a row of the group with the group's oldest date, which the buyer's other groups do not share. */
  predicate OldestOf(db: Db, buyer: Id, g: Key, first: Key) {
    && first in db.inquiries && db.inquiries[first].buyerId == buyer && GroupKey(first, db.inquiries[first]) == g
    && forall k | k in db.inquiries && db.inquiries[k].buyerId == buyer ::
         && (GroupKey(k, db.inquiries[k]) == g ==> db.inquiries[first].createdAt <= db.inquiries[k].createdAt)
         && (db.inquiries[k].createdAt == db.inquiries[first].createdAt ==> GroupKey(k, db.inquiries[k]) == g)
  }

  /** A group is shown exactly when fewer than 200 of the buyer's inquiries are older than its oldest. */
  lemma FewOlderIff(db: Db, buyer: Id, all: seq<Row>, g: Key, first: Key)
    requires IsBuyerQuery(db, buyer, all) && OldestOf(db, buyer, g, first)
    ensures HasGroup(Fetched(all), RfqGroup(g)) <==> |Older(db, buyer, db.inquiries[first].createdAt)| < MAX_INQUIRIES
  {
    var t := db.inquiries[first].createdAt;
    var n := Before(all, t);
    BeforeSplits(all, t);
    OlderCount(db, buyer, all, t);
    HasGroupIff(Fetched(all), RfqGroup(g));
    var p :| 0 <= p < |all| && all[p] == Row(first, db.inquiries[first]);
    assert n <= p && all[n] in all && all[n].inq.createdAt == t;
    if n < MAX_INQUIRIES {
      assert KeyOf(Fetched(all)[n]) == RfqGroup(g);
    }
    if i :| 0 <= i < |Fetched(all)| && KeyOf(Fetched(all)[i]) == RfqGroup(g) {
      assert all[i] in all;
    }
  }

  // ---- 201 inquiries ----

  const NOTHING := Db(map[], map[], map[])

  /** Request `i` asks the seller `x`, or, as the last of 201, the seller "s", for two of a good. */
  function SellerAt(x: Id, i: nat): Id { if i < MAX_INQUIRIES then x else "s" }

  function AskAt(x: Id, i: nat): Op {
    RequestOp("b", [Recipient(SellerAt(x, i), map["g" := "l"])], [BasketLine("g", 2)], Uuid(i), [Oid(i)], 1000, i)
  }

  function RowAt(x: Id, i: nat): Inquiry {
    Inquiry("b", SellerAt(x, i), "l", "g", 2, Some(Uuid(i)), Some([RfqItem("g", 2, Some("l"))]), Some(1000), None, None, None, None, RowNew, i)
  }

  function Asks(x: Id, n: nat): seq<Op> { seq(n, i requires 0 <= i < n => AskAt(x, i)) }

  function Keys(n: nat): set<Key> { set i: nat | i < n :: Oid(i) }

  function Asked(x: Id, n: nat): Db { NOTHING.(inquiries := map k | k in Keys(n) :: RowAt(x, k.n)) }

  lemma AskCreates(before: map<Key, Inquiry>, x: Id, i: nat)
    ensures var op := AskAt(x, i); WithRows(before, op.ids, "b", op.rs, op.basket, Uuid(i), 1000, i) == before[Oid(i) := RowAt(x, i)]
  {
    var op := AskAt(x, i);
    assert op.rs[..0] == [] && op.ids[..0] == [];
    assert Snapshot(op.basket, op.rs[0].listings) == [RfqItem("g", 2, Some("l"))];
    assert WithRows(before, [], "b", [], op.basket, Uuid(i), 1000, i) == before;
    assert NewRow("b", op.rs[0], op.basket, Uuid(i), 1000, i) == Some(RowAt(x, i));
  }

  lemma AskIsValid(x: Id, i: nat)
    ensures Valid(Asked(x, i), AskAt(x, i))
  {
  }

  lemma AskStep(x: Id, i: nat)
    ensures Apply(Asked(x, i), AskAt(x, i)) == Asked(x, i + 1)
  {
    AskIsValid(x, i);
    AskCreates(Asked(x, i).inquiries, x, i);
    AskedNext(x, i);
    RequestApplies(Asked(x, i), AskAt(x, i));
  }

  lemma AskedNext(x: Id, i: nat)
    ensures Asked(x, i).inquiries[Oid(i) := RowAt(x, i)] == Asked(x, i + 1).inquiries
  {
    assert Keys(i + 1) == Keys(i) + {Oid(i)};
  }

  lemma RequestApplies(db: Db, op: Op)
    requires op.RequestOp? && Valid(db, op)
    ensures Apply(db, op) == db.(inquiries := WithRows(db.inquiries, op.ids, op.buyer, op.rs, op.basket, op.group, op.expiresAt, op.now))
  {
  }

  lemma {:induction false} AskRun(x: Id, n: nat, all: nat)
    requires n <= all
    ensures Run(NOTHING, Asks(x, all)[..n]) == Asked(x, n)
  {
    if n == 0 {
      assert Asked(x, 0).inquiries == map[];
    } else {
      AskRun(x, n - 1, all);
      RfqClosing.RunSnoc(NOTHING, Asks(x, all), n - 1);
      AskStep(x, n - 1);
    }
  }

  const LATE := SendOp({"s"}, "o", Oid(200), "S", [], Some(5), 300)
  const LATE_OFFER := Offer("b", "s", "S", "l", 5, None, Some(Uuid(200)), 300)
  const SHOWN_OFFER := OfferRow("o", LATE_OFFER, false, "g")

  /** The last of the 201 answered. */
  function Answered(x: Id): Db {
    var row := RowAt(x, 200).(status := RowAnswered);
    Db(Asked(x, 201).inquiries[Oid(200) := row], map["o" := LATE_OFFER], map[])
  }

  /** The buyer's rows, oldest first. */
  function AllRows(x: Id): seq<Row> {
    seq(201, i requires 0 <= i < 201 => Row(Oid(i), if i == 200 then RowAt(x, i).(status := RowAnswered) else RowAt(x, i)))
  }

  lemma LateAnswer(x: Id)
    ensures Apply(Asked(x, 201), LATE) == Answered(x)
  {
    assert Oid(200) in Keys(201);
    assert OfferFor(RowAt(x, 200), "S", [], Some(5), 300) == Ok(LATE_OFFER);
  }

  lemma AllRowsAreQueried(x: Id)
    ensures IsBuyerQuery(Answered(x), "b", AllRows(x))
  {
    var db, all := Answered(x), AllRows(x);
    forall r | r in all ensures r.id in db.inquiries && db.inquiries[r.id] == r.inq && r.inq.buyerId == "b" {
      var i :| 0 <= i < 201 && all[i] == r;
      assert Oid(i) in Keys(201);
    }
    forall k | k in db.inquiries && db.inquiries[k].buyerId == "b" ensures Row(k, db.inquiries[k]) in all {
      assert k in Keys(201) && all[k.n].id == k;
    }
  }

  /** Where the view shows the answer: with the last fetched inquiry if that went to the same seller, otherwise on its own. */
  lemma LateHome(x: Id)
    ensures Home(Fetched(AllRows(x)), SHOWN_OFFER) == if x == "s" then RfqGroup(Uuid(199)) else ColdGroup("o")
  {
    var rows := Fetched(AllRows(x));
    forall i | 0 <= i < |rows| ensures KeyOf(rows[i]) == RfqGroup(Uuid(i)) && rows[i].inq.sellerId == x {
    }
    HasGroupIff(rows, RfqGroup(Uuid(200)));
    LegacyRowFits(rows, SHOWN_OFFER);
    assert rows[199].inq.createdAt == 199;
  }

  lemma AnsweredIsReached(x: Id)
    ensures Apply(Run(NOTHING, Asks(x, 201)), LATE) == Answered(x) && WellFormed(Answered(x))
  {
    AskRun(x, 201, 201);
    assert Asks(x, 201)[..201] == Asks(x, 201);
    LateAnswer(x);
    EmptyWellFormed();
    RunOk(NOTHING, Asks(x, 201));
    StepOk(Asked(x, 201), LATE);
  }

  /**
   * After 201 requests of one buyer the last is answered. Accepting that answer closes its group, at ten
   * for two pieces; the view shows it at five on its own, or under the 200th inquiry if that asked the same seller.
   */
  lemma LateAnswerIsElsewhere(x: Id)
    ensures Apply(Run(NOTHING, Asks(x, 201)), LATE) == Answered(x) && WellFormed(Answered(x))
    ensures IsBuyerQuery(Answered(x), "b", AllRows(x)) && Answered(x).offers["o"] == LATE_OFFER
    ensures forall legacy :: OfferGroup(Answered(x).inquiries, LATE_OFFER, legacy) == Some(Uuid(200))
    ensures Home(Fetched(AllRows(x)), SHOWN_OFFER) == if x == "s" then RfqGroup(Uuid(199)) else ColdGroup("o")
    ensures AcceptTotal(LATE_OFFER, RowAt(x, 200)) == 10 && ColdGroupOf(SHOWN_OFFER).offers[0].totalMinor == 5
  {
    AnsweredIsReached(x);
    AllRowsAreQueried(x);
    LateHome(x);
    assert ItemsOf(RowAt(x, 200)) == [RfqItem("g", 2, Some("l"))];
    assert PricesFor(LATE_OFFER, 1) == [Some(5)];
  }
}
