/** What every run of the inquiry-group handlers keeps, and the total an accepted offer becomes. */
module RfqRuns {
  import opened Wrappers
  import opened Rfq
  import Orders

  datatype Op =
    | StopOp(owned: set<Id>, biz: Id, g: Key, seen: Option<Key>, mine: Option<Key>, now: int)
    | RestartOp(owned: set<Id>, biz: Id, g: Key, seen: Option<Key>, mine: Option<Key>)
    | ArchiveOp(owned: set<Id>, biz: Id, g: Key, seen: Option<Key>, mine: Option<Key>)
    | RequestOp(buyer: Id, rs: seq<Recipient>, basket: seq<BasketLine>, group: Key, ids: seq<Key>, expiresAt: int, now: int)
    | RepeatOp(owned: set<Id>, biz: Id, g: Key, seen: Option<Key>, mine: Option<Key>, src: Option<Key>, rs: seq<Recipient>, group: Key, ids: seq<Key>, now: int)
    | SendOp(owned: set<Id>, offerId: Id, inquiryId: Key, sellerName: string, prices: seq<Option<int>>, priceMinor: Option<nat>, now: int)
    | ColdOp(offerId: Id, offer: Offer)
    | AcceptOp(owned: set<Id>, biz: Id, offerId: Id, legacy: Option<Key>, seen: Option<Key>, now: int)
    | OrderOp(orderId: Id, biz: Id, offerId: Id, legacy: Option<Key>, seen: Option<Key>, now: int)
    | MergeOp(from: Id, into: Id)

  predicate Answers(db: Db, biz: Id, g: Key, seen: Option<Key>, mine: Option<Key>) {
    IsFirst(db.inquiries, g, seen) && IsMine(db.inquiries, biz, g, mine)
  }

  /** The operation carries answers its queries could have had, and fresh keys. */
  predicate Valid(db: Db, op: Op) {
    match op
    case StopOp(_, biz, g, seen, mine, _) => Answers(db, biz, g, seen, mine)
    case RestartOp(_, biz, g, seen, mine) => Answers(db, biz, g, seen, mine)
    case ArchiveOp(_, biz, g, seen, mine) => Answers(db, biz, g, seen, mine)
    case RequestOp(_, rs, basket, group, ids, _, _) => basket != [] && |ids| == |rs| && Fresh(db.inquiries, group, ids)
    case RepeatOp(_, biz, g, seen, mine, src, rs, group, ids, _) =>
      Answers(db, biz, g, seen, mine) && IsFirst(db.inquiries, g, src) && |ids| == |rs| && Fresh(db.inquiries, group, ids)
    case SendOp(_, _, _, _, _, _, _) => true
    case ColdOp(_, offer) => offer.rfqGroupId.None? && offer.prices.None?
    case AcceptOp(_, _, offerId, legacy, seen, _) => offerId in db.offers ==> AcceptAnswers(db, db.offers[offerId], legacy, seen)
    case OrderOp(_, _, offerId, legacy, seen, _) => offerId in db.offers ==> AcceptAnswers(db, db.offers[offerId], legacy, seen)
    case MergeOp(_, _) => true
  }

  // ---- A duplicate listing is merged into another of its seller and good ----

  function Relisted(listingId: Id, from: Id, into: Id): Id { if listingId == from then into else listingId }

  function MergedRow(row: Inquiry, from: Id, into: Id): Inquiry { row.(listingId := Relisted(row.listingId, from, into)) }

  function MergedOffer(offer: Offer, from: Id, into: Id): Offer { offer.(listingId := Relisted(offer.listingId, from, into)) }

  function MergeListings(db: Db, from: Id, into: Id): Db {
    Db(map k | k in db.inquiries :: MergedRow(db.inquiries[k], from, into),
       map o | o in db.offers :: MergedOffer(db.offers[o], from, into),
       db.orders)
  }

  function Apply(db: Db, op: Op): Db {
    if !Valid(db, op) then db
    else
      match op
      case StopOp(owned, biz, g, seen, mine, now) => StopOrArchive(db, owned, biz, g, seen, mine, Stop(now)).0
      case RestartOp(owned, biz, g, seen, mine) => RestartGroup(db, owned, biz, g, seen, mine).0
      case ArchiveOp(owned, biz, g, seen, mine) => StopOrArchive(db, owned, biz, g, seen, mine, ArchiveAll).0
      case RequestOp(buyer, rs, basket, group, ids, expiresAt, now) =>
        db.(inquiries := WithRows(db.inquiries, ids, buyer, rs, basket, group, expiresAt, now))
      case RepeatOp(owned, biz, g, seen, mine, src, rs, group, ids, now) => RepeatGroup(db, owned, biz, g, seen, mine, src, rs, group, ids, now)
      case SendOp(owned, offerId, inquiryId, name, prices, priceMinor, now) =>
        SendOfferTo(db, owned, offerId, inquiryId, name, prices, priceMinor, now).0
      case ColdOp(offerId, offer) => if offerId in db.offers then db else db.(offers := db.offers[offerId := offer])
      case AcceptOp(owned, biz, offerId, legacy, seen, now) => AcceptOffer(db, owned, biz, offerId, legacy, seen, now).0
      case OrderOp(orderId, biz, offerId, legacy, seen, now) => OrderFromOffer(db, orderId, biz, offerId, legacy, seen, now).0
      case MergeOp(from, into) => MergeListings(db, from, into)
  }

  function Run(db: Db, ops: seq<Op>): Db
    decreases |ops|
  {
    if ops == [] then db else Run(Apply(db, ops[0]), ops[1..])
  }

  // ---- The invariant ----

  /** What all rows of one group have in common. */
  datatype Shared = Shared(
    buyerId: Id,
    basket: seq<BasketLine>,
    expiresAt: Option<int>,
    stoppedAt: Option<int>,
    closedAt: Option<int>,
    resultText: Option<string>,
    acceptedOfferId: Option<Id>)

  function SharedOf(row: Inquiry): Shared {
    Shared(row.buyerId, BasketOf(row), row.expiresAt, row.stoppedAt, row.closedAt, row.resultText, row.acceptedOfferId)
  }

  predicate RowOk(k: Key, row: Inquiry) {
    && k.Oid? && (row.rfqGroupId.Some? ==> row.rfqGroupId.value.Uuid?)
    && row.items != Some([])
    && !(row.stoppedAt.Some? && row.closedAt.Some?)
  }

  predicate RowsOk(inquiries: map<Key, Inquiry>) {
    forall k | k in inquiries :: RowOk(k, inquiries[k])
  }

  /** All rows of a group agree. */
  predicate Agree(inquiries: map<Key, Inquiry>) {
    forall a, b | a in inquiries && b in inquiries && GroupKey(a, inquiries[a]) == GroupKey(b, inquiries[b]) ::
      SharedOf(inquiries[a]) == SharedOf(inquiries[b])
  }

  predicate Linked(inquiries: map<Key, Inquiry>, offer: Offer) {
    && (offer.rfqGroupId.Some? ==> offer.rfqGroupId.value.Uuid? && exists k | k in inquiries ::
          inquiries[k].rfqGroupId == offer.rfqGroupId && inquiries[k].buyerId == offer.buyerId)
    && (offer.prices.Some? ==> offer.prices.value != [])
  }

  predicate OffersOk(db: Db) {
    forall o | o in db.offers :: Linked(db.inquiries, db.offers[o])
  }

  predicate OneOrderPerOffer(db: Db) {
    forall a, b | a in db.orders && b in db.orders && a != b ::
      db.orders[a].origin.RfqOffer? ==> db.orders[a].origin != db.orders[b].origin
  }

  predicate WellFormed(db: Db) {
    RowsOk(db.inquiries) && Agree(db.inquiries) && OffersOk(db) && OneOrderPerOffer(db)
  }

  /** The key of a row's group selects exactly the rows of that group. */
  lemma KeySelectsGroup(inquiries: map<Key, Inquiry>, g: Key)
    requires RowsOk(inquiries)
    requires g.Uuid? || exists k | k in inquiries :: GroupKey(k, inquiries[k]) == g
    ensures forall j | j in inquiries :: Matches(g, j, inquiries[j]) <==> GroupKey(j, inquiries[j]) == g
  {
  }

  /** Whatever id or key a request names, what gets updated is the whole group of the sample row. */
  lemma GroupForIsWhole(db: Db, owned: set<Id>, biz: Id, g: Key, seen: Option<Key>, mine: Option<Key>)
    requires RowsOk(db.inquiries) && Agree(db.inquiries) && Answers(db, biz, g, seen, mine)
    requires GroupFor(db.inquiries, owned, biz, g, seen, mine).Ok?
    ensures seen.Some? && seen.value in db.inquiries && db.inquiries[seen.value].buyerId == biz
    ensures GroupFor(db.inquiries, owned, biz, g, seen, mine) == Ok((GroupKey(seen.value, db.inquiries[seen.value]), seen.value))
  {
  }

  /** An update of a group changes what its rows share in the same way for all of them. */
  lemma UpdateIsShared(u: Update, a: Inquiry, b: Inquiry)
    requires SharedOf(a) == SharedOf(b)
    ensures SharedOf(Updated(u, a)) == SharedOf(Updated(u, b))
  {
  }

  lemma UpdateKeepsOk(inquiries: map<Key, Inquiry>, g: Key, u: Update)
    requires RowsOk(inquiries)
    ensures RowsOk(UpdateMany(inquiries, g, u))
    ensures forall k | k in inquiries :: GroupKey(k, UpdateMany(inquiries, g, u)[k]) == GroupKey(k, inquiries[k])
  {
    forall k | k in inquiries ensures RowOk(k, UpdateMany(inquiries, g, u)[k]) {
      assert RowOk(k, inquiries[k]);
    }
  }

  lemma UpdateKeepsRows(inquiries: map<Key, Inquiry>, g: Key, u: Update)
    requires RowsOk(inquiries) && Agree(inquiries)
    requires g.Uuid? || exists k | k in inquiries :: GroupKey(k, inquiries[k]) == g
    ensures RowsOk(UpdateMany(inquiries, g, u)) && Agree(UpdateMany(inquiries, g, u))
  {
    KeySelectsGroup(inquiries, g);
    UpdateKeepsOk(inquiries, g, u);
    var after := UpdateMany(inquiries, g, u);
    forall a, b | a in after && b in after && GroupKey(a, after[a]) == GroupKey(b, after[b])
      ensures SharedOf(after[a]) == SharedOf(after[b])
    {
      UpdatePair(inquiries, g, u, a, b);
    }
  }

  lemma UpdatePair(inquiries: map<Key, Inquiry>, g: Key, u: Update, a: Key, b: Key)
    requires a in inquiries && b in inquiries && SharedOf(inquiries[a]) == SharedOf(inquiries[b])
    requires Matches(g, a, inquiries[a]) <==> Matches(g, b, inquiries[b])
    ensures SharedOf(UpdateMany(inquiries, g, u)[a]) == SharedOf(UpdateMany(inquiries, g, u)[b])
  {
    UpdateIsShared(u, inquiries[a], inquiries[b]);
  }

  /** The basket as it reads back from a stored snapshot. */
  function ReadBack(basket: seq<BasketLine>): seq<BasketLine> {
    seq(|basket|, i requires 0 <= i < |basket| => basket[i].(qty := if basket[i].qty == 0 then 1 else basket[i].qty))
  }

  lemma NewRowShares(buyer: Id, r: Recipient, basket: seq<BasketLine>, group: Key, expiresAt: int, now: int)
    requires basket != [] && NewRow(buyer, r, basket, group, expiresAt, now).Some?
    ensures var row := NewRow(buyer, r, basket, group, expiresAt, now).value;
            SharedOf(row) == Shared(buyer, ReadBack(basket), Some(expiresAt), None, None, None, None)
  {
  }

  /** Created rows are new, belong to the new group, and share everything. */
  lemma {:induction false} CreatedRows(inquiries: map<Key, Inquiry>, ids: seq<Key>, buyer: Id, rs: seq<Recipient>,
                                       basket: seq<BasketLine>, group: Key, expiresAt: int, now: int)
    requires basket != [] && |ids| == |rs| && Fresh(inquiries, group, ids)
    ensures var after := WithRows(inquiries, ids, buyer, rs, basket, group, expiresAt, now);
            && (forall k | k in inquiries :: k in after && after[k] == inquiries[k])
            && (forall k | k in after && k !in inquiries ::
                  k in ids && RowOk(k, after[k]) && after[k].rfqGroupId == Some(group)
                  && SharedOf(after[k]) == Shared(buyer, ReadBack(basket), Some(expiresAt), None, None, None, None))
    decreases |rs|
  {
    if rs != [] {
      var ids', rs' := ids[..|ids| - 1], rs[..|rs| - 1];
      CreatedRows(inquiries, ids', buyer, rs', basket, group, expiresAt, now);
      var r := rs[|rs| - 1];
      if NewRow(buyer, r, basket, group, expiresAt, now).Some? {
        NewRowShares(buyer, r, basket, group, expiresAt, now);
      }
    }
  }

  lemma CreateKeepsRows(inquiries: map<Key, Inquiry>, ids: seq<Key>, buyer: Id, rs: seq<Recipient>, basket: seq<BasketLine>, group: Key, expiresAt: int, now: int)
    requires RowsOk(inquiries) && Agree(inquiries)
    requires basket != [] && |ids| == |rs| && Fresh(inquiries, group, ids)
    ensures var after := WithRows(inquiries, ids, buyer, rs, basket, group, expiresAt, now); RowsOk(after) && Agree(after)
  {
    CreatedRows(inquiries, ids, buyer, rs, basket, group, expiresAt, now);
    var after := WithRows(inquiries, ids, buyer, rs, basket, group, expiresAt, now);
    forall k | k in after ensures RowOk(k, after[k]) && (k in inquiries || GroupKey(k, after[k]) == group) {
    }
    forall k | k in inquiries ensures GroupKey(k, inquiries[k]) != group {
      assert RowOk(k, inquiries[k]);
    }
  }

  // ---- What never changes ----

  /** All but the listing, which a merge replaces. */
  predicate SameDeal(a: Offer, b: Offer) { b == a.(listingId := b.listingId) }

  /** Rows and offers are never removed; a row keeps its group and basket, an offer all but its listing. */
  predicate Kept(db: Db, db': Db) {
    && (forall k | k in db.inquiries ::
          && k in db'.inquiries && db'.inquiries[k].rfqGroupId == db.inquiries[k].rfqGroupId && db'.inquiries[k].buyerId == db.inquiries[k].buyerId
          && BasketOf(db'.inquiries[k]) == BasketOf(db.inquiries[k]))
    && (forall o | o in db.offers :: o in db'.offers && SameDeal(db.offers[o], db'.offers[o]))
  }

  lemma UpdateKept(db: Db, g: Key, u: Update)
    ensures Kept(db, db.(inquiries := UpdateMany(db.inquiries, g, u)))
  {
    forall k | k in db.inquiries ensures BasketOf(UpdateMany(db.inquiries, g, u)[k]) == BasketOf(db.inquiries[k]) {
      assert BasketOf(Updated(u, db.inquiries[k])) == BasketOf(db.inquiries[k]);
    }
  }

  lemma LinkedStays(db: Db, db': Db)
    requires OffersOk(db) && Kept(db, db')
    requires forall o | o in db'.offers && o !in db.offers :: Linked(db'.inquiries, db'.offers[o])
    ensures OffersOk(db')
  {
  }

  lemma GroupUpdateOk(db: Db, g: Key, u: Update)
    requires WellFormed(db)
    requires g.Uuid? || exists k | k in db.inquiries :: GroupKey(k, db.inquiries[k]) == g
    ensures var db' := db.(inquiries := UpdateMany(db.inquiries, g, u)); WellFormed(db') && Kept(db, db')
  {
    UpdateKeepsRows(db.inquiries, g, u);
    UpdateKept(db, g, u);
    LinkedStays(db, db.(inquiries := UpdateMany(db.inquiries, g, u)));
  }

  lemma CreateOk(db: Db, ids: seq<Key>, buyer: Id, rs: seq<Recipient>, basket: seq<BasketLine>, group: Key, expiresAt: int, now: int)
    requires WellFormed(db)
    requires basket != [] && |ids| == |rs| && Fresh(db.inquiries, group, ids)
    ensures var db' := db.(inquiries := WithRows(db.inquiries, ids, buyer, rs, basket, group, expiresAt, now)); WellFormed(db') && Kept(db, db')
  {
    CreateKeepsRows(db.inquiries, ids, buyer, rs, basket, group, expiresAt, now);
    CreatedRows(db.inquiries, ids, buyer, rs, basket, group, expiresAt, now);
    LinkedStays(db, db.(inquiries := WithRows(db.inquiries, ids, buyer, rs, basket, group, expiresAt, now)));
  }

  lemma GroupRequestOk(db: Db, op: Op)
    requires WellFormed(db) && Valid(db, op) && (op.StopOp? || op.RestartOp? || op.ArchiveOp?)
    ensures WellFormed(Apply(db, op)) && Kept(db, Apply(db, op))
  {
    if GroupFor(db.inquiries, op.owned, op.biz, op.g, op.seen, op.mine).Ok? {
      GroupForIsWhole(db, op.owned, op.biz, op.g, op.seen, op.mine);
      var key := GroupKey(op.seen.value, db.inquiries[op.seen.value]);
      var u := if op.StopOp? then Stop(op.now) else if op.RestartOp? then Restart else ArchiveAll;
      GroupUpdateOk(db, key, u);
    }
  }

  lemma AcceptOk(db: Db, op: Op)
    requires WellFormed(db) && Valid(db, op) && op.AcceptOp?
    ensures WellFormed(Apply(db, op)) && Kept(db, Apply(db, op))
  {
    if op.offerId in db.offers {
      var offer := db.offers[op.offerId];
      assert Linked(db.inquiries, offer);
      var group := OfferGroup(db.inquiries, offer, op.legacy);
      var r := AcceptOffer(db, op.owned, op.biz, op.offerId, op.legacy, op.seen, op.now);
      if r.1.Ok? && group.Some? {
        var u := Close(op.now, r.1.value.resultText, op.offerId);
        GroupUpdateOk(db, group.value, u);
      }
    }
  }

  /** Marking one row as answered changes nothing its group shares. */
  lemma AnswerRowOk(db: Db, k: Key)
    requires WellFormed(db) && k in db.inquiries
    ensures var db' := db.(inquiries := db.inquiries[k := db.inquiries[k].(status := RowAnswered)]); WellFormed(db') && Kept(db, db')
  {
    var row := db.inquiries[k];
    var answered := row.(status := RowAnswered);
    var db' := db.(inquiries := db.inquiries[k := answered]);
    assert RowOk(k, row);
    assert BasketOf(answered) == BasketOf(row);
    assert SharedOf(answered) == SharedOf(row);
    forall a | a in db'.inquiries
      ensures GroupKey(a, db'.inquiries[a]) == GroupKey(a, db.inquiries[a]) && SharedOf(db'.inquiries[a]) == SharedOf(db.inquiries[a])
    {
    }
    LinkedStays(db, db');
  }

  lemma AddOfferOk(db: Db, offerId: Id, offer: Offer)
    requires WellFormed(db) && offerId !in db.offers && Linked(db.inquiries, offer)
    ensures var db' := db.(offers := db.offers[offerId := offer]); WellFormed(db') && Kept(db, db')
  {
  }

  /** An answer adds its offer and marks its row. */
  lemma SendMakes(db: Db, op: Op)
    requires op.SendOp? && Apply(db, op) != db
    ensures op.inquiryId in db.inquiries && op.offerId !in db.offers
    ensures var row := db.inquiries[op.inquiryId];
            var made := OfferFor(row, op.sellerName, op.prices, op.priceMinor, op.now);
            && made.Ok?
            && Apply(db, op) == Db(db.inquiries[op.inquiryId := row.(status := RowAnswered)], db.offers[op.offerId := made.value], db.orders)
  {
  }

  lemma AnswerLinked(inquiries: map<Key, Inquiry>, k: Key, sellerName: string, prices: seq<Option<int>>, priceMinor: Option<nat>, now: int)
    requires k in inquiries && RowOk(k, inquiries[k]) && OfferFor(inquiries[k], sellerName, prices, priceMinor, now).Ok?
    ensures Linked(inquiries, OfferFor(inquiries[k], sellerName, prices, priceMinor, now).value)
  {
  }

  lemma SendOk(db: Db, op: Op)
    requires WellFormed(db) && op.SendOp?
    ensures WellFormed(Apply(db, op)) && Kept(db, Apply(db, op))
  {
    if Apply(db, op) != db {
      SendMakes(db, op);
      var offer := OfferFor(db.inquiries[op.inquiryId], op.sellerName, op.prices, op.priceMinor, op.now).value;
      assert RowOk(op.inquiryId, db.inquiries[op.inquiryId]);
      AnswerLinked(db.inquiries, op.inquiryId, op.sellerName, op.prices, op.priceMinor, op.now);
      AddOfferOk(db, op.offerId, offer);
      AnswerRowOk(db.(offers := db.offers[op.offerId := offer]), op.inquiryId);
      KeptTrans(db, db.(offers := db.offers[op.offerId := offer]), Apply(db, op));
    }
  }

  lemma RequestOk(db: Db, op: Op)
    requires WellFormed(db) && Valid(db, op) && op.RequestOp?
    ensures WellFormed(Apply(db, op)) && Kept(db, Apply(db, op))
  {
    CreateOk(db, op.ids, op.buyer, op.rs, op.basket, op.group, op.expiresAt, op.now);
  }

  lemma RepeatMakes(db: Db, op: Op)
    requires Valid(db, op) && op.RepeatOp? && Apply(db, op) != db
    ensures op.src.Some? && op.src.value in db.inquiries
    ensures Apply(db, op) == db.(inquiries := WithRows(db.inquiries, op.ids, op.biz, op.rs, BasketOf(db.inquiries[op.src.value]), op.group, op.now + 3 * DAY_MS, op.now))
  {
  }

  lemma RepeatOk(db: Db, op: Op)
    requires WellFormed(db) && Valid(db, op) && op.RepeatOp?
    ensures WellFormed(Apply(db, op)) && Kept(db, Apply(db, op))
  {
    if Apply(db, op) != db {
      RepeatMakes(db, op);
      CreateOk(db, op.ids, op.biz, op.rs, BasketOf(db.inquiries[op.src.value]), op.group, op.now + 3 * DAY_MS, op.now);
    }
  }

  lemma AddOrderOk(db: Db, orderId: Id, offerId: Id, order: Orders.Order)
    requires WellFormed(db) && orderId !in db.orders && !Ordered(db, offerId) && order.origin == Orders.RfqOffer(offerId)
    ensures var db' := db.(orders := db.orders[orderId := order]); WellFormed(db') && Kept(db, db')
  {
  }

  lemma OrderMakes(db: Db, op: Op)
    requires op.OrderOp? && Apply(db, op) != db
    ensures op.orderId !in db.orders && !Ordered(db, op.offerId) && op.orderId in Apply(db, op).orders
    ensures var order := Apply(db, op).orders[op.orderId];
            order.origin == Orders.RfqOffer(op.offerId) && Apply(db, op) == db.(orders := db.orders[op.orderId := order])
  {
  }

  lemma OrderOk(db: Db, op: Op)
    requires WellFormed(db) && op.OrderOp?
    ensures WellFormed(Apply(db, op)) && Kept(db, Apply(db, op))
  {
    if Apply(db, op) != db {
      OrderMakes(db, op);
      AddOrderOk(db, op.orderId, op.offerId, Apply(db, op).orders[op.orderId]);
    }
  }

  lemma MergeRowsOk(db: Db, from: Id, into: Id)
    ensures var db' := MergeListings(db, from, into);
            && Kept(db, db')
            && forall k | k in db.inquiries :: SharedOf(db'.inquiries[k]) == SharedOf(db.inquiries[k])
  {
    forall k | k in db.inquiries ensures BasketOf(MergedRow(db.inquiries[k], from, into)) == BasketOf(db.inquiries[k]) {
    }
  }

  lemma MergeOk(db: Db, from: Id, into: Id)
    requires WellFormed(db)
    ensures WellFormed(MergeListings(db, from, into)) && Kept(db, MergeListings(db, from, into))
  {
    var db' := MergeListings(db, from, into);
    MergeRowsOk(db, from, into);
    forall k | k in db'.inquiries ensures RowOk(k, db'.inquiries[k]) {
      assert RowOk(k, db.inquiries[k]);
    }
    forall o | o in db'.offers ensures Linked(db'.inquiries, db'.offers[o]) {
      assert Linked(db.inquiries, db.offers[o]);
    }
  }

  lemma StepOk(db: Db, op: Op)
    requires WellFormed(db)
    ensures WellFormed(Apply(db, op)) && Kept(db, Apply(db, op))
  {
    if Valid(db, op) {
      match op
      case StopOp(_, _, _, _, _, _) => GroupRequestOk(db, op);
      case RestartOp(_, _, _, _, _) => GroupRequestOk(db, op);
      case ArchiveOp(_, _, _, _, _) => GroupRequestOk(db, op);
      case RequestOp(_, _, _, _, _, _, _) => RequestOk(db, op);
      case RepeatOp(_, _, _, _, _, _, _, _, _, _) => RepeatOk(db, op);
      case SendOp(_, _, _, _, _, _, _) => SendOk(db, op);
      case ColdOp(offerId, offer) =>
        if offerId !in db.offers {
          AddOfferOk(db, offerId, offer);
        }
      case AcceptOp(_, _, _, _, _, _) => AcceptOk(db, op);
      case OrderOp(_, _, _, _, _, _) => OrderOk(db, op);
      case MergeOp(from, into) => MergeOk(db, from, into);
    }
  }

  lemma KeptTrans(a: Db, b: Db, c: Db)
    requires Kept(a, b) && Kept(b, c)
    ensures Kept(a, c)
  {
  }

  /**
   * In every reachable state all rows of a group agree on buyer, basket, expiry, stop, close, result
   * and accepted offer, no row is both stopped and closed, and no offer has two orders; rows keep
   * their group and basket for ever.
   */
  lemma {:induction false} RunOk(db: Db, ops: seq<Op>)
    requires WellFormed(db)
    ensures WellFormed(Run(db, ops)) && Kept(db, Run(db, ops))
    decreases |ops|
  {
    if ops != [] {
      StepOk(db, ops[0]);
      RunOk(Apply(db, ops[0]), ops[1..]);
      KeptTrans(db, Apply(db, ops[0]), Run(db, ops));
    }
  }

  /** The empty tables satisfy it. */
  lemma EmptyWellFormed()
    ensures WellFormed(Db(map[], map[], map[]))
  {
  }

  // ---- Accepting and restarting ----

  /** A row that `offerId` won: closed, not stopped, and no other offer's. */
  ghost predicate WonBy(db: Db, row: Inquiry, offerId: Id, text: string, now: int)
    requires offerId in db.offers
  {
    && row.closedAt == Some(now) && row.stoppedAt.None? && row.resultText == Some(text)
    && Winner(row, offerId, db.offers[offerId])
    && forall other | other in db.offers && other != offerId :: !Winner(row, other, db.offers[other])
  }

  lemma ClosedIsWon(db: Db, row: Inquiry, offerId: Id, text: string, now: int)
    requires offerId in db.offers
    ensures WonBy(db, Updated(Close(now, text, offerId), row), offerId, text, now)
  {
  }

  lemma AcceptCloses(db: Db, owned: set<Id>, biz: Id, offerId: Id, legacy: Option<Key>, seen: Option<Key>, now: int)
    requires offerId in db.offers && AcceptOffer(db, owned, biz, offerId, legacy, seen, now).1.Ok?
    requires OfferGroup(db.inquiries, db.offers[offerId], legacy).Some?
    ensures var (db', r) := AcceptOffer(db, owned, biz, offerId, legacy, seen, now);
            db'.inquiries == UpdateMany(db.inquiries, OfferGroup(db.inquiries, db.offers[offerId], legacy).value, Close(now, r.value.resultText, offerId))
  {
  }

  /**
   * An acceptance closes every row of the offer's group, whichever row it was found by, and no other
   * row; from then on that offer is the group's winner and no other offer is.
   */
  lemma AcceptPicksTheWinner(db: Db, owned: set<Id>, biz: Id, offerId: Id, legacy: Option<Key>, seen: Option<Key>, now: int)
    requires WellFormed(db) && offerId in db.offers && AcceptAnswers(db, db.offers[offerId], legacy, seen)
    requires AcceptOffer(db, owned, biz, offerId, legacy, seen, now).1.Ok?
    requires OfferGroup(db.inquiries, db.offers[offerId], legacy).Some?
    ensures var (db', r) := AcceptOffer(db, owned, biz, offerId, legacy, seen, now);
            forall k | k in db.inquiries ::
              && k in db'.inquiries
              && if GroupKey(k, db.inquiries[k]) == OfferGroup(db.inquiries, db.offers[offerId], legacy).value
                 then WonBy(db, db'.inquiries[k], offerId, r.value.resultText, now)
                 else db'.inquiries[k] == db.inquiries[k]
  {
    var g := OfferGroup(db.inquiries, db.offers[offerId], legacy).value;
    var (db', r) := AcceptOffer(db, owned, biz, offerId, legacy, seen, now);
    OfferRow(db, db.offers[offerId], legacy, seen);
    KeySelectsGroup(db.inquiries, g);
    AcceptCloses(db, owned, biz, offerId, legacy, seen, now);
    forall k | k in db.inquiries && GroupKey(k, db.inquiries[k]) == g
      ensures WonBy(db, db'.inquiries[k], offerId, r.value.resultText, now)
    {
      assert Matches(g, k, db.inquiries[k]);
      ClosedIsWon(db, db.inquiries[k], offerId, r.value.resultText, now);
    }
  }

  /** After a stop nothing of the group is closed, and a restart opens it. */
  lemma StopThenRestart(inquiries: map<Key, Inquiry>, g: Key, now: int)
    requires RowsOk(inquiries) && (g.Uuid? || exists k | k in inquiries :: GroupKey(k, inquiries[k]) == g)
    ensures var reopened := UpdateMany(UpdateMany(inquiries, g, Stop(now)), g, Restart);
            forall k | k in inquiries && GroupKey(k, inquiries[k]) == g ::
              && UpdateMany(inquiries, g, Stop(now))[k].closedAt.None?
              && reopened[k] == inquiries[k].(closedAt := None, stoppedAt := None, resultText := None)
  {
    KeySelectsGroup(inquiries, g);
  }

  lemma StillFor(db: Db, owned: set<Id>, biz: Id, g: Key, seen: Option<Key>, mine: Option<Key>, key: Key, u: Update)
    requires seen.Some? && GroupFor(db.inquiries, owned, biz, g, seen, mine) == Ok((key, seen.value))
    requires seen.value in db.inquiries && db.inquiries[seen.value].buyerId == biz && GroupKey(seen.value, db.inquiries[seen.value]) == key
    ensures GroupFor(UpdateMany(db.inquiries, key, u), owned, biz, g, seen, mine) == Ok((key, seen.value))
  {
  }

  /** A restart is refused exactly while the group is closed, and a stop opens the way to it for every row, the winner on record. */
  lemma StopUnseals(db: Db, owned: set<Id>, biz: Id, g: Key, seen: Option<Key>, mine: Option<Key>, now: int)
    requires WellFormed(db) && Answers(db, biz, g, seen, mine)
    requires GroupFor(db.inquiries, owned, biz, g, seen, mine).Ok?
    ensures RestartGroup(db, owned, biz, g, seen, mine).1 == Some(RfqAccepted) <==> db.inquiries[seen.value].closedAt.Some?
    ensures var stopped := StopOrArchive(db, owned, biz, g, seen, mine, Stop(now)).0;
            var (reopened, err) := RestartGroup(stopped, owned, biz, g, seen, mine);
            && err.None?
            && forall k | k in db.inquiries && GroupKey(k, db.inquiries[k]) == GroupKey(seen.value, db.inquiries[seen.value]) ::
                 reopened.inquiries[k] == db.inquiries[k].(closedAt := None, stoppedAt := None, resultText := None)
  {
    GroupForIsWhole(db, owned, biz, g, seen, mine);
    var key := GroupKey(seen.value, db.inquiries[seen.value]);
    StopThenRestart(db.inquiries, key, now);
    StillFor(db, owned, biz, g, seen, mine, key, Stop(now));
  }

  // ---- The total of a deal ----

  lemma {:induction false} TotalConcat(a: seq<Orders.Item>, b: seq<Orders.Item>)
    ensures Orders.Total(a + b) == Orders.Total(a) + Orders.Total(b)
  {
    if a == [] {
      assert a + b == b;
    } else {
      TotalConcat(a[1..], b);
      assert (a + b)[0] == a[0] && (a + b)[1..] == a[1..] + b;
    }
  }

  /** Summing the priced lines of the basket is totalling the lines that get frozen. */
  lemma {:induction false} SumIsFrozenTotal(items: seq<RfqItem>, prices: seq<Option<nat>>)
    requires |items| == |prices|
    ensures SumPriced(items, prices) == Orders.Total(Frozen(items, prices))
  {
    if items != [] {
      var n := |items| - 1;
      SumIsFrozenTotal(items[..n], prices[..n]);
      if prices[n].Some? {
        var last := Orders.Item(items[n].goodId, items[n].qty, prices[n].value);
        TotalConcat(Frozen(items[..n], prices[..n]), [last]);
        assert [last][1..] == [];
        assert Orders.Total([last]) == prices[n].value * items[n].qty;
        assert Frozen(items, prices) == Frozen(items[..n], prices[..n]) + [last];
        assert SumPriced(items, prices) == SumPriced(items[..n], prices[..n]) + prices[n].value * items[n].qty;
      } else {
        assert Frozen(items[..n], prices[..n]) + [] == Frozen(items[..n], prices[..n]);
      }
    }
  }

  /** Only goods, quantities and prices matter for what is frozen. */
  lemma {:induction false} FrozenByBasket(a: seq<RfqItem>, b: seq<RfqItem>, prices: seq<Option<nat>>)
    requires |a| == |b| == |prices|
    requires forall i | 0 <= i < |a| :: a[i].goodId == b[i].goodId && a[i].qty == b[i].qty
    ensures Frozen(a, prices) == Frozen(b, prices)
  {
    if a != [] {
      var n := |a| - 1;
      FrozenByBasket(a[..n], b[..n], prices[..n]);
    }
  }

  /** For any price list with gaps, the total reported at acceptance is the total the order freezes, whichever rows were read. */
  lemma AcceptTotalIsOrderTotal(offer: Offer, row: Inquiry, row': Inquiry)
    requires row'.items != Some([]) && BasketOf(row) == BasketOf(row')
    ensures AcceptTotal(offer, row) == Orders.Total(FrozenFor(offer, row'))
  {
    var a, b := ItemsOf(row), ItemsOf(row');
    assert |a| == |BasketOf(row)| == |BasketOf(row')| == |b|;
    var prices := PricesFor(offer, |a|);
    forall i | 0 <= i < |a| ensures a[i].goodId == b[i].goodId && a[i].qty == b[i].qty {
      assert BasketOf(row)[i] == BasketOf(row')[i];
    }
    FrozenByBasket(a, b, prices);
    SumIsFrozenTotal(a, prices);
    if |a| == 1 {
      assert SumPriced(a[..0], prices[..0]) == 0;
    }
  }

  /** The row found for an offer's group belongs to that group, and there is one. */
  lemma OfferRow(db: Db, offer: Offer, legacy: Option<Key>, seen: Option<Key>)
    requires RowsOk(db.inquiries) && Linked(db.inquiries, offer) && AcceptAnswers(db, offer, legacy, seen)
    requires OfferGroup(db.inquiries, offer, legacy).Some?
    ensures seen.Some? && seen.value in db.inquiries
    ensures GroupKey(seen.value, db.inquiries[seen.value]) == OfferGroup(db.inquiries, offer, legacy).value
  {
  }

  /** Rows read for the same group at different times carry the same basket. */
  lemma SameBasketLater(db: Db, later: Db, k: Key, k': Key)
    requires WellFormed(later) && Kept(db, later)
    requires k in db.inquiries && k' in later.inquiries
    requires GroupKey(k, db.inquiries[k]) == GroupKey(k', later.inquiries[k'])
    ensures BasketOf(later.inquiries[k']) == BasketOf(db.inquiries[k])
  {
  }

  /** Whatever happens after an acceptance, nothing the total depends on changes. */
  lemma AcceptThenRun(db: Db, accept: Op, ops: seq<Op>)
    requires WellFormed(db)
    ensures var later := Run(Apply(db, accept), ops); WellFormed(later) && Kept(db, later)
  {
    StepOk(db, accept);
    RunOk(Apply(db, accept), ops);
    KeptTrans(db, Apply(db, accept), Run(Apply(db, accept), ops));
  }

  lemma ReportedTotal(db: Db, owned: set<Id>, biz: Id, offerId: Id, legacy: Option<Key>, seen: Option<Key>, now: int)
    requires offerId in db.offers && seen.Some? && seen.value in db.inquiries
    requires OfferGroup(db.inquiries, db.offers[offerId], legacy).Some?
    requires AcceptOffer(db, owned, biz, offerId, legacy, seen, now).1.Ok?
    ensures AcceptOffer(db, owned, biz, offerId, legacy, seen, now).1.value.totalMinor == AcceptTotal(db.offers[offerId], db.inquiries[seen.value])
  {
  }

  lemma OrderedTotal(db: Db, orderId: Id, biz: Id, offerId: Id, legacy: Option<Key>, seen: Option<Key>, now: int)
    requires OrderFromOffer(db, orderId, biz, offerId, legacy, seen, now).1.None?
    ensures seen.Some? && seen.value in db.inquiries && offerId in db.offers && OfferGroup(db.inquiries, db.offers[offerId], legacy).Some?
    ensures var ordered := OrderFromOffer(db, orderId, biz, offerId, legacy, seen, now).0;
            && orderId in ordered.orders && ordered.orders[orderId].origin == Orders.RfqOffer(offerId)
            && ordered.orders[orderId].totalMinor == Orders.Total(FrozenFor(db.offers[offerId], db.inquiries[seen.value]))
  {
  }

  // ---- The legacy lookup gives one answer ----

  /** What the legacy lookup reads of a row, and the group it finds there. */
  predicate SameLookup(a: Inquiry, b: Inquiry) {
    && a.listingId == b.listingId && a.sellerId == b.sellerId && a.buyerId == b.buyerId
    && a.createdAt == b.createdAt && a.rfqGroupId == b.rfqGroupId
  }

  /** Old rows read the same, and new rows are newer than `t`. */
  predicate OnlyNewer(a: map<Key, Inquiry>, b: map<Key, Inquiry>, t: int) {
    && (forall k | k in a :: k in b && SameLookup(a[k], b[k]))
    && forall k | k in b && k !in a :: b[k].createdAt > t
  }

  /** Inquiries sent by the request are newer than `t`. */
  predicate SentAfter(op: Op, t: int) {
    match op
    case RequestOp(_, _, _, _, _, _, now) => now > t
    case RepeatOp(_, _, _, _, _, _, _, _, _, now) => now > t
    case _ => true
  }

  lemma {:induction false} CreatedNewer(inquiries: map<Key, Inquiry>, ids: seq<Key>, buyer: Id, rs: seq<Recipient>,
                                        basket: seq<BasketLine>, group: Key, expiresAt: int, now: int, t: int)
    requires basket != [] && |ids| == |rs| && Fresh(inquiries, group, ids) && now > t
    ensures OnlyNewer(inquiries, WithRows(inquiries, ids, buyer, rs, basket, group, expiresAt, now), t)
    decreases |rs|
  {
    if rs != [] {
      CreatedNewer(inquiries, ids[..|ids| - 1], buyer, rs[..|rs| - 1], basket, group, expiresAt, now, t);
    }
  }

  lemma UpdateOnlyNewer(inquiries: map<Key, Inquiry>, g: Key, u: Update, t: int)
    ensures OnlyNewer(inquiries, UpdateMany(inquiries, g, u), t)
  {
  }

  lemma SendOnlyNewer(db: Db, op: Op, t: int)
    requires op.SendOp?
    ensures OnlyNewer(db.inquiries, Apply(db, op).inquiries, t)
  {
    if Apply(db, op) != db {
      SendMakes(db, op);
    }
  }

  lemma GroupOnlyNewer(db: Db, op: Op, t: int)
    requires op.StopOp? || op.RestartOp? || op.ArchiveOp?
    ensures OnlyNewer(db.inquiries, Apply(db, op).inquiries, t)
  {
    var found := GroupFor(db.inquiries, op.owned, op.biz, op.g, op.seen, op.mine);
    if found.Ok? {
      UpdateOnlyNewer(db.inquiries, found.value.0, if op.StopOp? then Stop(op.now) else if op.RestartOp? then Restart else ArchiveAll, t);
    }
  }

  lemma AcceptOnlyNewer(db: Db, op: Op, t: int)
    requires op.AcceptOp?
    ensures OnlyNewer(db.inquiries, Apply(db, op).inquiries, t)
  {
    var r := AcceptOffer(db, op.owned, op.biz, op.offerId, op.legacy, op.seen, op.now);
    if r.1.Ok? && OfferGroup(db.inquiries, db.offers[op.offerId], op.legacy).Some? {
      var g := OfferGroup(db.inquiries, db.offers[op.offerId], op.legacy).value;
      UpdateOnlyNewer(db.inquiries, g, Close(op.now, r.1.value.resultText, op.offerId), t);
      AcceptCloses(db, op.owned, op.biz, op.offerId, op.legacy, op.seen, op.now);
    }
  }

  lemma RequestOnlyNewer(db: Db, op: Op, t: int)
    requires (op.RequestOp? || op.RepeatOp?) && SentAfter(op, t)
    ensures OnlyNewer(db.inquiries, Apply(db, op).inquiries, t)
  {
    if Valid(db, op) {
      if op.RequestOp? {
        CreatedNewer(db.inquiries, op.ids, op.buyer, op.rs, op.basket, op.group, op.expiresAt, op.now, t);
      } else if Apply(db, op) != db {
        RepeatMakes(db, op);
        CreatedNewer(db.inquiries, op.ids, op.biz, op.rs, BasketOf(db.inquiries[op.src.value]), op.group, op.now + 3 * DAY_MS, op.now, t);
      }
    }
  }

  lemma DealKeepsRows(db: Db, op: Op)
    requires op.ColdOp? || op.OrderOp?
    ensures Apply(db, op).inquiries == db.inquiries
  {
    if op.OrderOp? && Apply(db, op) != db {
      OrderMakes(db, op);
    }
  }

  lemma StepOnlyNewer(db: Db, op: Op, t: int)
    requires SentAfter(op, t) && !op.MergeOp?
    ensures OnlyNewer(db.inquiries, Apply(db, op).inquiries, t)
  {
    match op
    case StopOp(_, _, _, _, _, _) => GroupOnlyNewer(db, op, t);
    case RestartOp(_, _, _, _, _) => GroupOnlyNewer(db, op, t);
    case ArchiveOp(_, _, _, _, _) => GroupOnlyNewer(db, op, t);
    case RequestOp(_, _, _, _, _, _, _) => RequestOnlyNewer(db, op, t);
    case RepeatOp(_, _, _, _, _, _, _, _, _, _) => RequestOnlyNewer(db, op, t);
    case SendOp(_, _, _, _, _, _, _) => SendOnlyNewer(db, op, t);
    case ColdOp(_, _) => DealKeepsRows(db, op);
    case AcceptOp(_, _, _, _, _, _) => AcceptOnlyNewer(db, op, t);
    case OrderOp(_, _, _, _, _, _) => DealKeepsRows(db, op);
  }

  /** Rows of the offer's pair that were created at the same moment belong to one group. */
  predicate TiesAgree(inquiries: map<Key, Inquiry>, offer: Offer) {
    forall a, b | a in inquiries && b in inquiries && SamePair(inquiries[a], offer) && SamePair(inquiries[b], offer)
                  && inquiries[a].createdAt == inquiries[b].createdAt ::
      GroupKey(a, inquiries[a]) == GroupKey(b, inquiries[b])
  }

  /** The newest row of the offer's pair is of the group `g`; without a row of the pair there is no group. */
  predicate NewestIn(inquiries: map<Key, Inquiry>, offer: Offer, g: Option<Key>) {
    match g
    case None => IsLegacy(inquiries, offer, None)
    case Some(key) => exists k | k in inquiries :: IsLegacy(inquiries, offer, Some(k)) && GroupKey(k, inquiries[k]) == key
  }

  /** Then, up to ties, every lookup of the offer's group finds it. */
  lemma NewestIsFound(inquiries: map<Key, Inquiry>, offer: Offer, legacy: Option<Key>, g: Option<Key>)
    requires offer.rfqGroupId.None? && TiesAgree(inquiries, offer) && IsLegacy(inquiries, offer, legacy)
    ensures OfferGroup(inquiries, offer, legacy) == g <==> NewestIn(inquiries, offer, g)
  {
    if legacy.Some? {
      assert GroupKey(legacy.value, inquiries[legacy.value]) == OfferGroup(inquiries, offer, legacy).value;
    }
  }

  /** Later inquiries are not looked at, so the lookup still finds the offer's group. */
  lemma LegacyGroupStays(before: map<Key, Inquiry>, after: map<Key, Inquiry>, offer: Offer, g: Option<Key>)
    requires OnlyNewer(before, after, offer.createdAt) && NewestIn(before, offer, g)
    ensures NewestIn(after, offer, g)
  {
    forall k | k in after && SamePair(after[k], offer) ensures k in before && SamePair(before[k], offer) {
    }
    if g.Some? {
      var k :| k in before && IsLegacy(before, offer, Some(k)) && GroupKey(k, before[k]) == g.value;
      assert SamePair(after[k], offer) && GroupKey(k, after[k]) == g.value;
      assert IsLegacy(after, offer, Some(k));
    }
  }

  lemma TiesStay(before: map<Key, Inquiry>, after: map<Key, Inquiry>, offer: Offer)
    requires OnlyNewer(before, after, offer.createdAt) && TiesAgree(before, offer)
    ensures TiesAgree(after, offer)
  {
    forall k | k in after && SamePair(after[k], offer)
      ensures k in before && SamePair(before[k], offer) && GroupKey(k, after[k]) == GroupKey(k, before[k])
    {
    }
  }

  /** Rows of the offer's buyer and seller, not after it, under either listing. */
  predicate OfEither(row: Inquiry, offer: Offer, from: Id, into: Id) {
    SamePair(row, offer.(listingId := from)) || SamePair(row, offer.(listingId := into))
  }

  /** Of the rows of both listings the newest is of the group `g`. */
  predicate NewestOfBoth(inquiries: map<Key, Inquiry>, offer: Offer, from: Id, into: Id, g: Option<Key>) {
    match g
    case None => forall k | k in inquiries :: !OfEither(inquiries[k], offer, from, into)
    case Some(key) =>
      exists k | k in inquiries && OfEither(inquiries[k], offer, from, into) ::
        && GroupKey(k, inquiries[k]) == key
        && forall j | j in inquiries && OfEither(inquiries[j], offer, from, into) :: inquiries[j].createdAt <= inquiries[k].createdAt
  }

  /** The merge does not concern the offer's listing, or the newest inquiry of both listings is of its group. */
  predicate MergeIsSettled(inquiries: map<Key, Inquiry>, offer: Offer, from: Id, into: Id, g: Option<Key>) {
    if offer.listingId == from || offer.listingId == into then NewestOfBoth(inquiries, offer, from, into, g) else NewestIn(inquiries, offer, g)
  }

  lemma MergedPair(row: Inquiry, offer: Offer, from: Id, into: Id)
    ensures SamePair(MergedRow(row, from, into), MergedOffer(offer, from, into))
       <==> if offer.listingId == from || offer.listingId == into then OfEither(row, offer, from, into) else SamePair(row, offer)
  {
  }

  /** After a merge the lookup finds the group exactly when the merge is settled. */
  lemma MergeSettles(db: Db, offer: Offer, from: Id, into: Id, g: Option<Key>)
    ensures NewestIn(MergeListings(db, from, into).inquiries, MergedOffer(offer, from, into), g)
       <==> MergeIsSettled(db.inquiries, offer, from, into, g)
  {
    var after, offer' := MergeListings(db, from, into).inquiries, MergedOffer(offer, from, into);
    forall k | k in after
      ensures SamePair(after[k], offer') <==> if offer.listingId == from || offer.listingId == into
                                              then OfEither(db.inquiries[k], offer, from, into) else SamePair(db.inquiries[k], offer)
    {
      MergedPair(db.inquiries[k], offer, from, into);
    }
    forall k | k in after ensures GroupKey(k, after[k]) == GroupKey(k, db.inquiries[k]) && after[k].createdAt == db.inquiries[k].createdAt {
    }
  }

  predicate TiesAgreeFor(db: Db, offerId: Id) { offerId in db.offers && TiesAgree(db.inquiries, db.offers[offerId]) }

  /** Inquiries are dated after the offer; a merge of its listing leaves the group the newest of both, and no tie. */
  predicate StepIsSettled(db: Db, offerId: Id, g: Option<Key>, op: Op)
    requires offerId in db.offers
  {
    && SentAfter(op, db.offers[offerId].createdAt)
    && (op.MergeOp? ==> MergeIsSettled(db.inquiries, db.offers[offerId], op.from, op.into, g) && TiesAgreeFor(Apply(db, op), offerId))
  }

  predicate StepsAreSettled(db: Db, offerId: Id, g: Option<Key>, ops: seq<Op>)
    decreases |ops|
  {
    ops != [] ==> offerId in db.offers && StepIsSettled(db, offerId, g, ops[0]) && StepsAreSettled(Apply(db, ops[0]), offerId, g, ops[1..])
  }

  /**
   * What keeps an offer without a group link of its own in the group it was accepted for: no two
   * groups of its pair tie, inquiries sent later are dated after it, and when its listing is merged
   * with another, the newest inquiry of both is of that group.
   */
  predicate LookupIsSettled(db: Db, offerId: Id, g: Option<Key>, ops: seq<Op>) {
    TiesAgreeFor(db, offerId) && StepsAreSettled(db, offerId, g, ops)
  }

  lemma OffersStay(db: Db, op: Op, offerId: Id)
    requires WellFormed(db) && offerId in db.offers
    ensures offerId in Apply(db, op).offers
    ensures Apply(db, op).offers[offerId] == if op.MergeOp? then MergedOffer(db.offers[offerId], op.from, op.into) else db.offers[offerId]
  {
    if op.SendOp? && Apply(db, op) != db {
      SendMakes(db, op);
    }
    if op.OrderOp? && Apply(db, op) != db {
      OrderMakes(db, op);
    }
  }

  lemma StepGroupStays(db: Db, op: Op, offerId: Id, g: Option<Key>)
    requires WellFormed(db) && offerId in db.offers && NewestIn(db.inquiries, db.offers[offerId], g)
    requires TiesAgreeFor(db, offerId) && StepIsSettled(db, offerId, g, op)
    ensures TiesAgreeFor(Apply(db, op), offerId) && NewestIn(Apply(db, op).inquiries, Apply(db, op).offers[offerId], g)
  {
    var offer := db.offers[offerId];
    OffersStay(db, op, offerId);
    if op.MergeOp? {
      MergeSettles(db, offer, op.from, op.into, g);
    } else {
      StepOnlyNewer(db, op, offer.createdAt);
      LegacyGroupStays(db.inquiries, Apply(db, op).inquiries, offer, g);
      TiesStay(db.inquiries, Apply(db, op).inquiries, offer);
    }
  }

  lemma {:induction false} RunGroupStays(db: Db, ops: seq<Op>, offerId: Id, g: Option<Key>)
    requires WellFormed(db) && LookupIsSettled(db, offerId, g, ops) && NewestIn(db.inquiries, db.offers[offerId], g)
    ensures TiesAgreeFor(Run(db, ops), offerId) && NewestIn(Run(db, ops).inquiries, Run(db, ops).offers[offerId], g)
    decreases |ops|
  {
    if ops != [] {
      StepGroupStays(db, ops[0], offerId, g);
      StepOk(db, ops[0]);
      RunGroupStays(Apply(db, ops[0]), ops[1..], offerId, g);
    }
  }

  /** The group of an accepted offer is still its group after the run, looked up or linked. */
  lemma DealGroupStays(db: Db, accept: Op, ops: seq<Op>, legacy': Option<Key>)
    requires WellFormed(db) && accept.AcceptOp? && accept.offerId in db.offers && Valid(db, accept)
    requires var offer := db.offers[accept.offerId];
             || offer.rfqGroupId.Some?
             || LookupIsSettled(db, accept.offerId, OfferGroup(db.inquiries, offer, accept.legacy), [accept] + ops)
    requires var later := Run(Apply(db, accept), ops);
             accept.offerId in later.offers && IsLegacy(later.inquiries, later.offers[accept.offerId], legacy')
    ensures var later := Run(Apply(db, accept), ops);
            OfferGroup(later.inquiries, later.offers[accept.offerId], legacy') == OfferGroup(db.inquiries, db.offers[accept.offerId], accept.legacy)
  {
    var offer, all := db.offers[accept.offerId], [accept] + ops;
    assert all[0] == accept && all[1..] == ops && Run(db, all) == Run(Apply(db, accept), ops);
    var later := Run(db, all);
    RunOk(db, all);
    assert SameDeal(offer, later.offers[accept.offerId]);
    if offer.rfqGroupId.None? {
      var g := OfferGroup(db.inquiries, offer, accept.legacy);
      NewestIsFound(db.inquiries, offer, accept.legacy, g);
      RunGroupStays(db, all, accept.offerId, g);
      NewestIsFound(later.inquiries, later.offers[accept.offerId], legacy', g);
    }
  }

  /** What is reported on one row of the group is what is frozen from another one later. */
  lemma SameTotalLater(db: Db, later: Db, offer: Offer, offer': Offer, k: Key, k': Key)
    requires WellFormed(later) && Kept(db, later) && SameDeal(offer, offer')
    requires k in db.inquiries && k' in later.inquiries && GroupKey(k, db.inquiries[k]) == GroupKey(k', later.inquiries[k'])
    ensures AcceptTotal(offer, db.inquiries[k]) == Orders.Total(FrozenFor(offer', later.inquiries[k']))
  {
    SameBasketLater(db, later, k, k');
    assert RowOk(k', later.inquiries[k']);
    AcceptTotalIsOrderTotal(offer, db.inquiries[k], later.inquiries[k']);
    assert FrozenFor(offer', later.inquiries[k']) == FrozenFor(offer, later.inquiries[k']) by {
      assert forall n: nat :: PricesFor(offer', n) == PricesFor(offer, n);
    }
  }

  /** The row an acceptance reads and the row an order reads later carry the same total. */
  lemma DealTotal(db: Db, accept: Op, ops: seq<Op>, legacy': Option<Key>, seen': Option<Key>)
    requires WellFormed(db) && accept.AcceptOp? && accept.offerId in db.offers && Valid(db, accept)
    requires var offer := db.offers[accept.offerId];
             || offer.rfqGroupId.Some?
             || LookupIsSettled(db, accept.offerId, OfferGroup(db.inquiries, offer, accept.legacy), [accept] + ops)
    requires var later := Run(Apply(db, accept), ops);
             && accept.offerId in later.offers && AcceptAnswers(later, later.offers[accept.offerId], legacy', seen')
             && OfferGroup(later.inquiries, later.offers[accept.offerId], legacy').Some?
    ensures OfferGroup(db.inquiries, db.offers[accept.offerId], accept.legacy).Some?
    ensures accept.seen.Some? && accept.seen.value in db.inquiries && seen'.Some? && seen'.value in Run(Apply(db, accept), ops).inquiries
    ensures var later := Run(Apply(db, accept), ops);
            AcceptTotal(db.offers[accept.offerId], db.inquiries[accept.seen.value])
            == Orders.Total(FrozenFor(later.offers[accept.offerId], later.inquiries[seen'.value]))
  {
    var offer, later := db.offers[accept.offerId], Run(Apply(db, accept), ops);
    var offer' := later.offers[accept.offerId];
    AcceptThenRun(db, accept, ops);
    DealGroupStays(db, accept, ops, legacy');
    assert Linked(later.inquiries, offer') && Linked(db.inquiries, offer);
    OfferRow(later, offer', legacy', seen');
    OfferRow(db, offer, accept.legacy, accept.seen);
    SameTotalLater(db, later, offer, offer', accept.seen.value, seen'.value);
  }

  /**
   * Accept an offer, let anything happen, then order from it: if the order goes through, its total is
   * the one the acceptance reported. An offer that names no group is looked up by its pair, which
   * must be settled.
   */
  lemma AcceptedTotalIsFrozen(db: Db, accept: Op, ops: seq<Op>, orderId: Id, legacy': Option<Key>, seen': Option<Key>, now': int)
    requires WellFormed(db) && accept.AcceptOp? && accept.offerId in db.offers && Valid(db, accept)
    requires AcceptOffer(db, accept.owned, accept.biz, accept.offerId, accept.legacy, accept.seen, accept.now).1.Ok?
    requires var offer := db.offers[accept.offerId];
             || offer.rfqGroupId.Some?
             || LookupIsSettled(db, accept.offerId, OfferGroup(db.inquiries, offer, accept.legacy), [accept] + ops)
    requires var later := Run(Apply(db, accept), ops);
             && accept.offerId in later.offers && AcceptAnswers(later, later.offers[accept.offerId], legacy', seen')
             && OrderFromOffer(later, orderId, accept.biz, accept.offerId, legacy', seen', now').1.None?
    ensures var report := AcceptOffer(db, accept.owned, accept.biz, accept.offerId, accept.legacy, accept.seen, accept.now).1;
            var ordered := OrderFromOffer(Run(Apply(db, accept), ops), orderId, accept.biz, accept.offerId, legacy', seen', now').0;
            && orderId in ordered.orders
            && ordered.orders[orderId].totalMinor == report.value.totalMinor
            && ordered.orders[orderId].origin == Orders.RfqOffer(accept.offerId)
  {
    OrderedTotal(Run(Apply(db, accept), ops), orderId, accept.biz, accept.offerId, legacy', seen', now');
    DealTotal(db, accept, ops, legacy', seen');
    ReportedTotal(db, accept.owned, accept.biz, accept.offerId, accept.legacy, accept.seen, accept.now);
  }

  lemma {:induction false} SomePriceSomeLine(items: seq<RfqItem>, prices: seq<Option<nat>>, i: nat)
    requires |items| == |prices| && i < |prices| && prices[i].Some?
    ensures Frozen(items, prices) != []
  {
    var n := |items| - 1;
    if i < n {
      SomePriceSomeLine(items[..n], prices[..n], i);
    }
  }

  lemma {:induction false} FirstPriceAt(prices: seq<Option<nat>>) returns (i: nat)
    requires FirstPrice(prices).Some?
    ensures i < |prices| && prices[i] == FirstPrice(prices) && forall j | 0 <= j < i :: prices[j].None?
  {
    if prices[0].Some? {
      i := 0;
    } else {
      var k := FirstPriceAt(prices[1..]);
      i := k + 1;
    }
  }

  /** An answer that was accepted by the handler prices some line, so once it wins it can always be ordered from. */
  lemma AnsweredIsOrderable(row: Inquiry, sellerName: string, prices: seq<Option<int>>, priceMinor: Option<nat>, now: int, row': Inquiry)
    requires OfferFor(row, sellerName, prices, priceMinor, now).Ok?
    requires row'.items != Some([]) && BasketOf(row') == BasketOf(row)
    ensures var offer := OfferFor(row, sellerName, prices, priceMinor, now).value;
            && FrozenFor(offer, row') != []
            && (offer.prices.Some? ==> |offer.prices.value| == |ItemsOf(row')|)
  {
    var offer := OfferFor(row, sellerName, prices, priceMinor, now).value;
    var items := ItemsOf(row');
    assert |items| == |BasketOf(row')| == |BasketOf(row)| == |ItemsOf(row)|;
    var i := 0;
    if offer.prices.Some? {
      i := FirstPriceAt(offer.prices.value);
    }
    SomePriceSomeLine(items, PricesFor(offer, |items|), i);
  }
}
