/** Inquiry groups: sending, stopping, restarting, repeating, accepting, and the order that follows. */
module Rfq {
  import opened Wrappers
  import opened JsNumber
  import opened PersianNumbers
  import Orders

  type Id = string

  /** A database id is a 24-digit object id; the key of a group is a random UUID. */
  datatype Key = Oid(n: nat) | Uuid(n: nat)

  datatype BasketLine = BasketLine(goodId: Id, qty: nat)
  /** One line of the stored basket, with this seller's own listing for it, if any. */
  datatype RfqItem = RfqItem(goodId: Id, qty: nat, listingId: Option<Id>)

  datatype RowStatus = RowNew | RowAnswered | RowArchived

  /** One recipient's row. `listingGoodId` is the good of its listing. */
  datatype Inquiry = Inquiry(
    buyerId: Id,
    sellerId: Id,
    listingId: Id,
    listingGoodId: Id,
    volume: nat,
    rfqGroupId: Option<Key>,
    items: Option<seq<RfqItem>>,
    expiresAt: Option<int>,
    stoppedAt: Option<int>,
    closedAt: Option<int>,
    resultText: Option<string>,
    acceptedOfferId: Option<Id>,
    status: RowStatus,
    createdAt: int)

  datatype Offer = Offer(
    buyerId: Id,
    sellerId: Id,
    sellerName: string,
    listingId: Id,
    priceMinor: nat,
    prices: Option<seq<Option<nat>>>,
    rfqGroupId: Option<Key>,
    createdAt: int)

  datatype Db = Db(inquiries: map<Key, Inquiry>, offers: map<Id, Offer>, orders: map<Id, Orders.Order>)

  datatype Error =
    | NotFound | Forbidden | RfqAccepted | RfqClosed | RfqExpired | PriceMismatch | ItemNotMine | NoPrice
    | OrderExists | RfqNotFound | OfferNotAccepted | NoPricedItems | NoHolder | IdTaken

  // ---- Reading rows ----

  function GroupKey(k: Key, row: Inquiry): Key { row.rfqGroupId.GetOr(k) }

  /** `groupWhere(g)`: rows of the group, or the single row an object id names. */
  predicate Matches(g: Key, k: Key, row: Inquiry) {
    row.rfqGroupId == Some(g) || (g.Oid? && k == g)
  }

  /** The stored basket, or the single line of a row from before baskets. */
  function ItemsOf(row: Inquiry): (r: seq<RfqItem>)
    ensures |r| > 0
  {
    if row.items.Some? && |row.items.value| > 0
    then
      var raw := row.items.value;
      seq(|raw|, i requires 0 <= i < |raw| => raw[i].(qty := if raw[i].qty == 0 then 1 else raw[i].qty))
    else [RfqItem(row.listingGoodId, row.volume, Some(row.listingId))]
  }

  function BasketOf(row: Inquiry): seq<BasketLine> {
    var items := ItemsOf(row);
    seq(|items|, i requires 0 <= i < |items| => BasketLine(items[i].goodId, items[i].qty))
  }

  /** An answer to the query for the oldest row of a group. */
  predicate IsFirst(inquiries: map<Key, Inquiry>, g: Key, ans: Option<Key>) {
    match ans
    case None => forall k | k in inquiries :: !Matches(g, k, inquiries[k])
    case Some(k) =>
      && k in inquiries && Matches(g, k, inquiries[k])
      && forall j | j in inquiries && Matches(g, j, inquiries[j]) :: inquiries[k].createdAt <= inquiries[j].createdAt
  }

  /** An answer to the query for a row of the group bought by `biz`. */
  predicate IsMine(inquiries: map<Key, Inquiry>, biz: Id, g: Key, ans: Option<Key>) {
    match ans
    case None => forall k | k in inquiries :: !(Matches(g, k, inquiries[k]) && inquiries[k].buyerId == biz)
    case Some(k) => k in inquiries && Matches(g, k, inquiries[k]) && inquiries[k].buyerId == biz
  }

  predicate SamePair(row: Inquiry, offer: Offer) {
    row.listingId == offer.listingId && row.sellerId == offer.sellerId && row.buyerId == offer.buyerId && row.createdAt <= offer.createdAt
  }

  /** An answer to the query for the newest row of the offer's pair that precedes it. */
  predicate IsLegacy(inquiries: map<Key, Inquiry>, offer: Offer, ans: Option<Key>) {
    match ans
    case None => forall k | k in inquiries :: !SamePair(inquiries[k], offer)
    case Some(k) =>
      && k in inquiries && SamePair(inquiries[k], offer)
      && forall j | j in inquiries && SamePair(inquiries[j], offer) :: inquiries[j].createdAt <= inquiries[k].createdAt
  }

  /** The group of an offer: its own link, or that of the legacy answer. */
  function OfferGroup(inquiries: map<Key, Inquiry>, offer: Offer, legacy: Option<Key>): Option<Key> {
    if offer.rfqGroupId.Some? then offer.rfqGroupId
    else if legacy.Some? && legacy.value in inquiries then Some(GroupKey(legacy.value, inquiries[legacy.value]))
    else None
  }

  // ---- Updates of a whole group ----

  datatype Update =
    | Stop(now: int)
    | Restart
    | ArchiveAll
    | Close(now: int, text: string, offerId: Id)

  function Updated(u: Update, row: Inquiry): Inquiry {
    match u
    case Stop(now) => row.(stoppedAt := Some(now), closedAt := None, resultText := None)
    case Restart => row.(stoppedAt := None, closedAt := None, resultText := None)
    case ArchiveAll => row.(status := RowArchived)
    case Close(now, text, offerId) =>
      row.(closedAt := Some(now), stoppedAt := None, resultText := Some(text), acceptedOfferId := Some(offerId))
  }

  function UpdateMany(inquiries: map<Key, Inquiry>, g: Key, u: Update): map<Key, Inquiry> {
    map k | k in inquiries :: if Matches(g, k, inquiries[k]) then Updated(u, inquiries[k]) else inquiries[k]
  }

  /** The group an owner's request is about, with the sample row it was found by. */
  function GroupFor(inquiries: map<Key, Inquiry>, owned: set<Id>, biz: Id, g: Key, seen: Option<Key>, mine: Option<Key>): Result<(Key, Key), Error> {
    if seen.None? || seen.value !in inquiries then Err(NotFound)
    else
      var sample := inquiries[seen.value];
      if sample.buyerId !in owned then Err(Forbidden)
      else if sample.buyerId == biz then Ok((GroupKey(seen.value, sample), seen.value))
      else if mine.None? || mine.value !in inquiries then Err(NotFound)
      else Ok((g, mine.value))
  }

  function StopOrArchive(db: Db, owned: set<Id>, biz: Id, g: Key, seen: Option<Key>, mine: Option<Key>, u: Update): (Db, Option<Error>) {
    match GroupFor(db.inquiries, owned, biz, g, seen, mine)
    case Err(e) => (db, Some(e))
    case Ok((key, _)) => (db.(inquiries := UpdateMany(db.inquiries, key, u)), None)
  }

  function RestartGroup(db: Db, owned: set<Id>, biz: Id, g: Key, seen: Option<Key>, mine: Option<Key>): (Db, Option<Error>) {
    match GroupFor(db.inquiries, owned, biz, g, seen, mine)
    case Err(e) => (db, Some(e))
    case Ok((key, sample)) =>
      if sample in db.inquiries && db.inquiries[sample].closedAt.Some? then (db, Some(RfqAccepted))
      else (db.(inquiries := UpdateMany(db.inquiries, key, Restart)), None)
  }

  // ---- Sending a basket to sellers ----

  /** A seller who was picked, with the listing resolved for each good. */
  datatype Recipient = Recipient(sellerId: Id, listings: map<Id, Id>)

  /** The whole basket in order, each line with this seller's listing or none. */
  function Snapshot(basket: seq<BasketLine>, listings: map<Id, Id>): seq<RfqItem> {
    seq(|basket|, i requires 0 <= i < |basket| =>
      RfqItem(basket[i].goodId, basket[i].qty, if basket[i].goodId in listings then Some(listings[basket[i].goodId]) else None))
  }

  function FirstCovered(items: seq<RfqItem>): Option<RfqItem> {
    if items == [] then None else if items[0].listingId.Some? then Some(items[0]) else FirstCovered(items[1..])
  }

  function NewRow(buyer: Id, r: Recipient, basket: seq<BasketLine>, group: Key, expiresAt: int, now: int): Option<Inquiry>
    requires basket != []
  {
    var items := Snapshot(basket, r.listings);
    match FirstCovered(items)
    case None => None
    case Some(first) =>
      Some(Inquiry(buyer, r.sellerId, first.listingId.GetOr(""), first.goodId, basket[0].qty, Some(group), Some(items),
                   Some(expiresAt), None, None, None, None, RowNew, now))
  }

  /** The rows after creating one inquiry per recipient who covers at least one line. */
  function WithRows(inquiries: map<Key, Inquiry>, ids: seq<Key>, buyer: Id, rs: seq<Recipient>, basket: seq<BasketLine>,
                    group: Key, expiresAt: int, now: int): map<Key, Inquiry>
    requires basket != [] && |ids| == |rs|
  {
    if rs == [] then inquiries
    else
      var before := WithRows(inquiries, ids[..|ids| - 1], buyer, rs[..|rs| - 1], basket, group, expiresAt, now);
      match NewRow(buyer, rs[|rs| - 1], basket, group, expiresAt, now)
      case None => before
      case Some(row) => before[ids[|ids| - 1] := row]
  }

  /** Fresh keys from the database and from the UUID generator. */
  predicate Fresh(inquiries: map<Key, Inquiry>, group: Key, ids: seq<Key>) {
    && group.Uuid?
    && (forall k | k in inquiries :: inquiries[k].rfqGroupId != Some(group))
    && (forall i | 0 <= i < |ids| :: ids[i].Oid? && ids[i] !in inquiries)
    && (forall i, j | 0 <= i < j < |ids| :: ids[i] != ids[j])
  }

  // ---- Answering ----

  function Clamp(v: int): nat { if v < 1 then 1 else if v > 1_000_000_000_000 then 1_000_000_000_000 else v }

  function FirstPrice(prices: seq<Option<nat>>): Option<nat> {
    if prices == [] then None else if prices[0].Some? then prices[0] else FirstPrice(prices[1..])
  }

  /** The answer to one inquiry: prices line up with its items, priced only where the seller has a listing. */
  function OfferFor(row: Inquiry, sellerName: string, prices: seq<Option<int>>, priceMinor: Option<nat>, now: int): Result<Offer, Error> {
    var items := ItemsOf(row);
    if row.closedAt.Some? || row.stoppedAt.Some? then Err(RfqClosed)
    else if row.expiresAt.Some? && row.expiresAt.value < now then Err(RfqExpired)
    else if prices != [] && |prices| != |items| then Err(PriceMismatch)
    else if prices != [] && exists i | 0 <= i < |prices| :: prices[i].Some? && items[i].listingId.None? then Err(ItemNotMine)
    else
      var clamped := seq(|prices|, i requires 0 <= i < |prices| => if prices[i].None? then None else Some(Clamp(prices[i].value)));
      if prices != [] && FirstPrice(clamped).None? then Err(NoPrice)
      else
        var first := if prices != [] then FirstPrice(clamped) else priceMinor;
        if first.None? || first.value == 0 then Err(NoPrice)
        else Ok(Offer(row.buyerId, row.sellerId, sellerName, row.listingId, first.value,
                      if prices != [] then Some(clamped) else None, row.rfqGroupId, now))
  }

  // ---- Accepting and ordering ----

  /** The offer's price for each of `n` lines: its price list, or its single price, padded with gaps. */
  function PricesFor(offer: Offer, n: nat): (r: seq<Option<nat>>)
    ensures |r| == n
  {
    var listed := if offer.prices.Some? && |offer.prices.value| > 0 then offer.prices.value else [Some(offer.priceMinor)];
    seq(n, i requires 0 <= i < n => if i < |listed| then listed[i] else None)
  }

  function SumPriced(items: seq<RfqItem>, prices: seq<Option<nat>>): nat
    requires |items| == |prices|
  {
    if items == [] then 0
    else SumPriced(items[..|items| - 1], prices[..|prices| - 1])
         + if prices[|prices| - 1].Some? then prices[|prices| - 1].value * items[|items| - 1].qty else 0
  }

  /** The total reported on acceptance. */
  function AcceptTotal(offer: Offer, row: Inquiry): nat {
    var items := ItemsOf(row);
    var prices := PricesFor(offer, |items|);
    if |items| == 1 && prices[0].Some? then prices[0].value * items[0].qty else SumPriced(items, prices)
  }

  /** The lines an order freezes: the priced ones, in order. */
  function Frozen(items: seq<RfqItem>, prices: seq<Option<nat>>): seq<Orders.Item>
    requires |items| == |prices|
  {
    if items == [] then []
    else Frozen(items[..|items| - 1], prices[..|prices| - 1])
         + if prices[|prices| - 1].Some? then [Orders.Item(items[|items| - 1].goodId, items[|items| - 1].qty, prices[|prices| - 1].value)] else []
  }

  /** The items as the order handler reads them: an empty stored basket stays empty here. */
  function OrderItemsOf(row: Inquiry): seq<RfqItem> {
    if row.items == Some([]) then [] else ItemsOf(row)
  }

  function FrozenFor(offer: Offer, row: Inquiry): seq<Orders.Item> {
    var items := OrderItemsOf(row);
    Frozen(items, PricesFor(offer, |items|))
  }

  function ResultText(offer: Offer, single: bool, amount: nat): string {
    var money := FaMoney(amount as real);
    "پذیرفت: " + offer.sellerName + " — " + (if single then money else "جمع " + money) + " ت"
  }

  predicate OccursAt(text: string, part: string, i: nat) {
    i + |part| <= |text| && text[i..i + |part|] == part
  }

  predicate Includes(text: string, part: string) {
    exists i | 0 <= i <= |text| :: OccursAt(text, part, i)
  }

  datatype Accepted = Accepted(resultText: string, totalMinor: nat, group: Option<Key>)

  function AcceptOffer(db: Db, owned: set<Id>, biz: Id, offerId: Id, legacy: Option<Key>, seen: Option<Key>, now: int): (Db, Result<Accepted, Error>) {
    if offerId !in db.offers then (db, Err(NotFound))
    else
      var offer := db.offers[offerId];
      if offer.buyerId !in owned then (db, Err(Forbidden))
      else if offer.buyerId != biz then (db, Err(NotFound))
      else
        var group := OfferGroup(db.inquiries, offer, legacy);
        var row := if group.Some? && seen.Some? && seen.value in db.inquiries then Some(db.inquiries[seen.value]) else None;
        var single := row.None? || |ItemsOf(row.value)| <= 1;
        var total := if row.None? then offer.priceMinor else AcceptTotal(offer, row.value);
        var text := ResultText(offer, single, if single then offer.priceMinor else total);
        (if group.Some? then db.(inquiries := UpdateMany(db.inquiries, group.value, Close(now, text, offerId))) else db,
         Ok(Accepted(text, total, group)))
  }

  predicate Winner(row: Inquiry, offerId: Id, offer: Offer) {
    || row.acceptedOfferId == Some(offerId)
    || (row.acceptedOfferId.None? && row.closedAt.Some? && row.resultText.Some? && row.resultText.value != ""
        && Includes(row.resultText.value, offer.sellerName))
  }

  predicate Ordered(db: Db, offerId: Id) {
    exists o | o in db.orders :: db.orders[o].origin == Orders.RfqOffer(offerId)
  }

  function OrderFromOffer(db: Db, orderId: Id, biz: Id, offerId: Id, legacy: Option<Key>, seen: Option<Key>, now: int): (Db, Option<Error>) {
    if Ordered(db, offerId) then (db, Some(OrderExists))
    else if offerId !in db.offers || db.offers[offerId].buyerId != biz then (db, Some(NotFound))
    else
      var offer := db.offers[offerId];
      if OfferGroup(db.inquiries, offer, legacy).None? || seen.None? || seen.value !in db.inquiries then (db, Some(RfqNotFound))
      else
        var row := db.inquiries[seen.value];
        var frozen := FrozenFor(offer, row);
        if !Winner(row, offerId, offer) then (db, Some(OfferNotAccepted))
        else if frozen == [] then (db, Some(NoPricedItems))
        else if orderId in db.orders then (db, Some(IdTaken))
        else (db.(orders := db.orders[orderId := Orders.NewOrder(offer.buyerId, offer.sellerId, Orders.RfqOffer(offerId), frozen, now)]), None)
  }

  const DAY_MS := 86_400_000

  /** The basket of the group sent again, to `rs`, as a new group open for three days. */
  function RepeatGroup(db: Db, owned: set<Id>, biz: Id, g: Key, seen: Option<Key>, mine: Option<Key>, src: Option<Key>,
                       rs: seq<Recipient>, group: Key, ids: seq<Key>, now: int): Db
    requires |ids| == |rs|
  {
    if GroupFor(db.inquiries, owned, biz, g, seen, mine).Err? || src.None? || src.value !in db.inquiries || rs == [] then db
    else db.(inquiries := WithRows(db.inquiries, ids, biz, rs, BasketOf(db.inquiries[src.value]), group, now + 3 * DAY_MS, now))
  }

  // ---- The handlers ----

  class MarketController {
    var inquiries: map<Key, Inquiry>
    var offers: map<Id, Offer>
    var orders: map<Id, Orders.Order>

    function State(): Db
      reads this
    {
      Db(inquiries, offers, orders)
    }

    method FindFirst(g: Key) returns (ans: Option<Key>)
      ensures IsFirst(inquiries, g, ans)
    {
      ans := None;
      var left := inquiries.Keys;
      while left != {}
        invariant left <= inquiries.Keys
        invariant IsFirst(map k | k in inquiries.Keys - left :: inquiries[k], g, ans)
        decreases |left|
      {
        var k :| k in left;
        if Matches(g, k, inquiries[k]) && (ans.None? || inquiries[k].createdAt < inquiries[ans.value].createdAt) {
          ans := Some(k);
        }
        left := left - {k};
      }
      assert (map k | k in inquiries.Keys - left :: inquiries[k]) == inquiries;
    }

    method FindMine(biz: Id, g: Key) returns (ans: Option<Key>)
      ensures IsMine(inquiries, biz, g, ans)
    {
      var rows := set k | k in inquiries && Matches(g, k, inquiries[k]) && inquiries[k].buyerId == biz;
      if rows == {} {
        assert forall k | k in inquiries :: k !in rows;
        return None;
      }
      var k :| k in rows;
      ans := Some(k);
    }

    method FindLegacy(offer: Offer) returns (ans: Option<Key>)
      ensures IsLegacy(inquiries, offer, ans)
    {
      ans := None;
      var left := inquiries.Keys;
      while left != {}
        invariant left <= inquiries.Keys
        invariant IsLegacy(map k | k in inquiries.Keys - left :: inquiries[k], offer, ans)
        decreases |left|
      {
        var k :| k in left;
        if SamePair(inquiries[k], offer) && (ans.None? || inquiries[ans.value].createdAt < inquiries[k].createdAt) {
          ans := Some(k);
        }
        left := left - {k};
      }
      assert (map k | k in inquiries.Keys - left :: inquiries[k]) == inquiries;
    }

    method RfqGroupOf(owned: set<Id>, biz: Id, g: Key) returns (r: Result<(Key, Key), Error>, seen: Option<Key>, mine: Option<Key>)
      ensures IsFirst(inquiries, g, seen) && IsMine(inquiries, biz, g, mine)
      ensures r == GroupFor(inquiries, owned, biz, g, seen, mine)
    {
      seen := FindFirst(g);
      mine := FindMine(biz, g);
      if seen.None? {
        return Err(NotFound), seen, mine;
      }
      var sample := inquiries[seen.value];
      if sample.buyerId !in owned {
        return Err(Forbidden), seen, mine;
      }
      if sample.buyerId != biz {
        if mine.None? {
          return Err(NotFound), seen, mine;
        }
        return Ok((g, mine.value)), seen, mine;
      }
      r := Ok((GroupKey(seen.value, sample), seen.value));
    }

    method StopRfq(owned: set<Id>, biz: Id, g: Key, now: int) returns (err: Option<Error>, seen: Option<Key>, mine: Option<Key>)
      modifies this`inquiries
      ensures IsFirst(old(inquiries), g, seen) && IsMine(old(inquiries), biz, g, mine)
      ensures (State(), err) == StopOrArchive(old(State()), owned, biz, g, seen, mine, Stop(now))
    {
      var r;
      r, seen, mine := RfqGroupOf(owned, biz, g);
      if r.Err? {
        return Some(r.error), seen, mine;
      }
      inquiries := UpdateMany(inquiries, r.value.0, Stop(now));
      err := None;
    }

    method RestartRfq(owned: set<Id>, biz: Id, g: Key) returns (err: Option<Error>, seen: Option<Key>, mine: Option<Key>)
      modifies this`inquiries
      ensures IsFirst(old(inquiries), g, seen) && IsMine(old(inquiries), biz, g, mine)
      ensures (State(), err) == RestartGroup(old(State()), owned, biz, g, seen, mine)
    {
      var r;
      r, seen, mine := RfqGroupOf(owned, biz, g);
      if r.Err? {
        return Some(r.error), seen, mine;
      }
      if inquiries[r.value.1].closedAt.Some? {
        return Some(RfqAccepted), seen, mine;
      }
      inquiries := UpdateMany(inquiries, r.value.0, Restart);
      err := None;
    }

    method ArchiveRfq(owned: set<Id>, biz: Id, g: Key) returns (err: Option<Error>, seen: Option<Key>, mine: Option<Key>)
      modifies this`inquiries
      ensures IsFirst(old(inquiries), g, seen) && IsMine(old(inquiries), biz, g, mine)
      ensures (State(), err) == StopOrArchive(old(State()), owned, biz, g, seen, mine, ArchiveAll)
    {
      var r;
      r, seen, mine := RfqGroupOf(owned, biz, g);
      if r.Err? {
        return Some(r.error), seen, mine;
      }
      inquiries := UpdateMany(inquiries, r.value.0, ArchiveAll);
      err := None;
    }

    /** The transaction that creates one row per recipient. */
    method CreateRows(ids: seq<Key>, buyer: Id, rs: seq<Recipient>, basket: seq<BasketLine>, group: Key, expiresAt: int, now: int) returns (created: seq<Key>)
      requires basket != [] && |ids| == |rs|
      modifies this`inquiries
      ensures inquiries == WithRows(old(inquiries), ids, buyer, rs, basket, group, expiresAt, now)
      ensures (forall r | r in rs :: NewRow(buyer, r, basket, group, expiresAt, now).Some?) ==> created == ids
    {
      created := [];
      for k := 0 to |rs|
        invariant inquiries == WithRows(old(inquiries), ids[..k], buyer, rs[..k], basket, group, expiresAt, now)
        invariant (forall r | r in rs :: NewRow(buyer, r, basket, group, expiresAt, now).Some?) ==> created == ids[..k]
      {
        assert ids[..k + 1][..k] == ids[..k] && rs[..k + 1][..k] == rs[..k];
        assert rs[k] in rs;
        var items := Snapshot(basket, rs[k].listings);
        var first := FirstCovered(items);
        if first.Some? {
          var row := Inquiry(buyer, rs[k].sellerId, first.value.listingId.GetOr(""), first.value.goodId, basket[0].qty, Some(group),
                             Some(items), Some(expiresAt), None, None, None, None, RowNew, now);
          inquiries := inquiries[ids[k] := row];
          created := created + [ids[k]];
        }
      }
      assert ids[..|ids|] == ids && rs[..|rs|] == rs;
    }

    method SendOffer(owned: set<Id>, offerId: Id, inquiryId: Key, sellerName: string, prices: seq<Option<int>>, priceMinor: Option<nat>, now: int)
      returns (err: Option<Error>)
      modifies this`inquiries, this`offers
      ensures (State(), err) == SendOfferTo(old(State()), owned, offerId, inquiryId, sellerName, prices, priceMinor, now)
    {
      if inquiryId !in inquiries {
        return Some(NotFound);
      }
      var row := inquiries[inquiryId];
      if row.sellerId !in owned {
        return Some(Forbidden);
      }
      var made := OfferFor(row, sellerName, prices, priceMinor, now);
      if made.Err? {
        return Some(made.error);
      }
      if offerId in offers {
        return Some(IdTaken);
      }
      offers := offers[offerId := made.value];
      inquiries := inquiries[inquiryId := row.(status := RowAnswered)];
      err := None;
    }

    method Accept(owned: set<Id>, biz: Id, offerId: Id, now: int) returns (r: Result<Accepted, Error>, legacy: Option<Key>, seen: Option<Key>)
      modifies this`inquiries
      ensures r.Ok? ==> offerId in old(offers) && AcceptAnswers(old(State()), old(offers)[offerId], legacy, seen)
      ensures (State(), r) == AcceptOffer(old(State()), owned, biz, offerId, legacy, seen, now)
    {
      legacy, seen := None, None;
      if offerId !in offers {
        return Err(NotFound), legacy, seen;
      }
      var offer := offers[offerId];
      if offer.buyerId !in owned {
        return Err(Forbidden), legacy, seen;
      }
      if offer.buyerId != biz {
        return Err(NotFound), legacy, seen;
      }
      legacy := FindLegacy(offer);
      var group := OfferGroup(inquiries, offer, legacy);
      if group.Some? {
        seen := FindFirst(group.value);
      }
      var total, single := offer.priceMinor, true;
      if seen.Some? {
        var items := ItemsOf(inquiries[seen.value]);
        var prices := PricesFor(offer, |items|);
        total := 0;
        for i := 0 to |items|
          invariant total == SumPriced(items[..i], prices[..i])
        {
          assert items[..i + 1][..i] == items[..i] && prices[..i + 1][..i] == prices[..i];
          if prices[i].Some? {
            total := total + prices[i].value * items[i].qty;
          }
        }
        assert items[..|items|] == items && prices[..|items|] == prices;
        if |items| == 1 && prices[0].Some? {
          total := prices[0].value * items[0].qty;
        }
        single := |items| <= 1;
      }
      var text := ResultText(offer, single, if single then offer.priceMinor else total);
      if group.Some? {
        inquiries := UpdateMany(inquiries, group.value, Close(now, text, offerId));
      }
      r := Ok(Accepted(text, total, group));
    }

    /** The lines the winner priced, at its prices. */
    method FreezeItems(items: seq<RfqItem>, prices: seq<Option<nat>>) returns (frozen: seq<Orders.Item>)
      requires |prices| == |items|
      ensures frozen == Frozen(items, prices)
    {
      frozen := [];
      for i := 0 to |items|
        invariant frozen == Frozen(items[..i], prices[..i])
      {
        assert items[..i + 1][..i] == items[..i] && prices[..i + 1][..i] == prices[..i];
        if prices[i].Some? {
          frozen := frozen + [Orders.Item(items[i].goodId, items[i].qty, prices[i].value)];
        }
      }
      assert items[..|items|] == items && prices[..|items|] == prices;
    }

    method CreateFromOffer(orderId: Id, biz: Id, offerId: Id, now: int) returns (err: Option<Error>, legacy: Option<Key>, seen: Option<Key>)
      modifies this`orders
      ensures err != Some(OrderExists) && err != Some(NotFound) ==> offerId in old(offers) && AcceptAnswers(old(State()), old(offers)[offerId], legacy, seen)
      ensures (State(), err) == OrderFromOffer(old(State()), orderId, biz, offerId, legacy, seen, now)
    {
      legacy, seen := None, None;
      if exists o | o in orders :: orders[o].origin == Orders.RfqOffer(offerId) {
        return Some(OrderExists), legacy, seen;
      }
      if offerId !in offers || offers[offerId].buyerId != biz {
        return Some(NotFound), legacy, seen;
      }
      var offer := offers[offerId];
      legacy := FindLegacy(offer);
      var group := OfferGroup(inquiries, offer, legacy);
      if group.None? {
        return Some(RfqNotFound), legacy, seen;
      }
      seen := FindFirst(group.value);
      if seen.None? {
        return Some(RfqNotFound), legacy, seen;
      }
      var row := inquiries[seen.value];
      if !Winner(row, offerId, offer) {
        return Some(OfferNotAccepted), legacy, seen;
      }
      var items := OrderItemsOf(row);
      var prices := PricesFor(offer, |items|);
      var frozen := FreezeItems(items, prices);
      if frozen == [] {
        return Some(NoPricedItems), legacy, seen;
      }
      if orderId in orders {
        return Some(IdTaken), legacy, seen;
      }
      orders := orders[orderId := Orders.NewOrder(offer.buyerId, offer.sellerId, Orders.RfqOffer(offerId), frozen, now)];
      err := None;
    }
  }

  /** The answers of the two queries behind an offer: its legacy row, and the oldest row of its group. */
  predicate AcceptAnswers(db: Db, offer: Offer, legacy: Option<Key>, seen: Option<Key>) {
    && IsLegacy(db.inquiries, offer, legacy)
    && match OfferGroup(db.inquiries, offer, legacy)
       case None => seen.None?
       case Some(g) => IsFirst(db.inquiries, g, seen)
  }

  function SendOfferTo(db: Db, owned: set<Id>, offerId: Id, inquiryId: Key, sellerName: string, prices: seq<Option<int>>,
                       priceMinor: Option<nat>, now: int): (Db, Option<Error>) {
    if inquiryId !in db.inquiries then (db, Some(NotFound))
    else
      var row := db.inquiries[inquiryId];
      if row.sellerId !in owned then (db, Some(Forbidden))
      else
        match OfferFor(row, sellerName, prices, priceMinor, now)
        case Err(e) => (db, Some(e))
        case Ok(offer) =>
          if offerId in db.offers then (db, Some(IdTaken))
          else (Db(db.inquiries[inquiryId := row.(status := RowAnswered)], db.offers[offerId := offer], db.orders), None)
  }
}
