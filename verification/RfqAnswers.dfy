/** What buyers and sellers get from the inquiry handlers, column by column. */
module RfqAnswers {
  import opened Wrappers
  import opened PersianNumbers
  import opened Rfq
  import opened RfqRuns
  import Orders

  // ---- What a row asks for ----

  /** The lines of a row: those of its stored basket, or its one listing from before baskets. */
  function LineCount(row: Inquiry): nat { if row.items.Some? && row.items.value != [] then |row.items.value| else 1 }

  /** Line `k` asks for the quantity of the good; a stored quantity of nothing is read as one. */
  predicate Asks(row: Inquiry, k: nat, goodId: Id, qty: nat) {
    if row.items.Some? && row.items.value != [] then
      && k < |row.items.value| && goodId == row.items.value[k].goodId
      && (if row.items.value[k].qty == 0 then qty == 1 else qty == row.items.value[k].qty)
    else k == 0 && goodId == row.listingGoodId && qty == row.volume
  }

  /** And the seller's own listing for it, if there is one. */
  predicate ListedAs(row: Inquiry, k: nat, listing: Option<Id>) {
    if row.items.Some? && row.items.value != [] then k < |row.items.value| && listing == row.items.value[k].listingId
    else listing == Some(row.listingId)
  }

  lemma ItemsAre(row: Inquiry)
    ensures |ItemsOf(row)| == |BasketOf(row)| == LineCount(row)
    ensures forall k | 0 <= k < LineCount(row) ::
              && Asks(row, k, ItemsOf(row)[k].goodId, ItemsOf(row)[k].qty) && ListedAs(row, k, ItemsOf(row)[k].listingId)
              && BasketOf(row)[k].goodId == ItemsOf(row)[k].goodId && BasketOf(row)[k].qty == ItemsOf(row)[k].qty
  {
  }

  // ---- The lines of a deal ----

  /** The offer's own price for line `k`: that place of its list, or, without a list, its single price for the first line. */
  function OwnPrice(offer: Offer, k: nat): Option<nat> {
    if offer.prices.Some? && offer.prices.value != [] then if k < |offer.prices.value| then offer.prices.value[k] else None
    else if k == 0 then Some(offer.priceMinor) else None
  }

  predicate Rising(at: seq<nat>) { forall i, j | 0 <= i < j < |at| :: at[i] < at[j] }

  /** `at` are the places the offer prices, in order, among the first `n`. */
  predicate PricedAt(offer: Offer, n: nat, at: seq<nat>) {
    && Rising(at) && (forall j | 0 <= j < |at| :: at[j] < n && OwnPrice(offer, at[j]).Some?)
    && forall k | 0 <= k < n && OwnPrice(offer, k).Some? :: k in at
  }

  /** One line for each place the offer prices: the row's good and quantity there, at the offer's price there. */
  predicate AreDealLines(offer: Offer, row: Inquiry, at: seq<nat>, lines: seq<Orders.Item>) {
    && PricedAt(offer, LineCount(row), at) && |lines| == |at|
    && forall j | 0 <= j < |at| :: Asks(row, at[j], lines[j].goodId, lines[j].qty) && OwnPrice(offer, at[j]) == Some(lines[j].unitPriceMinor)
  }

  lemma PricesAre(offer: Offer, n: nat)
    ensures forall k | 0 <= k < n :: PricesFor(offer, n)[k] == OwnPrice(offer, k)
  {
  }

  predicate AreLinesOf(items: seq<RfqItem>, prices: seq<Option<nat>>, at: seq<nat>, lines: seq<Orders.Item>)
    requires |items| == |prices|
  {
    && Rising(at) && |lines| == |at|
    && (forall j | 0 <= j < |at| :: at[j] < |items| && prices[at[j]] == Some(lines[j].unitPriceMinor)
                                    && lines[j].goodId == items[at[j]].goodId && lines[j].qty == items[at[j]].qty)
    && forall k | 0 <= k < |items| && prices[k].Some? :: k in at
  }

  lemma {:induction false} FrozenAt(items: seq<RfqItem>, prices: seq<Option<nat>>) returns (at: seq<nat>)
    requires |items| == |prices|
    ensures AreLinesOf(items, prices, at, Frozen(items, prices))
  {
    at := [];
    if items != [] {
      var n := |items| - 1;
      var before := FrozenAt(items[..n], prices[..n]);
      at := if prices[n].Some? then before + [n] else before;
      LinesGrow(items, prices, before, Frozen(items[..n], prices[..n]));
    }
  }

  lemma LinesGrow(items: seq<RfqItem>, prices: seq<Option<nat>>, at: seq<nat>, lines: seq<Orders.Item>)
    requires |items| == |prices| > 0 && AreLinesOf(items[..|items| - 1], prices[..|items| - 1], at, lines)
    ensures var n := |items| - 1;
            if prices[n].Some? then AreLinesOf(items, prices, at + [n], lines + [Orders.Item(items[n].goodId, items[n].qty, prices[n].value)])
            else AreLinesOf(items, prices, at, lines)
  {
    var n := |items| - 1;
    forall k | 0 <= k < n && prices[k].Some? ensures k in at {
      assert prices[..n][k].Some?;
    }
  }

  lemma DealLines(offer: Offer, row: Inquiry) returns (at: seq<nat>)
    ensures AreDealLines(offer, row, at, Frozen(ItemsOf(row), PricesFor(offer, |ItemsOf(row)|)))
  {
    ItemsAre(row);
    PricesAre(offer, LineCount(row));
    at := FrozenAt(ItemsOf(row), PricesFor(offer, LineCount(row)));
  }

  /** A row whose basket is stored as an empty list has nothing to order. */
  predicate HasLines(row: Inquiry) { row.items != Some([]) }

  predicate PricesSome(offer: Offer, row: Inquiry) { exists k | 0 <= k < LineCount(row) :: OwnPrice(offer, k).Some? }

  lemma FrozenForIs(offer: Offer, row: Inquiry) returns (at: seq<nat>)
    requires HasLines(row)
    ensures AreDealLines(offer, row, at, FrozenFor(offer, row)) && (FrozenFor(offer, row) != [] <==> PricesSome(offer, row))
  {
    at := DealLines(offer, row);
    if FrozenFor(offer, row) != [] {
      assert OwnPrice(offer, at[0]).Some?;
    }
  }

  // ---- Ordering from an offer ----

  /**
   * An order from an offer is between the offer's parties, with exactly the lines the offer prices, each
   * at the price of its own place; nothing but the new order is written.
   */
  lemma OrderedIs(db: Db, orderId: Id, biz: Id, offerId: Id, legacy: Option<Key>, seen: Option<Key>, now: int) returns (at: seq<nat>)
    requires OrderFromOffer(db, orderId, biz, offerId, legacy, seen, now).1.None?
    ensures seen.Some? && seen.value in db.inquiries && offerId in db.offers && db.offers[offerId].buyerId == biz
    ensures var (db', offer) := (OrderFromOffer(db, orderId, biz, offerId, legacy, seen, now).0, db.offers[offerId]);
            && db'.inquiries == db.inquiries && db'.offers == db.offers && db'.orders.Keys == db.orders.Keys + {orderId} && orderId !in db.orders
            && (forall o | o in db.orders :: db'.orders[o] == db.orders[o])
            && var order := db'.orders[orderId];
               && order.buyerId == offer.buyerId && order.sellerId == offer.sellerId && order.origin == Orders.RfqOffer(offerId)
               && order.status == Orders.NEW && order.history == [Orders.Entry(Orders.NEW, now, Orders.Buyer)]
               && order.items != [] && AreDealLines(offer, db.inquiries[seen.value], at, order.items) && order.totalMinor == Orders.Total(order.items)
  {
    var row := db.inquiries[seen.value];
    if !HasLines(row) {
      assert Frozen([], PricesFor(db.offers[offerId], 0)) == [];
      assert false;
    }
    at := FrozenForIs(db.offers[offerId], row);
  }

  /** An earlier order from the same offer. */
  predicate IsOrdered(db: Db, offerId: Id) { exists o | o in db.orders :: db.orders[o].origin == Orders.RfqOffer(offerId) }

  /** The offer was accepted for the group, or, before that was recorded, its seller is in the result. */
  predicate IsWinner(row: Inquiry, offerId: Id, offer: Offer) {
    match row.acceptedOfferId
    case Some(w) => w == offerId
    case None => row.closedAt.Some? && row.resultText.Some? && row.resultText.value != ""
                 && exists a, b | 0 <= a <= b <= |row.resultText.value| :: row.resultText.value[a..b] == offer.sellerName
  }

  lemma WinnerIs(row: Inquiry, offerId: Id, offer: Offer)
    ensures Winner(row, offerId, offer) <==> IsWinner(row, offerId, offer)
  {
    if row.resultText.Some? {
      var text, name := row.resultText.value, offer.sellerName;
      if a, b :| 0 <= a <= b <= |text| && text[a..b] == name {
        assert OccursAt(text, name, a);
      }
      if i :| 0 <= i <= |text| && OccursAt(text, name, i) {
        assert text[i..i + |name|] == name;
      }
    }
  }

  /** The row an order is about was found. */
  predicate IsFound(db: Db, offer: Offer, legacy: Option<Key>, seen: Option<Key>) {
    (offer.rfqGroupId.Some? || (legacy.Some? && legacy.value in db.inquiries)) && seen.Some? && seen.value in db.inquiries
  }

  /** It is refused if one was ordered before, if the buyer has no such offer, and if no inquiry belongs to it, in this order. */
  lemma OrderRefusedIff(db: Db, orderId: Id, biz: Id, offerId: Id, legacy: Option<Key>, seen: Option<Key>, now: int)
    ensures var (db', err) := OrderFromOffer(db, orderId, biz, offerId, legacy, seen, now);
            var mine := offerId in db.offers && db.offers[offerId].buyerId == biz;
            && (err.Some? ==> db' == db)
            && (err == Some(OrderExists) <==> IsOrdered(db, offerId))
            && (err == Some(NotFound) <==> !IsOrdered(db, offerId) && !mine)
            && (err == Some(RfqNotFound) <==> !IsOrdered(db, offerId) && mine && !IsFound(db, db.offers[offerId], legacy, seen))
  {
  }

  predicate CanBeOrdered(offer: Offer, row: Inquiry) { HasLines(row) && PricesSome(offer, row) }

  /** Then if the offer is not the winner, if it prices nothing, and if the id is taken; otherwise it goes through. */
  lemma OrderGoesThroughIff(db: Db, orderId: Id, biz: Id, offerId: Id, legacy: Option<Key>, seen: Option<Key>, now: int)
    requires !IsOrdered(db, offerId) && offerId in db.offers && db.offers[offerId].buyerId == biz && IsFound(db, db.offers[offerId], legacy, seen)
    ensures var err, row, offer := OrderFromOffer(db, orderId, biz, offerId, legacy, seen, now).1, db.inquiries[seen.value], db.offers[offerId];
            err == if !IsWinner(row, offerId, offer) then Some(OfferNotAccepted)
                   else if !CanBeOrdered(offer, row) then Some(NoPricedItems)
                   else if orderId in db.orders then Some(IdTaken)
                   else None
  {
    var row, offer := db.inquiries[seen.value], db.offers[offerId];
    WinnerIs(row, offerId, offer);
    FrozenIff(offer, row);
  }

  lemma FrozenIff(offer: Offer, row: Inquiry)
    ensures FrozenFor(offer, row) != [] <==> CanBeOrdered(offer, row)
  {
    if HasLines(row) {
      var at := FrozenForIs(offer, row);
    } else {
      assert Frozen([], PricesFor(offer, 0)) == [];
    }
  }

  // ---- Accepting an offer ----

  /** The acceptance reports the total of the lines an order would freeze, or without an inquiry the offer's price. */
  lemma AcceptedTotalIs(db: Db, owned: set<Id>, biz: Id, offerId: Id, legacy: Option<Key>, seen: Option<Key>, now: int) returns (at: seq<nat>, lines: seq<Orders.Item>)
    requires AcceptOffer(db, owned, biz, offerId, legacy, seen, now).1.Ok?
    ensures offerId in db.offers
    ensures var offer, r := db.offers[offerId], AcceptOffer(db, owned, biz, offerId, legacy, seen, now).1.value;
            if r.group.Some? && seen.Some? && seen.value in db.inquiries
            then AreDealLines(offer, db.inquiries[seen.value], at, lines) && r.totalMinor == Orders.Total(lines)
            else r.totalMinor == offer.priceMinor
  {
    var offer := db.offers[offerId];
    at, lines := [], [];
    if seen.Some? && seen.value in db.inquiries {
      var row := db.inquiries[seen.value];
      at := DealLines(offer, row);
      lines := Frozen(ItemsOf(row), PricesFor(offer, |ItemsOf(row)|));
      SumIsFrozenTotal(ItemsOf(row), PricesFor(offer, |ItemsOf(row)|));
      if |ItemsOf(row)| == 1 {
        assert SumPriced(ItemsOf(row)[..0], PricesFor(offer, 1)[..0]) == 0;
      }
    }
  }

  /** The result names the seller and, in Persian digits, the single price, or for a basket of several lines their sum. */
  predicate IsResult(offer: Offer, several: bool, total: nat, text: string) {
    if several then text == "پذیرفت: " + offer.sellerName + " — جمع " + FaMoney(total as real) + " ت"
    else text == "پذیرفت: " + offer.sellerName + " — " + FaMoney(offer.priceMinor as real) + " ت"
  }

  lemma SumText(name: string, money: string)
    ensures "پذیرفت: " + name + " — " + ("جمع " + money) + " ت" == "پذیرفت: " + name + " — جمع " + money + " ت"
  {
    assert " — " + "جمع " == " — جمع ";
    assert "پذیرفت: " + name + " — " + ("جمع " + money) == "پذیرفت: " + name + (" — " + "جمع ") + money;
  }

  /** The group of an offer: the one it names, or that of the row found for it. */
  function GroupFound(db: Db, offer: Offer, legacy: Option<Key>): Option<Key> {
    if offer.rfqGroupId.Some? then offer.rfqGroupId
    else if legacy.Some? && legacy.value in db.inquiries then
      match db.inquiries[legacy.value].rfqGroupId
      case Some(g) => Some(g)
      case None => legacy
    else None
  }

  /** The offer's buyer accepts, and no one else; the reply names the offer's group and the result. */
  lemma AcceptedIff(db: Db, owned: set<Id>, biz: Id, offerId: Id, legacy: Option<Key>, seen: Option<Key>, now: int)
    ensures var (db', r) := AcceptOffer(db, owned, biz, offerId, legacy, seen, now);
            && (r.Ok? <==> offerId in db.offers && db.offers[offerId].buyerId in owned && db.offers[offerId].buyerId == biz)
            && (r.Err? ==> db' == db && r.error == (if offerId in db.offers && db.offers[offerId].buyerId !in owned then Forbidden else NotFound))
            && (r.Ok? ==>
                  && r.value.group == GroupFound(db, db.offers[offerId], legacy)
                  && IsResult(db.offers[offerId], r.value.group.Some? && seen.Some? && seen.value in db.inquiries && LineCount(db.inquiries[seen.value]) > 1,
                              r.value.totalMinor, r.value.resultText))
  {
    if offerId in db.offers {
      var offer, r := db.offers[offerId], AcceptOffer(db, owned, biz, offerId, legacy, seen, now).1;
      if seen.Some? && seen.value in db.inquiries {
        ItemsAre(db.inquiries[seen.value]);
      }
      if r.Ok? {
        SumText(offer.sellerName, FaMoney(r.value.totalMinor as real));
      }
    }
  }

  /** The rows of the group are closed with the result and the winner, and no other column or row changes. */
  lemma AcceptedRowsAre(db: Db, owned: set<Id>, biz: Id, offerId: Id, legacy: Option<Key>, seen: Option<Key>, now: int)
    requires AcceptOffer(db, owned, biz, offerId, legacy, seen, now).1.Ok?
    ensures var (db', r) := AcceptOffer(db, owned, biz, offerId, legacy, seen, now);
            && db'.offers == db.offers && db'.orders == db.orders && db'.inquiries.Keys == db.inquiries.Keys
            && forall k | k in db.inquiries ::
                 db'.inquiries[k] == if r.value.group.Some? && In(r.value.group.value, k, db.inquiries[k])
                                     then db.inquiries[k].(closedAt := Some(now), stoppedAt := None, resultText := Some(r.value.resultText), acceptedOfferId := Some(offerId))
                                     else db.inquiries[k]
  {
  }

  // ---- Stopping, restarting, archiving ----

  /** Whose group a request is about: nobody's, someone else's, or a row it may name. */
  lemma GroupForIs(inquiries: map<Key, Inquiry>, owned: set<Id>, biz: Id, g: Key, seen: Option<Key>, mine: Option<Key>)
    requires IsFirst(inquiries, g, seen) && IsMine(inquiries, biz, g, mine)
    ensures var r := GroupFor(inquiries, owned, biz, g, seen, mine);
            && (r == Err(Forbidden) <==> seen.Some? && inquiries[seen.value].buyerId !in owned)
            && (r == Err(NotFound) <==> seen == None || (inquiries[seen.value].buyerId in owned && inquiries[seen.value].buyerId != biz && mine == None))
            && (r.Err? ==> r.error in {Forbidden, NotFound})
            && (r.Ok? ==> if inquiries[seen.value].buyerId == biz then r.value == (inquiries[seen.value].rfqGroupId.GetOr(seen.value), seen.value)
                          else r.value == (g, mine.value))
  {
  }

  /** A request about nobody's or someone else's group is answered so and changes nothing. */
  lemma GroupRefused(db: Db, owned: set<Id>, biz: Id, g: Key, seen: Option<Key>, mine: Option<Key>, u: Update)
    requires GroupFor(db.inquiries, owned, biz, g, seen, mine).Err?
    ensures var e := GroupFor(db.inquiries, owned, biz, g, seen, mine).error;
            StopOrArchive(db, owned, biz, g, seen, mine, u) == (db, Some(e)) == RestartGroup(db, owned, biz, g, seen, mine)
  {
  }

  /** The row is in the group a key names, or is the one row an id names. */
  predicate In(g: Key, k: Key, row: Inquiry) { row.rfqGroupId == Some(g) || (g.Oid? && k == g) }

  /** A row of the buyer's for the offer's listing and seller, not newer than the offer. */
  predicate Precedes(row: Inquiry, offer: Offer) {
    && row.listingId == offer.listingId && row.sellerId == offer.sellerId && row.buyerId == offer.buyerId
    && !(row.createdAt > offer.createdAt)
  }

  /** The three queries answer with an oldest row of the group, with a row of it that the buyer sent, and with a newest row preceding the offer. */
  lemma QueriesAnswer(inquiries: map<Key, Inquiry>, g: Key, biz: Id, offer: Offer, k: Key)
    ensures IsFirst(inquiries, g, Some(k)) <==>
              k in inquiries && In(g, k, inquiries[k]) && forall j | j in inquiries :: In(g, j, inquiries[j]) ==> !(inquiries[j].createdAt < inquiries[k].createdAt)
    ensures IsMine(inquiries, biz, g, Some(k)) <==> k in inquiries && In(g, k, inquiries[k]) && inquiries[k].buyerId == biz
    ensures IsLegacy(inquiries, offer, Some(k)) <==>
              k in inquiries && Precedes(inquiries[k], offer) && forall j | j in inquiries :: Precedes(inquiries[j], offer) ==> !(inquiries[j].createdAt > inquiries[k].createdAt)
    ensures IsFirst(inquiries, g, None) <==> forall j | j in inquiries :: !In(g, j, inquiries[j])
    ensures IsMine(inquiries, biz, g, None) <==> forall j | j in inquiries :: !In(g, j, inquiries[j]) || inquiries[j].buyerId != biz
    ensures IsLegacy(inquiries, offer, None) <==> forall j | j in inquiries :: !Precedes(inquiries[j], offer)
  {
  }

  /** A stop, a restart and an archiving change the rows of their group alone, in the columns they are for. */
  lemma GroupIsChanged(db: Db, owned: set<Id>, biz: Id, g: Key, seen: Option<Key>, mine: Option<Key>, now: int)
    requires GroupFor(db.inquiries, owned, biz, g, seen, mine).Ok?
    ensures var key, sample := GroupFor(db.inquiries, owned, biz, g, seen, mine).value.0, GroupFor(db.inquiries, owned, biz, g, seen, mine).value.1;
            var (stopped, e1) := StopOrArchive(db, owned, biz, g, seen, mine, Stop(now));
            var (archived, e2) := StopOrArchive(db, owned, biz, g, seen, mine, ArchiveAll);
            var (reopened, e3) := RestartGroup(db, owned, biz, g, seen, mine);
            && e1 == None && e2 == None && stopped == db.(inquiries := stopped.inquiries) && archived == db.(inquiries := archived.inquiries)
            && reopened == db.(inquiries := reopened.inquiries)
            && (if sample in db.inquiries && db.inquiries[sample].closedAt.Some? then e3 == Some(RfqAccepted) && reopened == db else e3 == None)
            && stopped.inquiries.Keys == archived.inquiries.Keys == reopened.inquiries.Keys == db.inquiries.Keys
            && forall k | k in db.inquiries ::
                 var row := db.inquiries[k];
                 if In(key, k, row) then
                   && stopped.inquiries[k] == row.(stoppedAt := Some(now), closedAt := None, resultText := None)
                   && archived.inquiries[k] == row.(status := RowArchived)
                   && (e3 == None ==> reopened.inquiries[k] == row.(stoppedAt := None, closedAt := None, resultText := None))
                 else stopped.inquiries[k] == row && archived.inquiries[k] == row && reopened.inquiries[k] == row
  {
  }

  // ---- Answering an inquiry ----

  /** A sent price, between one and a million million. */
  function Bounded(v: int): nat { if v < 1 then 1 else if v <= 1_000_000_000_000 then v else 1_000_000_000_000 }

  /** The list has the sent prices, place by place, and gaps where none was sent. */
  predicate AreSent(sent: seq<Option<int>>, prices: seq<Option<nat>>) {
    |prices| == |sent| && forall i | 0 <= i < |sent| :: prices[i] == if sent[i].Some? then Some(Bounded(sent[i].value)) else None
  }

  /** The first price that was sent. */
  predicate IsFirstSent(sent: seq<Option<int>>, price: nat) {
    exists i | 0 <= i < |sent| :: sent[i].Some? && price == Bounded(sent[i].value) && forall j | 0 <= j < i :: sent[j] == None
  }

  /** Whether an answer to the row is taken, and why not. */
  predicate IsTaken(row: Inquiry, sent: seq<Option<int>>, single: Option<nat>, now: int) {
    && row.closedAt == None && row.stoppedAt == None && (row.expiresAt.Some? ==> now <= row.expiresAt.value)
    && if sent == [] then single.Some? && single.value > 0
       else |sent| == LineCount(row) && (exists i | 0 <= i < |sent| :: sent[i].Some?)
            && forall i | 0 <= i < |sent| && sent[i].Some? :: !ListedAs(row, i, None)
  }

  predicate IsRefusal(row: Inquiry, sent: seq<Option<int>>, single: Option<nat>, now: int, e: Error) {
    if row.closedAt.Some? || row.stoppedAt.Some? then e == RfqClosed
    else if row.expiresAt.Some? && row.expiresAt.value < now then e == RfqExpired
    else if sent == [] then e == NoPrice
    else if |sent| != LineCount(row) then e == PriceMismatch
    else if exists i | 0 <= i < |sent| :: sent[i].Some? && ListedAs(row, i, None) then e == ItemNotMine
    else e == NoPrice
  }

  lemma {:induction false} FirstPriceIs(prices: seq<Option<nat>>)
    ensures match FirstPrice(prices)
            case None => forall i | 0 <= i < |prices| :: prices[i] == None
            case Some(p) => exists i | 0 <= i < |prices| :: prices[i] == Some(p) && forall j | 0 <= j < i :: prices[j] == None
  {
    if prices != [] && prices[0].None? {
      FirstPriceIs(prices[1..]);
      if FirstPrice(prices).Some? {
        var i :| 0 <= i < |prices[1..]| && prices[1..][i] == FirstPrice(prices) && forall j | 0 <= j < i :: prices[1..][j] == None;
        assert prices[i + 1] == FirstPrice(prices) && forall j | 0 < j < i + 1 :: prices[j] == prices[1..][j - 1];
      } else {
        assert forall i | 0 < i < |prices| :: prices[i] == prices[1..][i - 1];
      }
    }
  }

  function Clamped(sent: seq<Option<int>>): seq<Option<nat>> {
    seq(|sent|, i requires 0 <= i < |sent| => if sent[i].None? then None else Some(Clamp(sent[i].value)))
  }

  lemma ClampedAre(sent: seq<Option<int>>)
    ensures AreSent(sent, Clamped(sent))
    ensures match FirstPrice(Clamped(sent))
            case None => forall i | 0 <= i < |sent| :: sent[i] == None
            case Some(p) => IsFirstSent(sent, p) && p > 0
  {
    FirstPriceIs(Clamped(sent));
    if FirstPrice(Clamped(sent)).Some? {
      var i :| 0 <= i < |sent| && Clamped(sent)[i] == FirstPrice(Clamped(sent)) && forall j | 0 <= j < i :: Clamped(sent)[j] == None;
      assert sent[i].Some?;
      forall j | 0 <= j < i ensures sent[j] == None {
        assert Clamped(sent)[j] == None;
      }
    }
  }

  /** An answer in time prices own lines only; it becomes an offer of the inquiry's group with exactly the prices sent. */
  lemma AnswerIs(row: Inquiry, sellerName: string, sent: seq<Option<int>>, single: Option<nat>, now: int)
    ensures var r := OfferFor(row, sellerName, sent, single, now);
            && (r.Ok? <==> IsTaken(row, sent, single, now)) && (r.Err? ==> IsRefusal(row, sent, single, now, r.error))
            && (r.Ok? ==>
                  && r.value.buyerId == row.buyerId && r.value.sellerId == row.sellerId && r.value.sellerName == sellerName
                  && r.value.listingId == row.listingId && r.value.rfqGroupId == row.rfqGroupId && r.value.createdAt == now
                  && if sent == [] then r.value.prices == None && Some(r.value.priceMinor) == single
                     else r.value.prices.Some? && AreSent(sent, r.value.prices.value) && IsFirstSent(sent, r.value.priceMinor))
  {
    ItemsAre(row);
    ClampedAre(sent);
    OfferForIs(row, sellerName, sent, single, now);
    forall i | 0 <= i < |sent| && i < LineCount(row)
      ensures ItemsOf(row)[i].listingId.None? <==> ListedAs(row, i, None)
    {
      assert ListedAs(row, i, ItemsOf(row)[i].listingId);
    }
  }

  predicate Misses(row: Inquiry, sent: seq<Option<int>>) {
    exists i | 0 <= i < |sent| && i < |ItemsOf(row)| :: sent[i].Some? && ItemsOf(row)[i].listingId.None?
  }

  lemma OfferForIs(row: Inquiry, sellerName: string, sent: seq<Option<int>>, single: Option<nat>, now: int)
    ensures OfferFor(row, sellerName, sent, single, now)
            == if row.closedAt.Some? || row.stoppedAt.Some? then Err(RfqClosed)
               else if row.expiresAt.Some? && row.expiresAt.value < now then Err(RfqExpired)
               else if sent == [] then
                 if single.Some? && single.value > 0 then Ok(Offer(row.buyerId, row.sellerId, sellerName, row.listingId, single.value, None, row.rfqGroupId, now))
                 else Err(NoPrice)
               else if |sent| != |ItemsOf(row)| then Err(PriceMismatch)
               else if Misses(row, sent) then Err(ItemNotMine)
               else match FirstPrice(Clamped(sent))
                    case None => Err(NoPrice)
                    case Some(p) => Ok(Offer(row.buyerId, row.sellerId, sellerName, row.listingId, p, Some(Clamped(sent)), row.rfqGroupId, now))
  {
    ClampedAre(sent);
  }

  /** Only the seller of the inquiry answers it; the offer is stored, the row is marked, and nothing else changes. */
  lemma SentIs(db: Db, owned: set<Id>, offerId: Id, k: Key, sellerName: string, sent: seq<Option<int>>, single: Option<nat>, now: int)
    ensures var (db', err) := SendOfferTo(db, owned, offerId, k, sellerName, sent, single, now);
            && (err.Some? ==> db' == db)
            && (err == Some(NotFound) <==> k !in db.inquiries)
            && (err == Some(Forbidden) <==> k in db.inquiries && db.inquiries[k].sellerId !in owned)
            && (k in db.inquiries && db.inquiries[k].sellerId in owned ==>
                  match OfferFor(db.inquiries[k], sellerName, sent, single, now)
                  case Err(e) => err == Some(e)
                  case Ok(offer) =>
                    if offerId in db.offers then err == Some(IdTaken)
                    else err == None && db'.orders == db.orders && db'.offers == db.offers[offerId := offer]
                         && db'.inquiries == db.inquiries[k := db.inquiries[k].(status := RowAnswered)])
  {
  }

  // ---- Sending a basket ----

  /** The stored basket: every line, in order, with the recipient's listing for it where there is one. */
  predicate IsSnapshot(basket: seq<BasketLine>, listings: map<Id, Id>, items: seq<RfqItem>) {
    && |items| == |basket|
    && forall i | 0 <= i < |basket| ::
         && items[i].goodId == basket[i].goodId && items[i].qty == basket[i].qty
         && (items[i].listingId.Some? <==> basket[i].goodId in listings)
         && (items[i].listingId.Some? ==> items[i].listingId.value == listings[basket[i].goodId])
  }

  /** The row of a recipient: new and open, under the first of its listings in the order of the basket. */
  predicate IsRowFor(r: Recipient, buyer: Id, basket: seq<BasketLine>, group: Key, expiresAt: int, now: int, row: Inquiry)
    requires basket != []
  {
    && row.buyerId == buyer && row.sellerId == r.sellerId && row.rfqGroupId == Some(group) && row.volume == basket[0].qty
    && row.items.Some? && IsSnapshot(basket, r.listings, row.items.value)
    && (exists i | 0 <= i < |basket| ::
          && basket[i].goodId in r.listings && row.listingId == r.listings[basket[i].goodId] && row.listingGoodId == basket[i].goodId
          && forall j | 0 <= j < i :: basket[j].goodId !in r.listings)
    && row.expiresAt == Some(expiresAt) && row.createdAt == now && row.status == RowNew
    && row.stoppedAt == None && row.closedAt == None && row.resultText == None && row.acceptedOfferId == None
  }

  lemma {:induction false} FirstCoveredIs(items: seq<RfqItem>)
    ensures match FirstCovered(items)
            case None => forall i | 0 <= i < |items| :: items[i].listingId == None
            case Some(x) => exists i | 0 <= i < |items| :: items[i] == x && x.listingId.Some? && forall j | 0 <= j < i :: items[j].listingId == None
  {
    if items != [] && items[0].listingId.None? {
      FirstCoveredIs(items[1..]);
      if FirstCovered(items).Some? {
        var x := FirstCovered(items).value;
        var i :| 0 <= i < |items[1..]| && items[1..][i] == x && forall j | 0 <= j < i :: items[1..][j].listingId == None;
        assert items[i + 1] == x && forall j | 0 < j < i + 1 :: items[j] == items[1..][j - 1];
      } else {
        assert forall i | 0 < i < |items| :: items[i] == items[1..][i - 1];
      }
    }
  }

  predicate HoldsAny(r: Recipient, basket: seq<BasketLine>) { exists i | 0 <= i < |basket| :: basket[i].goodId in r.listings }

  lemma NewRowIs(buyer: Id, r: Recipient, basket: seq<BasketLine>, group: Key, expiresAt: int, now: int)
    requires basket != []
    ensures NewRow(buyer, r, basket, group, expiresAt, now).Some? <==> HoldsAny(r, basket)
    ensures HoldsAny(r, basket) ==> IsRowFor(r, buyer, basket, group, expiresAt, now, NewRow(buyer, r, basket, group, expiresAt, now).value)
  {
    var items := Snapshot(basket, r.listings);
    FirstCoveredIs(items);
    if FirstCovered(items).Some? {
      var i :| 0 <= i < |items| && items[i] == FirstCovered(items).value && forall j | 0 <= j < i :: items[j].listingId == None;
      assert basket[i].goodId in r.listings;
      forall j | 0 <= j < i ensures basket[j].goodId !in r.listings {
        assert items[j].listingId == None;
      }
    } else {
      forall i | 0 <= i < |basket| ensures basket[i].goodId !in r.listings {
        assert items[i].listingId == None;
      }
    }
  }

  predicate FreshKeys(inquiries: map<Key, Inquiry>, ids: seq<Key>) {
    (forall i | 0 <= i < |ids| :: ids[i] !in inquiries) && forall i, j | 0 <= i < j < |ids| :: ids[i] != ids[j]
  }

  /** A recipient who holds a line of the basket has its row under the key, and no other has any. */
  predicate RowCame(after: map<Key, Inquiry>, id: Key, buyer: Id, r: Recipient, basket: seq<BasketLine>, group: Key, expiresAt: int, now: int)
    requires basket != []
  {
    if HoldsAny(r, basket) then id in after && IsRowFor(r, buyer, basket, group, expiresAt, now, after[id]) else id !in after
  }

  /** Stored rows stay, and a row comes under a key exactly if there is one for it. */
  predicate Came(inquiries: map<Key, Inquiry>, after: map<Key, Inquiry>, ids: seq<Key>, rows: seq<Option<Inquiry>>)
    requires |ids| == |rows|
  {
    && (forall k | k in inquiries :: k in after && after[k] == inquiries[k])
    && (forall k | k in after && k !in inquiries :: k in ids)
    && forall i | 0 <= i < |ids| :: if rows[i].Some? then ids[i] in after && after[ids[i]] == rows[i].value else ids[i] !in after
  }

  function NewRows(buyer: Id, rs: seq<Recipient>, basket: seq<BasketLine>, group: Key, expiresAt: int, now: int): seq<Option<Inquiry>>
    requires basket != []
  {
    seq(|rs|, i requires 0 <= i < |rs| => NewRow(buyer, rs[i], basket, group, expiresAt, now))
  }

  lemma {:induction false} CreatedCame(inquiries: map<Key, Inquiry>, ids: seq<Key>, buyer: Id, rs: seq<Recipient>, basket: seq<BasketLine>, group: Key,
                                       expiresAt: int, now: int)
    requires basket != [] && |ids| == |rs| && FreshKeys(inquiries, ids)
    ensures Came(inquiries, WithRows(inquiries, ids, buyer, rs, basket, group, expiresAt, now), ids, NewRows(buyer, rs, basket, group, expiresAt, now))
    decreases |rs|
  {
    if rs != [] {
      var n := |rs| - 1;
      var before := WithRows(inquiries, ids[..n], buyer, rs[..n], basket, group, expiresAt, now);
      CreatedCame(inquiries, ids[..n], buyer, rs[..n], basket, group, expiresAt, now);
      assert NewRows(buyer, rs, basket, group, expiresAt, now)[..n] == NewRows(buyer, rs[..n], basket, group, expiresAt, now);
      CameNext(inquiries, before, ids, NewRows(buyer, rs, basket, group, expiresAt, now));
    }
  }

  function WithOne(before: map<Key, Inquiry>, id: Key, row: Option<Inquiry>): map<Key, Inquiry> {
    match row
    case None => before
    case Some(one) => before[id := one]
  }

  lemma CameNext(inquiries: map<Key, Inquiry>, before: map<Key, Inquiry>, ids: seq<Key>, rows: seq<Option<Inquiry>>)
    requires |ids| == |rows| > 0 && FreshKeys(inquiries, ids) && Came(inquiries, before, ids[..|ids| - 1], rows[..|rows| - 1])
    ensures Came(inquiries, WithOne(before, ids[|ids| - 1], rows[|rows| - 1]), ids, rows)
  {
    var n := |ids| - 1;
    assert forall i | 0 <= i < n :: ids[..n][i] == ids[i] && rows[..n][i] == rows[i];
  }

  /** Every recipient who holds a line gets its row; no other row comes and none of the stored ones changes. */
  lemma RowsAre(inquiries: map<Key, Inquiry>, ids: seq<Key>, buyer: Id, rs: seq<Recipient>, basket: seq<BasketLine>, group: Key, expiresAt: int, now: int)
    requires basket != [] && |ids| == |rs| && FreshKeys(inquiries, ids)
    ensures var after := WithRows(inquiries, ids, buyer, rs, basket, group, expiresAt, now);
            && (forall k | k in inquiries :: k in after && after[k] == inquiries[k])
            && (forall k | k in after && k !in inquiries :: k in ids)
            && forall i | 0 <= i < |rs| :: RowCame(after, ids[i], buyer, rs[i], basket, group, expiresAt, now)
  {
    var after := WithRows(inquiries, ids, buyer, rs, basket, group, expiresAt, now);
    CreatedCame(inquiries, ids, buyer, rs, basket, group, expiresAt, now);
    forall i | 0 <= i < |rs| ensures RowCame(after, ids[i], buyer, rs[i], basket, group, expiresAt, now) {
      assert NewRows(buyer, rs, basket, group, expiresAt, now)[i] == NewRow(buyer, rs[i], basket, group, expiresAt, now);
      NewRowIs(buyer, rs[i], basket, group, expiresAt, now);
    }
  }
}
