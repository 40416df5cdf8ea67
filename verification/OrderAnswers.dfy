/** What a party gets from an order handler, column by column. */
module OrderAnswers {
  import opened Wrappers
  import opened Orders
  import Split = OrdersInterleaved

  // ---- Lines and totals ----

  /** A field that was sent replaces the stored one. */
  predicate Corrects(sent: Option<nat>, before: nat, after: nat) {
    (sent.Some? ==> after == sent.value) && (sent.None? ==> after == before)
  }

  predicate SameLine(a: Item, b: Item) { a.goodId == b.goodId && a.qty == b.qty && a.unitPriceMinor == b.unitPriceMinor }

  /** As many lines, each with its good: a sent quantity or price is the line's, anything else stays. */
  predicate Corrected(edits: seq<Edit>, before: seq<Item>, after: seq<Item>) {
    && |after| == |before|
    && (forall i | 0 <= i < |after| && i < |edits| ::
          && after[i].goodId == before[i].goodId
          && Corrects(edits[i].qty, before[i].qty, after[i].qty)
          && Corrects(edits[i].unitPriceMinor, before[i].unitPriceMinor, after[i].unitPriceMinor))
    && forall i | |edits| <= i < |after| :: SameLine(before[i], after[i])
  }

  lemma EditsCorrect(items: seq<Item>, edits: seq<Edit>)
    ensures Corrected(edits, items, EditItems(items, edits))
  {
  }

  /** A total is the price times the quantity of a single line, and adds up over lines. */
  lemma {:induction false} TotalAdds(a: seq<Item>, b: seq<Item>, it: Item)
    ensures Total([]) == 0 && Total([it]) == it.qty * it.unitPriceMinor && Total(a + b) == Total(a) + Total(b)
  {
    assert [it][1..] == [];
    if a == [] {
      assert a + b == b;
    } else {
      TotalAdds(a[1..], b, it);
      assert (a + b)[0] == a[0] && (a + b)[1..] == a[1..] + b;
    }
  }

  // ---- Who may do what ----

  predicate IsSellers(act: Act) { act.Accept? || act.Reject? || act.Send? }

  predicate Plays(act: Act, o: Order, biz: Id) {
    if IsSellers(act) then biz == o.sellerId && biz != o.buyerId else biz == o.buyerId
  }

  predicate Allows(act: Act, st: Status) {
    match act
    case Accept(_) => st == NEW
    case Reject => st == NEW
    case Send => st == ACCEPTED
    case Deliver => st == SENT
    case Cancel => st in {NEW, ACCEPTED}
    case Archive => st in {DELIVERED, REJECTED, CANCELLED}
  }

  function TooLate(act: Act): Error {
    match act
    case Accept(_) => NotNew
    case Reject => NotNew
    case Send => NotAccepted
    case Deliver => NotSent
    case Cancel => AlreadySent
    case Archive => NotFinished
  }

  /**
   * An order exists only for its two parties. The wrong party is told whose act it is, the right one at
   * the wrong time why not, and nobody else is refused; a refusal leaves the tables as they were.
   */
  lemma RefusedIff(db: Db, id: Id, biz: Id, act: Act, now: int)
    ensures var (db', err) := HandleOrder(db, id, biz, act, now);
            && (err == Some(OrderNotFound) <==> id !in db.orders || (biz != db.orders[id].buyerId && biz != db.orders[id].sellerId))
            && (err.None? <==> id in db.orders && Plays(act, db.orders[id], biz) && Allows(act, db.orders[id].status))
            && (err.Some? && err != Some(OrderNotFound) ==>
                  err.value == if !Plays(act, db.orders[id], biz) then (if IsSellers(act) then SellerOnly else BuyerOnly) else TooLate(act))
            && (err.Some? ==> db' == db)
  {
  }

  // ---- What is written ----

  /** The status an act moves to, and who records it. */
  function MoveOf(act: Act): Option<(Status, Party)> {
    match act
    case Accept(_) => Some((ACCEPTED, Seller))
    case Reject => Some((REJECTED, Seller))
    case Send => Some((SENT, Seller))
    case Deliver => Some((DELIVERED, Buyer))
    case Cancel => Some((CANCELLED, Buyer))
    case Archive => None
  }

  /** The parties, the origin and the timeline of a row before and after an act. */
  predicate Moves(act: Act, o: Order, o': Order, now: int) {
    && o'.buyerId == o.buyerId && o'.sellerId == o.sellerId && o'.origin == o.origin
    && match MoveOf(act)
       case None => o'.status == o.status && o'.history == o.history && o'.archivedAt == Some(now)
       case Some((st, who)) => o'.status == st && o'.history == o.history + [Entry(st, now, who)] && o'.archivedAt == o.archivedAt
  }

  const SEVEN_DAYS := 7 * 24 * 60 * 60 * 1000

  /** The lines, the number and the deadline. */
  predicate Settles(act: Act, o: Order, o': Order, number: nat, now: int) {
    && o'.deliverDeadline == (if act.Send? then Some(now + SEVEN_DAYS) else o.deliverDeadline)
    && if act.Accept? then Corrected(act.edits, o.items, o'.items) && o'.totalMinor == Total(o'.items) && o'.docNo == Some(number)
       else o'.items == o.items && o'.totalMinor == o.totalMinor && o'.docNo == o.docNo
  }

  function Counter(db: Db, seller: Id): nat { if seller in db.invoiceSeq then db.invoiceSeq[seller] else 0 }

  /**
   * An act that goes through changes its own order only, in the columns it is for; an acceptance freezes
   * the corrected lines and numbers them with the seller's next number, and no other counter moves.
   */
  lemma HandledWrites(db: Db, id: Id, biz: Id, act: Act, now: int)
    requires HandleOrder(db, id, biz, act, now).1.None?
    ensures var db' := HandleOrder(db, id, biz, act, now).0;
            && id in db.orders && db'.orders.Keys == db.orders.Keys
            && (forall x | x in db.orders && x != id :: db'.orders[x] == db.orders[x])
            && Moves(act, db.orders[id], db'.orders[id], now)
            && Settles(act, db.orders[id], db'.orders[id], Counter(db, db.orders[id].sellerId) + 1, now)
    ensures var db' := HandleOrder(db, id, biz, act, now).0;
            forall s :: Counter(db', s) == Counter(db, s) + if act.Accept? && s == db.orders[id].sellerId then 1 else 0
  {
    if act.Accept? {
      EditsCorrect(db.orders[id].items, act.edits);
    }
  }

  /** The write of an interleaved acceptance: the lines it read, corrected, over the row as it is by then. */
  lemma InterleavedAcceptWrites(s: Split.St, t: Split.Tid, now: int)
    requires t in s.threads && s.threads[t].AcceptNumbered? && s.threads[t].id in s.db.orders
    ensures var pc, s' := s.threads[t], Split.Next(s, Split.Step(t, now));
            && s'.db.orders.Keys == s.db.orders.Keys && s'.db.invoiceSeq == s.db.invoiceSeq && s'.threads == s.threads - {t}
            && (forall x | x in s.db.orders && x != pc.id :: s'.db.orders[x] == s.db.orders[x])
            && var o, o' := s.db.orders[pc.id], s'.db.orders[pc.id];
               && Corrected(pc.edits, pc.seen.items, o'.items) && o'.totalMinor == Total(o'.items) && o'.docNo == Some(pc.docNo)
               && o'.status == ACCEPTED && o'.history == pc.seen.history + [Entry(ACCEPTED, now, Seller)]
               && o'.buyerId == o.buyerId && o'.sellerId == o.sellerId && o'.origin == o.origin
               && o'.deliverDeadline == o.deliverDeadline && o'.archivedAt == o.archivedAt
  {
    EditsCorrect(s.threads[t].seen.items, s.threads[t].edits);
  }

  // ---- The sweep ----

  predicate Late(o: Order, now: int) { o.status == SENT && o.deliverDeadline.Some? && o.deliverDeadline.value < now }

  /**
   * A sweep delivers at most fifty orders past their deadline in the system's name, and leaves one past
   * its deadline only if it took fifty; every other order stays as it is.
   */
  lemma SweptIs(db: Db, due: seq<Id>, now: int)
    requires IsSweep(db, due, now)
    ensures var db' := Apply(db, LazyClose(due, now)).0;
            && db'.orders.Keys == db.orders.Keys && db'.invoiceSeq == db.invoiceSeq && |due| <= 50
            && (forall x | x in db.orders && x !in due :: db'.orders[x] == db.orders[x])
            && (forall x | x in due :: x in db.orders && Late(db.orders[x], now)
                  && db'.orders[x] == db.orders[x].(status := DELIVERED, history := db.orders[x].history + [Entry(DELIVERED, now, System)]))
            && (|due| < 50 ==> forall x | x in db'.orders :: !Late(db'.orders[x], now))
  {
    SweepRows(db, due, now);
    var db' := Apply(db, LazyClose(due, now)).0;
    forall x | x in db'.orders && |due| < 50 ensures !Late(db'.orders[x], now) {
      assert x in due || db'.orders[x] == db.orders[x];
      assert x !in due ==> !Overdue(db.orders[x], now);
    }
  }

  // ---- A basket order ----

  predicate Sellable(listings: map<Id, Listing>, supplier: Id, it: BasketItem) {
    && it.listingId in listings
    && var l := listings[it.listingId];
       l.isActive && l.businessId == supplier && !l.buyOnly && l.priceMinor.Some? && (if l.minOrder.Some? then l.minOrder.value else 1) <= it.qty
  }

  /** Why a basket line is refused: the first of its reasons. */
  predicate RefusedFor(listings: map<Id, Listing>, supplier: Id, it: BasketItem, e: Error) {
    var known := it.listingId in listings && listings[it.listingId].isActive && listings[it.listingId].businessId == supplier;
    if !known then e == ListingNotFound
    else
      var l := listings[it.listingId];
      if l.buyOnly then e == ListingNotSell else if l.priceMinor == None then e == PriceMissing else e == MinOrder
  }

  /** A basket line is frozen exactly when it can be sold, at the asked quantity and the listing's price of the moment. */
  lemma FrozenIff(listings: map<Id, Listing>, supplier: Id, it: BasketItem)
    ensures FreezeOne(listings, supplier, it).Ok? <==> Sellable(listings, supplier, it)
    ensures FreezeOne(listings, supplier, it).Err? ==> RefusedFor(listings, supplier, it, FreezeOne(listings, supplier, it).error)
    ensures Sellable(listings, supplier, it) ==>
              var item, l := FreezeOne(listings, supplier, it).value, listings[it.listingId];
              item.goodId == l.goodId && item.qty == it.qty && Some(item.unitPriceMinor) == l.priceMinor
  {
  }

  /** A created order is new, unnumbered and dated, with the sum of its lines. */
  lemma CreatedIs(db: Db, id: Id, buyerId: Id, sellerId: Id, origin: Origin, items: seq<Item>, now: int)
    ensures var (db', err) := Apply(db, Create(id, buyerId, sellerId, origin, items, now));
            && (err.None? <==> id !in db.orders) && (err.Some? ==> db' == db && err == Some(IdTaken))
            && (err.None? ==>
                  && db'.orders.Keys == db.orders.Keys + {id} && db'.invoiceSeq == db.invoiceSeq
                  && (forall x | x in db.orders :: db'.orders[x] == db.orders[x])
                  && var o := db'.orders[id];
                     && o.buyerId == buyerId && o.sellerId == sellerId && o.origin == origin && o.items == items && o.totalMinor == Total(items)
                     && o.status == NEW && o.history == [Entry(NEW, now, Buyer)]
                     && o.docNo == None && o.deliverDeadline == None && o.archivedAt == None)
  {
  }
}
