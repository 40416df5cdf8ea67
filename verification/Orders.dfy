/** The order protocol, one handler call at a time. */
module Orders {
  import opened Wrappers

  type Id = string

  datatype Status = NEW | ACCEPTED | SENT | DELIVERED | REJECTED | CANCELLED
  datatype Party = Buyer | Seller | System

  /** One line of an order's timeline. */
  datatype Entry = Entry(st: Status, at: int, who: Party)

  /** A frozen line of an order. */
  datatype Item = Item(goodId: Id, qty: nat, unitPriceMinor: nat)

  datatype Origin = CatalogBasket | RfqOffer(offerId: Id)

  datatype Order = Order(
    buyerId: Id,
    sellerId: Id,
    status: Status,
    origin: Origin,
    items: seq<Item>,
    totalMinor: nat,
    docNo: Option<nat>,
    deliverDeadline: Option<int>,
    history: seq<Entry>,
    archivedAt: Option<int>)

  /** The seller's correction of one line while accepting. */
  datatype Edit = Edit(qty: Option<nat>, unitPriceMinor: Option<nat>)

  /** The two tables the handlers write: orders, and the document counter of each business. */
  datatype Db = Db(orders: map<Id, Order>, invoiceSeq: map<Id, nat>)

  datatype Error =
    | OrderNotFound | SellerOnly | BuyerOnly | NotNew | NotAccepted | NotSent | AlreadySent | NotFinished
    | EmptyBasket | SelfOrder | SupplierNotFound | ListingNotFound | ListingNotSell | PriceMissing | MinOrder | IdTaken

  const DAY_MS := 86_400_000
  const DELIVER_GRACE_DAYS := 7
  const GRACE := DELIVER_GRACE_DAYS * DAY_MS
  const SWEEP := 50

  function Total(items: seq<Item>): nat {
    if items == [] then 0 else items[0].unitPriceMinor * items[0].qty + Total(items[1..])
  }

  function SeqOf(db: Db, seller: Id): nat {
    if seller in db.invoiceSeq then db.invoiceSeq[seller] else 0
  }

  // ---- Shared steps ----

  /** The order and the side the business plays in it; strangers do not learn that it exists. */
  function Load(db: Db, id: Id, biz: Id): Result<(Order, Party), Error> {
    if id !in db.orders then Err(OrderNotFound)
    else
      var o := db.orders[id];
      if o.buyerId == biz then Ok((o, Buyer))
      else if o.sellerId == biz then Ok((o, Seller))
      else Err(OrderNotFound)
  }

  function EditItem(it: Item, e: Edit): Item {
    Item(it.goodId, e.qty.GetOr(it.qty), e.unitPriceMinor.GetOr(it.unitPriceMinor))
  }

  /** Only the fields that were sent are applied; lines without an edit stay. */
  function EditItems(items: seq<Item>, edits: seq<Edit>): seq<Item> {
    seq(|items|, i requires 0 <= i < |items| => if i < |edits| then EditItem(items[i], edits[i]) else items[i])
  }

  function NewOrder(buyerId: Id, sellerId: Id, origin: Origin, items: seq<Item>, now: int): Order {
    Order(buyerId, sellerId, NEW, origin, items, Total(items), None, None, [Entry(NEW, now, Buyer)], None)
  }

  /** Status and timeline move in one update. */
  function Moved(o: Order, to: Status, who: Party, now: int): Order {
    o.(status := to, history := o.history + [Entry(to, now, who)])
  }

  function Accepted(o: Order, edits: seq<Edit>, docNo: nat, now: int): Order {
    var items := EditItems(o.items, edits);
    Moved(o, ACCEPTED, Seller, now).(items := items, totalMinor := Total(items), docNo := Some(docNo))
  }

  predicate Overdue(o: Order, now: int) {
    o.status == SENT && o.deliverDeadline.Some? && o.deliverDeadline.value < now
  }

  /** An answer of the sweep's query: at most fifty overdue orders, all of them if there are fewer. */
  predicate IsSweep(db: Db, due: seq<Id>, now: int) {
    && |due| <= SWEEP
    && (forall i, j | 0 <= i < j < |due| :: due[i] != due[j])
    && (forall id | id in due :: id in db.orders && Overdue(db.orders[id], now))
    && (|due| < SWEEP ==> forall id | id in db.orders :: Overdue(db.orders[id], now) ==> id in due)
  }

  function CloseOne(db: Db, id: Id, now: int): Db {
    if id in db.orders then db.(orders := db.orders[id := Moved(db.orders[id], DELIVERED, System, now)]) else db
  }

  function CloseAll(db: Db, due: seq<Id>, now: int): Db {
    if due == [] then db else CloseOne(CloseAll(db, due[..|due| - 1], now), due[|due| - 1], now)
  }

  // ---- The handlers ----

  /** What a party asks of an order. */
  datatype Act =
    | Accept(edits: seq<Edit>)
    | Reject
    | Send
    | Deliver
    | Cancel
    | Archive

  datatype Op =
    | Create(id: Id, buyerId: Id, sellerId: Id, origin: Origin, items: seq<Item>, now: int)
    | Handle(id: Id, biz: Id, act: Act, now: int)
    | LazyClose(due: seq<Id>, now: int)

  predicate Terminal(st: Status) { st == DELIVERED || st == REJECTED || st == CANCELLED }

  /** What a handler's side and status checks answer for a loaded order. */
  function Guard(act: Act, o: Order, side: Party): Option<Error> {
    match act
    case Accept(_) => if side != Seller then Some(SellerOnly) else if o.status != NEW then Some(NotNew) else None
    case Reject => if side != Seller then Some(SellerOnly) else if o.status != NEW then Some(NotNew) else None
    case Send => if side != Seller then Some(SellerOnly) else if o.status != ACCEPTED then Some(NotAccepted) else None
    case Deliver => if side != Buyer then Some(BuyerOnly) else if o.status != SENT then Some(NotSent) else None
    case Cancel => if side != Buyer then Some(BuyerOnly) else if o.status != NEW && o.status != ACCEPTED then Some(AlreadySent) else None
    case Archive => if side != Buyer then Some(BuyerOnly) else if !Terminal(o.status) then Some(NotFinished) else None
  }

  /** The row a handler writes once its checks passed; `docNo` is the number drawn by an accept. */
  function Written(act: Act, o: Order, docNo: nat, now: int): Order {
    match act
    case Accept(edits) => Accepted(o, edits, docNo, now)
    case Reject => Moved(o, REJECTED, Seller, now)
    case Send => Moved(o, SENT, Seller, now).(deliverDeadline := Some(now + GRACE))
    case Deliver => Moved(o, DELIVERED, Buyer, now)
    case Cancel => Moved(o, CANCELLED, Buyer, now)
    case Archive => o.(archivedAt := Some(now))
  }

  function Put(db: Db, id: Id, o: Order): Db { db.(orders := db.orders[id := o]) }

  function Draw(db: Db, seller: Id): Db { db.(invoiceSeq := db.invoiceSeq[seller := SeqOf(db, seller) + 1]) }

  function HandleOrder(db: Db, id: Id, biz: Id, act: Act, now: int): (Db, Option<Error>) {
    match Load(db, id, biz)
    case Err(e) => (db, Some(e))
    case Ok((o, side)) =>
      var refused := Guard(act, o, side);
      if refused.Some? then (db, refused)
      else if act.Accept? then (Put(Draw(db, o.sellerId), id, Written(act, o, SeqOf(db, o.sellerId) + 1, now)), None)
      else (Put(db, id, Written(act, o, 0, now)), None)
  }

  function Apply(db: Db, op: Op): (Db, Option<Error>) {
    match op
    case Create(id, buyerId, sellerId, origin, items, now) =>
      if id in db.orders then (db, Some(IdTaken))
      else (Put(db, id, NewOrder(buyerId, sellerId, origin, items, now)), None)
    case Handle(id, biz, act, now) => HandleOrder(db, id, biz, act, now)
    case LazyClose(due, now) => if IsSweep(db, due, now) then (CloseAll(db, due, now), None) else (db, None)
  }

  /** A row of the seller's catalog as the basket reads it. */
  datatype Listing = Listing(businessId: Id, goodId: Id, buyOnly: bool, priceMinor: Option<nat>, minOrder: Option<nat>, isActive: bool)
  datatype BasketItem = BasketItem(listingId: Id, qty: nat)

  function FreezeOne(listings: map<Id, Listing>, supplier: Id, it: BasketItem): Result<Item, Error> {
    if it.listingId !in listings || !listings[it.listingId].isActive || listings[it.listingId].businessId != supplier then Err(ListingNotFound)
    else
      var l := listings[it.listingId];
      if l.buyOnly then Err(ListingNotSell)
      else if l.priceMinor.None? then Err(PriceMissing)
      else if it.qty < l.minOrder.GetOr(1) then Err(MinOrder)
      else Ok(Item(l.goodId, it.qty, l.priceMinor.value))
  }

  class OrdersController {
    var orders: map<Id, Order>
    var invoiceSeq: map<Id, nat>

    function State(): Db
      reads this
    {
      Db(orders, invoiceSeq)
    }

    /**
     * A basket order: refused with the first line's error, or frozen at this moment's prices.
     * The two tables only change when an order is created.
     */
    method CreateFromBasket(id: Id, buyerId: Id, supplier: Id, suppliers: set<Id>, basket: seq<BasketItem>, listings: map<Id, Listing>, now: int)
      returns (err: Option<Error>)
      modifies this
      ensures basket == [] ==> err == Some(EmptyBasket)
      ensures basket != [] && supplier == buyerId ==> err == Some(SelfOrder)
      ensures basket != [] && supplier != buyerId && supplier !in suppliers ==> err == Some(SupplierNotFound)
      ensures basket != [] && supplier != buyerId && supplier in suppliers && err.Some? && err != Some(IdTaken) ==>
                exists k | 0 <= k < |basket| ::
                  FreezeOne(listings, supplier, basket[k]) == Err(err.value)
                  && forall j | 0 <= j < k :: FreezeOne(listings, supplier, basket[j]).Ok?
      ensures err.Some? ==> State() == old(State())
      ensures err.None? ==>
                && basket != [] && supplier != buyerId && supplier in suppliers
                && exists items: seq<Item> ::
                  && |items| == |basket|
                  && (forall k | 0 <= k < |basket| :: FreezeOne(listings, supplier, basket[k]) == Ok(items[k]))
                  && (State(), None) == Apply(old(State()), Create(id, buyerId, supplier, CatalogBasket, items, now))
    {
      if basket == [] {
        return Some(EmptyBasket);
      }
      if supplier == buyerId {
        return Some(SelfOrder);
      }
      if supplier !in suppliers {
        return Some(SupplierNotFound);
      }
      var frozen: seq<Item> := [];
      for k := 0 to |basket|
        invariant State() == old(State())
        invariant |frozen| == k
        invariant forall j | 0 <= j < k :: FreezeOne(listings, supplier, basket[j]) == Ok(frozen[j])
      {
        match FreezeOne(listings, supplier, basket[k]) {
          case Err(e) => return Some(e);
          case Ok(item) => frozen := frozen + [item];
        }
      }
      if id in orders {
        return Some(IdTaken);
      }
      orders := orders[id := NewOrder(buyerId, supplier, CatalogBasket, frozen, now)];
      err := None;
    }

    method AcceptOrder(id: Id, biz: Id, edits: seq<Edit>, now: int) returns (err: Option<Error>)
      modifies this
      ensures (State(), err) == HandleOrder(old(State()), id, biz, Accept(edits), now)
    {
      var loaded := Load(State(), id, biz);
      if loaded.Err? {
        return Some(loaded.error);
      }
      var (order, side) := loaded.value;
      if side != Seller {
        return Some(SellerOnly);
      }
      if order.status != NEW {
        return Some(NotNew);
      }
      var items := EditItems(order.items, edits);
      var totalMinor := Total(items);
      invoiceSeq := invoiceSeq[order.sellerId := (if order.sellerId in invoiceSeq then invoiceSeq[order.sellerId] else 0) + 1];
      var history := order.history + [Entry(ACCEPTED, now, Seller)];
      orders := orders[id := order.(status := ACCEPTED, items := items, totalMinor := totalMinor,
                                    docNo := Some(invoiceSeq[order.sellerId]), history := history)];
      err := None;
    }

    /** The common transition: re-reads the timeline and writes status and timeline together. */
    method Transition(id: Id, to: Status, who: Party, deadline: Option<int>, now: int)
      requires id in orders
      modifies this`orders
      ensures orders == old(orders)[id := Moved(old(orders)[id], to, who, now).(
                          deliverDeadline := if deadline.Some? then deadline else old(orders)[id].deliverDeadline)]
    {
      var history := orders[id].history + [Entry(to, now, who)];
      var row := orders[id].(status := to, history := history);
      if deadline.Some? {
        row := row.(deliverDeadline := deadline);
      }
      orders := orders[id := row];
    }

    method RejectOrder(id: Id, biz: Id, now: int) returns (err: Option<Error>)
      modifies this`orders
      ensures (State(), err) == HandleOrder(old(State()), id, biz, Reject, now)
    {
      var loaded := Load(State(), id, biz);
      if loaded.Err? {
        return Some(loaded.error);
      }
      var (order, side) := loaded.value;
      if side != Seller {
        return Some(SellerOnly);
      }
      if order.status != NEW {
        return Some(NotNew);
      }
      Transition(id, REJECTED, Seller, None, now);
      err := None;
    }

    method SendOrder(id: Id, biz: Id, now: int) returns (err: Option<Error>)
      modifies this`orders
      ensures (State(), err) == HandleOrder(old(State()), id, biz, Send, now)
    {
      var loaded := Load(State(), id, biz);
      if loaded.Err? {
        return Some(loaded.error);
      }
      var (order, side) := loaded.value;
      if side != Seller {
        return Some(SellerOnly);
      }
      if order.status != ACCEPTED {
        return Some(NotAccepted);
      }
      Transition(id, SENT, Seller, Some(now + DELIVER_GRACE_DAYS * DAY_MS), now);
      err := None;
    }

    method DeliverOrder(id: Id, biz: Id, now: int) returns (err: Option<Error>)
      modifies this`orders
      ensures (State(), err) == HandleOrder(old(State()), id, biz, Deliver, now)
    {
      var loaded := Load(State(), id, biz);
      if loaded.Err? {
        return Some(loaded.error);
      }
      var (order, side) := loaded.value;
      if side != Buyer {
        return Some(BuyerOnly);
      }
      if order.status != SENT {
        return Some(NotSent);
      }
      Transition(id, DELIVERED, Buyer, None, now);
      err := None;
    }

    method CancelOrder(id: Id, biz: Id, now: int) returns (err: Option<Error>)
      modifies this`orders
      ensures (State(), err) == HandleOrder(old(State()), id, biz, Cancel, now)
    {
      var loaded := Load(State(), id, biz);
      if loaded.Err? {
        return Some(loaded.error);
      }
      var (order, side) := loaded.value;
      if side != Buyer {
        return Some(BuyerOnly);
      }
      if order.status !in [NEW, ACCEPTED] {
        return Some(AlreadySent);
      }
      Transition(id, CANCELLED, Buyer, None, now);
      err := None;
    }

    method ArchiveOrder(id: Id, biz: Id, now: int) returns (err: Option<Error>)
      modifies this`orders
      ensures (State(), err) == HandleOrder(old(State()), id, biz, Archive, now)
    {
      var loaded := Load(State(), id, biz);
      if loaded.Err? {
        return Some(loaded.error);
      }
      var (order, side) := loaded.value;
      if side != Buyer {
        return Some(BuyerOnly);
      }
      if order.status !in [DELIVERED, REJECTED, CANCELLED] {
        return Some(NotFinished);
      }
      orders := orders[id := order.(archivedAt := Some(now))];
      err := None;
    }

    /** At most fifty overdue orders, in any order. */
    method FindDue(now: int) returns (due: seq<Id>)
      ensures IsSweep(State(), due, now)
    {
      due := [];
      var left := set id | id in orders && Overdue(orders[id], now);
      while left != {} && |due| < SWEEP
        invariant |due| <= SWEEP
        invariant forall id | id in left :: id in orders && id !in due && Overdue(orders[id], now)
        invariant forall id | id in due :: id in orders && Overdue(orders[id], now)
        invariant forall i, j | 0 <= i < j < |due| :: due[i] != due[j]
        invariant forall id | id in orders :: Overdue(orders[id], now) ==> id in left || id in due
        decreases |left|
      {
        var id :| id in left;
        due := due + [id];
        left := left - {id};
      }
    }

    /** The lazy close that precedes every read. */
    method LazyCloseDue(now: int) returns (due: seq<Id>)
      modifies this`orders
      ensures IsSweep(old(State()), due, now)
      ensures State() == Apply(old(State()), LazyClose(due, now)).0
    {
      due := FindDue(now);
      for k := 0 to |due|
        invariant State() == CloseAll(old(State()), due[..k], now) && orders.Keys == old(orders).Keys
      {
        assert due[..k + 1][..k] == due[..k];
        var id := due[k];
        var history := orders[id].history + [Entry(DELIVERED, now, System)];
        orders := orders[id := orders[id].(status := DELIVERED, history := history)];
      }
      assert due[..|due|] == due;
    }
  }

  // ---- What every run keeps ----

  predicate Edge(a: Status, b: Status) {
    match a
    case NEW => b == ACCEPTED || b == REJECTED || b == CANCELLED
    case ACCEPTED => b == SENT || b == CANCELLED
    case SENT => b == DELIVERED
    case _ => false
  }

  /** Who may record a status. */
  predicate MayRecord(e: Entry) {
    match e.st
    case NEW => e.who == Buyer
    case ACCEPTED => e.who == Seller
    case REJECTED => e.who == Seller
    case SENT => e.who == Seller
    case CANCELLED => e.who == Buyer
    case DELIVERED => e.who == Buyer || e.who == System
  }

  /** A path of allowed edges from NEW, each entry recorded by the right party. */
  predicate LegalHistory(h: seq<Entry>) {
    && |h| > 0 && h[0].st == NEW
    && (forall i | 0 <= i < |h| - 1 :: Edge(h[i].st, h[i + 1].st))
    && (forall i | 0 <= i < |h| :: MayRecord(h[i]))
  }

  predicate Occurs(st: Status, h: seq<Entry>) {
    exists i | 0 <= i < |h| :: h[i].st == st
  }

  function Rank(st: Status): nat {
    match st
    case NEW => 3
    case ACCEPTED => 2
    case SENT => 1
    case _ => 0
  }

  /** The rank strictly falls along every edge, so an order makes at most three transitions. */
  lemma {:induction false} AtMostThreeTransitions(h: seq<Entry>)
    requires LegalHistory(h)
    ensures |h| - 1 + Rank(h[|h| - 1].st) <= 3
  {
    if |h| > 1 {
      var init := h[..|h| - 1];
      AtMostThreeTransitions(init);
      assert Edge(h[|h| - 2].st, h[|h| - 1].st);
      assert init[|init| - 1] == h[|h| - 2];
    }
  }

  predicate GoodOrder(o: Order) {
    && LegalHistory(o.history)
    && o.status == o.history[|o.history| - 1].st
    && (o.docNo.Some? <==> Occurs(ACCEPTED, o.history))
    && (o.deliverDeadline.Some? <==> Occurs(SENT, o.history))
    && (o.archivedAt.Some? ==> Terminal(o.status))
    && o.totalMinor == Total(o.items)
  }

  /** The deadline runs from the dispatch, and only overdue orders are closed by the system. */
  predicate Timely(o: Order) {
    && (forall i | 0 <= i < |o.history| && o.history[i].st == SENT :: o.deliverDeadline == Some(o.history[i].at + GRACE))
    && (forall i | 0 <= i < |o.history| && o.history[i].st == DELIVERED && o.history[i].who == System ::
          o.deliverDeadline.Some? && o.deliverDeadline.value < o.history[i].at)
  }

  ghost predicate Issued(db: Db, seller: Id, n: nat) {
    exists id | id in db.orders :: db.orders[id].sellerId == seller && db.orders[id].docNo == Some(n)
  }

  ghost predicate Numbered(db: Db) {
    && (forall id | id in db.orders && db.orders[id].docNo.Some? ::
          1 <= db.orders[id].docNo.value <= SeqOf(db, db.orders[id].sellerId))
    && (forall a, b | a in db.orders && b in db.orders && a != b && db.orders[a].sellerId == db.orders[b].sellerId ::
          db.orders[a].docNo.Some? ==> db.orders[a].docNo != db.orders[b].docNo)
    && (forall seller, n: nat | 1 <= n <= SeqOf(db, seller) :: Issued(db, seller, n))
  }

  predicate AllGood(db: Db) {
    forall id | id in db.orders :: GoodOrder(db.orders[id])
  }

  predicate AllTimely(db: Db) {
    forall id | id in db.orders :: Timely(db.orders[id])
  }

  ghost predicate DbOk(db: Db) { AllGood(db) && AllTimely(db) && Numbered(db) }

  /** One move along an allowed edge keeps an order good. */
  lemma MoveKeepsGood(o: Order, w: Order, e: Entry)
    requires GoodOrder(o) && Edge(o.status, e.st) && MayRecord(e)
    requires w.history == o.history + [e] && w.status == e.st && w.archivedAt == o.archivedAt
    requires w.totalMinor == Total(w.items)
    requires if e.st == ACCEPTED then w.docNo.Some? else w.docNo == o.docNo
    requires if e.st == SENT then w.deliverDeadline.Some? else w.deliverDeadline == o.deliverDeadline
    ensures GoodOrder(w)
  {
    var h, n := w.history, |o.history|;
    assert h[n] == e && forall i | 0 <= i < n :: h[i] == o.history[i];
    assert forall st | Occurs(st, o.history) :: Occurs(st, h);
    assert Occurs(e.st, h);
  }

  /** A move that dates its deadline from itself keeps an order timely. */
  lemma MoveKeepsTimely(o: Order, w: Order, e: Entry)
    requires GoodOrder(o) && Timely(o) && Edge(o.status, e.st)
    requires w.history == o.history + [e]
    requires w.deliverDeadline == if e.st == SENT then Some(e.at + GRACE) else o.deliverDeadline
    requires e.st == DELIVERED && e.who == System ==> o.deliverDeadline.Some? && o.deliverDeadline.value < e.at
    ensures Timely(w)
  {
    RankFalls(o.history, |o.history| - 1);
  }

  /** Before its last entry a legal history has only entries of higher rank. */
  lemma {:induction false} RankFalls(h: seq<Entry>, k: nat)
    requires LegalHistory(h) && k < |h|
    ensures forall i | 0 <= i < k :: Rank(h[i].st) > Rank(h[k].st)
  {
    if k > 0 {
      RankFalls(h, k - 1);
      assert Edge(h[k - 1].st, h[k].st);
    }
  }

  lemma WrittenIsGood(o: Order, side: Party, act: Act, docNo: nat, now: int)
    requires GoodOrder(o) && Guard(act, o, side).None?
    ensures GoodOrder(Written(act, o, docNo, now))
    ensures Timely(o) ==> Timely(Written(act, o, docNo, now))
  {
    if !act.Archive? {
      var w := Written(act, o, docNo, now);
      MoveKeepsGood(o, w, w.history[|o.history|]);
      if Timely(o) {
        MoveKeepsTimely(o, w, w.history[|o.history|]);
      }
    }
  }

  /** Rows changed without touching seller and number leave the numbering as it was. */
  lemma SameNumbers(db: Db, db': Db)
    requires Numbered(db)
    requires db.orders.Keys <= db'.orders.Keys && db'.invoiceSeq == db.invoiceSeq
    requires forall id | id in db.orders :: db'.orders[id].sellerId == db.orders[id].sellerId && db'.orders[id].docNo == db.orders[id].docNo
    requires forall id | id in db'.orders && id !in db.orders :: db'.orders[id].docNo.None?
    ensures Numbered(db')
  {
    forall seller, n: nat | 1 <= n <= SeqOf(db', seller) ensures Issued(db', seller, n) {
      assert Issued(db, seller, n);
      var x :| x in db.orders && db.orders[x].sellerId == seller && db.orders[x].docNo == Some(n);
      assert x in db'.orders && db'.orders[x].sellerId == seller && db'.orders[x].docNo == Some(n);
    }
  }

  /** Drawing the next number for an order that had none keeps numbers unique and without gaps. */
  lemma AcceptKeepsNumbered(db: Db, id: Id, w: Order)
    requires Numbered(db) && id in db.orders && db.orders[id].docNo.None?
    requires w.sellerId == db.orders[id].sellerId && w.docNo == Some(SeqOf(db, w.sellerId) + 1)
    ensures Numbered(Put(Draw(db, w.sellerId), id, w))
  {
    var db' := Put(Draw(db, w.sellerId), id, w);
    forall seller, n: nat | 1 <= n <= SeqOf(db', seller) ensures Issued(db', seller, n) {
      if seller == w.sellerId && n == SeqOf(db', seller) {
        assert id in db'.orders && db'.orders[id].docNo == Some(n);
      } else {
        assert Issued(db, seller, n);
        var x :| x in db.orders && db.orders[x].sellerId == seller && db.orders[x].docNo == Some(n);
        assert x in db'.orders && db'.orders[x].sellerId == seller && db'.orders[x].docNo == Some(n);
      }
    }
  }

  /** The sweep delivers exactly the orders it found, each once. */
  lemma {:induction false} SweepRows(db: Db, due: seq<Id>, now: int)
    requires forall i, j | 0 <= i < j < |due| :: due[i] != due[j]
    requires forall id | id in due :: id in db.orders
    ensures var db' := CloseAll(db, due, now);
            && db'.invoiceSeq == db.invoiceSeq && db'.orders.Keys == db.orders.Keys
            && forall id | id in db.orders ::
                 db'.orders[id] == if id in due then Moved(db.orders[id], DELIVERED, System, now) else db.orders[id]
  {
    if due != [] {
      var init, last := due[..|due| - 1], due[|due| - 1];
      SweepRows(db, init, now);
      assert due == init + [last];
      assert last in due && last !in init;
    }
  }

  lemma SweptRowOk(o: Order, now: int)
    requires GoodOrder(o) && Timely(o) && Overdue(o, now)
    ensures GoodOrder(Moved(o, DELIVERED, System, now)) && Timely(Moved(o, DELIVERED, System, now))
  {
    var e := Entry(DELIVERED, now, System);
    MoveKeepsGood(o, Moved(o, DELIVERED, System, now), e);
    MoveKeepsTimely(o, Moved(o, DELIVERED, System, now), e);
  }

  lemma SweepKeepsGood(db: Db, due: seq<Id>, now: int)
    requires AllGood(db) && AllTimely(db) && IsSweep(db, due, now)
    ensures AllGood(CloseAll(db, due, now)) && AllTimely(CloseAll(db, due, now))
  {
    SweepRows(db, due, now);
    forall id | id in due ensures GoodOrder(CloseAll(db, due, now).orders[id]) && Timely(CloseAll(db, due, now).orders[id]) {
      SweptRowOk(db.orders[id], now);
    }
  }

  lemma SweepKeepsNumbered(db: Db, due: seq<Id>, now: int)
    requires Numbered(db) && IsSweep(db, due, now)
    ensures Numbered(CloseAll(db, due, now))
  {
    SweepRows(db, due, now);
    SameNumbers(db, CloseAll(db, due, now));
  }

  lemma PutKeepsGood(db: Db, db': Db, id: Id, w: Order)
    requires AllGood(db) && AllTimely(db) && GoodOrder(w) && Timely(w) && db'.orders == db.orders[id := w]
    ensures AllGood(db') && AllTimely(db')
  {
  }

  /** What a handler leaves: the tables as they were, or one row written by the rules. */
  lemma HandlePuts(db: Db, id: Id, biz: Id, act: Act, now: int)
    requires HandleOrder(db, id, biz, act, now).1.None?
    ensures id in db.orders && Load(db, id, biz).Ok? && Load(db, id, biz).value.0 == db.orders[id]
    ensures Guard(act, db.orders[id], Load(db, id, biz).value.1).None?
    ensures HandleOrder(db, id, biz, act, now).0.orders
            == db.orders[id := Written(act, db.orders[id], if act.Accept? then SeqOf(db, db.orders[id].sellerId) + 1 else 0, now)]
  {
  }

  lemma HandleKeepsGood(db: Db, id: Id, biz: Id, act: Act, now: int)
    requires AllGood(db) && AllTimely(db)
    ensures AllGood(HandleOrder(db, id, biz, act, now).0) && AllTimely(HandleOrder(db, id, biz, act, now).0)
  {
    if HandleOrder(db, id, biz, act, now).1.None? {
      HandlePuts(db, id, biz, act, now);
      var o := db.orders[id];
      var docNo := if act.Accept? then SeqOf(db, o.sellerId) + 1 else 0;
      assert GoodOrder(o) && Timely(o);
      WrittenIsGood(o, Load(db, id, biz).value.1, act, docNo, now);
      PutKeepsGood(db, HandleOrder(db, id, biz, act, now).0, id, Written(act, o, docNo, now));
    }
  }

  lemma HandleKeepsNumbered(db: Db, id: Id, biz: Id, act: Act, now: int)
    requires AllGood(db) && Numbered(db)
    ensures Numbered(HandleOrder(db, id, biz, act, now).0)
  {
    if HandleOrder(db, id, biz, act, now).1.None? {
      var o := db.orders[id];
      if act.Accept? {
        NewHasNoNumber(o);
        AcceptKeepsNumbered(db, id, Written(act, o, SeqOf(db, o.sellerId) + 1, now));
      } else {
        SameNumbers(db, Put(db, id, Written(act, o, 0, now)));
      }
    }
  }

  lemma NewHasNoNumber(o: Order)
    requires GoodOrder(o) && o.status == NEW
    ensures o.docNo.None?
  {
    RankFalls(o.history, |o.history| - 1);
  }

  lemma CreateKeepsOk(db: Db, id: Id, o: Order, now: int)
    requires DbOk(db) && id !in db.orders && o == NewOrder(o.buyerId, o.sellerId, o.origin, o.items, now)
    ensures DbOk(Put(db, id, o))
  {
    PutKeepsGood(db, Put(db, id, o), id, o);
    SameNumbers(db, Put(db, id, o));
  }

  lemma StepKeepsOk(db: Db, op: Op)
    requires DbOk(db)
    ensures DbOk(Apply(db, op).0)
  {
    match op
    case Create(id, buyerId, sellerId, origin, items, now) =>
      if id !in db.orders {
        CreateKeepsOk(db, id, NewOrder(buyerId, sellerId, origin, items, now), now);
      }
    case Handle(id, biz, act, now) =>
      HandleKeepsGood(db, id, biz, act, now);
      HandleKeepsNumbered(db, id, biz, act, now);
    case LazyClose(due, now) =>
      if IsSweep(db, due, now) {
        SweepKeepsGood(db, due, now);
        SweepKeepsNumbered(db, due, now);
      }
  }

  function Run(db: Db, ops: seq<Op>): Db
    decreases |ops|
  {
    if ops == [] then db else Run(Apply(db, ops[0]).0, ops[1..])
  }

  /**
   * Every run keeps every timeline a legal path that ends in the status, the number set exactly when
   * accepted, the deadline exactly when sent and seven days after it, the archive mark only on finished
   * orders, the total in step with the lines, and each seller's document numbers exactly 1, 2, ..., invoiceSeq.
   */
  lemma {:induction false} RunKeepsOk(db: Db, ops: seq<Op>)
    requires DbOk(db)
    ensures DbOk(Run(db, ops))
    decreases |ops|
  {
    if ops != [] {
      StepKeepsOk(db, ops[0]);
      RunKeepsOk(Apply(db, ops[0]).0, ops[1..]);
    }
  }

  /** The empty tables satisfy all of it. */
  lemma EmptyOk()
    ensures DbOk(Db(map[], map[]))
  {
  }

  /** What time may do to an order: timelines only grow, finished orders stay, agreed terms are frozen. */
  predicate Later(o: Order, o': Order) {
    && o'.buyerId == o.buyerId && o'.sellerId == o.sellerId && o'.origin == o.origin
    && o.history <= o'.history
    && (Terminal(o.status) ==> o'.status == o.status && o'.history == o.history)
    && (o.status != NEW ==> o'.status != NEW && o'.items == o.items && o'.totalMinor == o.totalMinor && o'.docNo == o.docNo)
    && (o.deliverDeadline.Some? ==> o'.deliverDeadline == o.deliverDeadline)
    && (o.archivedAt.Some? ==> o'.archivedAt.Some?)
  }

  lemma WrittenIsLater(o: Order, side: Party, act: Act, docNo: nat, now: int)
    requires GoodOrder(o) && Guard(act, o, side).None?
    ensures Later(o, Written(act, o, docNo, now))
  {
    if act.Send? {
      RankFalls(o.history, |o.history| - 1);
    }
  }

  lemma HandleIsLater(db: Db, x: Id, biz: Id, act: Act, now: int, id: Id)
    requires AllGood(db) && id in db.orders
    ensures var db' := HandleOrder(db, x, biz, act, now).0; id in db'.orders && Later(db.orders[id], db'.orders[id])
  {
    if HandleOrder(db, x, biz, act, now).1.None? {
      HandlePuts(db, x, biz, act, now);
      var o := db.orders[x];
      assert GoodOrder(o);
      WrittenIsLater(o, Load(db, x, biz).value.1, act, if act.Accept? then SeqOf(db, o.sellerId) + 1 else 0, now);
    }
  }

  lemma CreateIsLater(db: Db, op: Op, id: Id)
    requires op.Create? && id in db.orders
    ensures id in Apply(db, op).0.orders && Apply(db, op).0.orders[id] == db.orders[id]
  {
  }

  lemma SweepIsLater(db: Db, due: seq<Id>, now: int, id: Id)
    requires IsSweep(db, due, now) && id in db.orders
    ensures id in CloseAll(db, due, now).orders && Later(db.orders[id], CloseAll(db, due, now).orders[id])
  {
    SweepRows(db, due, now);
  }

  lemma StepIsLater(db: Db, op: Op, id: Id)
    requires AllGood(db) && id in db.orders
    ensures id in Apply(db, op).0.orders && Later(db.orders[id], Apply(db, op).0.orders[id])
  {
    match op
    case Create(_, _, _, _, _, _) => CreateIsLater(db, op, id);
    case Handle(x, biz, act, now) => HandleIsLater(db, x, biz, act, now, id);
    case LazyClose(due, now) =>
      if IsSweep(db, due, now) {
        SweepIsLater(db, due, now, id);
      }
  }

  /** Over any run an order never disappears, its timeline only grows, and a finished order stays finished. */
  lemma {:induction false} RunIsLater(db: Db, ops: seq<Op>, id: Id)
    requires DbOk(db) && id in db.orders
    ensures id in Run(db, ops).orders && Later(db.orders[id], Run(db, ops).orders[id])
    decreases |ops|
  {
    if ops != [] {
      StepIsLater(db, ops[0], id);
      StepKeepsOk(db, ops[0]);
      RunIsLater(Apply(db, ops[0]).0, ops[1..], id);
    }
  }
}
