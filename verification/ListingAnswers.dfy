/** What a seller gets from saving a listing and from changing many prices, column by column. */
module ListingAnswers {
  import opened Wrappers
  import opened JsNumber
  import opened VariantKey
  import opened Listings
  import opened ListingRuns

  predicate Near(n: int, x: real) { -0.5 <= n as real - x <= 0.5 }

  // ---- The unit price ----

  /** The whole units in the price of one base unit; the price itself when the base quantity is not known. */
  predicate IsUnitPrice(unit: int, price: int, baseQty: Option<real>) {
    if baseQty.Some? && baseQty.value > 0.0
    then unit as real * baseQty.value <= price as real < (unit + 1) as real * baseQty.value
    else unit == price
  }

  lemma FloorOfQuotient(x: real, b: real)
    requires b > 0.0
    ensures var u := (x / b).Floor; u as real * b <= x < (u + 1) as real * b
  {
    var q := x / b;
    var u, w := q.Floor, (q.Floor + 1) as real;
    assert q * b == x && u as real <= q < w;
    Product(u as real, q, b);
    Product(q, w, b);
    assert u as real * b <= x;
    assert x < w * b;
  }

  lemma UnitPriceIs(price: int, baseQty: Option<real>)
    ensures IsUnitPrice(UnitPrice(price, baseQty), price, baseQty)
  {
    if baseQty.Some? && baseQty.value > 0.0 {
      FloorOfQuotient(price as real, baseQty.value);
      assert UnitPrice(price, baseQty) == (price as real / baseQty.value).Floor;
    }
  }

  lemma Product(a: real, b: real, m: real)
    requires a <= b && m > 0.0
    ensures a * m <= b * m && (a < b ==> a * m < b * m)
  {
    var d := b - a;
    Positive2(d, m);
    assert b * m == a * m + d * m;
  }

  lemma Positive2(d: real, m: real)
    requires d >= 0.0 && m > 0.0
    ensures d * m >= 0.0 && (d > 0.0 ==> d * m > 0.0)
  {
  }

  // ---- One item of a bulk change ----

  predicate NamedOnce(items: seq<BulkItem>, id: Id, i: nat) {
    i < |items| && items[i].listingId == id && forall j | 0 <= j < |items| && j != i :: items[j].listingId != id
  }

  /** A price below zero is none at all. */
  predicate AtLeastZero(n: int, x: real) { if x < 0.0 then n == 0 else n >= 0 && Near(n, x) }

  /** A sent price wins; without one a percentage is added to the price there is; without both the price stays. */
  predicate IsNewPrice(item: BulkItem, was: Option<int>, next: Option<int>) {
    match item.priceMinor
    case Set(Some(p)) => next.Some? && Near(next.value, p)
    case _ =>
      match item.pct
      case Set(Some(q)) => (next.Some? <==> was.Some?) && (was.Some? ==> AtLeastZero(next.value, was.value as real + was.value as real * q / 100.0))
      case _ => next == was
  }

  predicate IsNewStock(item: BulkItem, was: Option<int>, next: Option<int>) {
    match item.stock
    case Set(Some(k)) => next.Some? && Near(next.value, k)
    case _ => next == was
  }

  predicate NothingSent(item: BulkItem) { item.priceMinor == Keep && item.pct == Keep && item.stock == Keep }

  /** The row after its item, column by column. */
  predicate IsBulkRow(item: BulkItem, row: Listing, row': Listing, now: int) {
    && IsNewPrice(item, row.priceMinor, row'.priceMinor) && IsNewStock(item, row.stock, row'.stock)
    && row'.pricedAt == (if row'.priceMinor != row.priceMinor || NothingSent(item) then Some(now) else row.pricedAt)
    && (if row'.priceMinor.None? then row'.pricePerBaseMinor == row.pricePerBaseMinor
        else row'.pricePerBaseMinor.Some? && IsUnitPrice(row'.pricePerBaseMinor.value, row'.priceMinor.value, row.baseQty))
    && row' == row.(priceMinor := row'.priceMinor, stock := row'.stock, pricedAt := row'.pricedAt, pricePerBaseMinor := row'.pricePerBaseMinor)
  }

  lemma ScaledIs(m: int, q: real)
    ensures AtLeastZero(Scaled(m, q), m as real + m as real * q / 100.0)
  {
    var x := m as real * (1.0 + q / 100.0);
    PercentOf(m as real, q);
    FlooredAtZero(x);
    assert Scaled(m, q) == if Round(x) < 0 then 0 else Round(x);
  }

  lemma FlooredAtZero(x: real)
    ensures AtLeastZero(if Round(x) < 0 then 0 else Round(x), x)
  {
    RoundNear(x);
  }

  lemma PercentOf(m: real, q: real)
    ensures m * (1.0 + q / 100.0) == m + m * q / 100.0
  {
    var u := q / 100.0;
    assert m * (u * 100.0) == (m * u) * 100.0;
    assert m * (1.0 + u) == m + m * u;
  }

  lemma NextPriceIs(row: Listing, item: BulkItem)
    ensures IsNewPrice(item, row.priceMinor, NextPrice(row, item))
  {
    if Given(item.priceMinor).Some? {
      RoundNear(Given(item.priceMinor).value);
    } else if Given(item.pct).Some? && row.priceMinor.Some? {
      ScaledIs(row.priceMinor.value, Given(item.pct).value);
    }
  }

  lemma BulkRowIs(row: Listing, item: BulkItem, now: int)
    ensures IsBulkRow(item, row, BulkRow(row, row, item, now), now)
  {
    NextPriceIs(row, item);
    if Given(item.stock).Some? {
      RoundNear(Given(item.stock).value);
    }
    if NextPrice(row, item).Some? {
      UnitPriceIs(NextPrice(row, item).value, row.baseQty);
    }
  }

  lemma {:induction false} BulkNamed(db: Db, rows: Rows, items: seq<BulkItem>, now: int, id: Id, i: nat)
    requires NamedOnce(items, id, i) && id in rows && id in db.listings && rows[id] == db.listings[id]
    ensures BulkAll(db, rows, items, now).listings[id] == BulkRow(rows[id], rows[id], items[i], now)
  {
    var n := |items| - 1;
    var init := items[..n];
    if i < n {
      assert forall j | 0 <= j < n :: init[j] == items[j];
      BulkNamed(db, rows, init, now, id, i);
    } else {
      assert forall j | 0 <= j < n :: init[j].listingId == items[j].listingId != id;
      BulkSkips(db, rows, init, now, id);
    }
  }

  /**
   * A bulk change leaves an own listing it names once with what its item sends, and every listing of
   * others, or that it does not name, as it was; the tables of references stay.
   */
  lemma BulkIs(db: Db, biz: Id, items: seq<BulkItem>, now: int, id: Id)
    requires id in db.listings
    ensures var db' := Bulk(db, biz, items, now);
            && db'.listings.Keys == db.listings.Keys && db'.refs == db.refs
            && (db.listings[id].businessId != biz || (forall i | 0 <= i < |items| :: items[i].listingId != id) ==> db'.listings[id] == db.listings[id])
            && forall i | 0 <= i < |items| && NamedOnce(items, id, i) && db.listings[id].businessId == biz ::
                 IsBulkRow(items[i], db.listings[id], db'.listings[id], now)
  {
    var rows := OwnRows(db, biz);
    BulkKeepsIdentity(db, rows, items, now, id);
    if db.listings[id].businessId != biz || forall i | 0 <= i < |items| :: items[i].listingId != id {
      BulkSkips(db, rows, items, now, id);
    }
    forall i | 0 <= i < |items| && NamedOnce(items, id, i) && db.listings[id].businessId == biz
      ensures IsBulkRow(items[i], db.listings[id], Bulk(db, biz, items, now).listings[id], now)
    {
      BulkNamed(db, rows, items, now, id, i);
      BulkRowIs(db.listings[id], items[i], now);
    }
  }

  /** A percentage of at least minus a hundred on a price that is not negative is honoured to within a half; below, nothing is left. */
  lemma PercentageIsHonoured(db: Db, biz: Id, items: seq<BulkItem>, now: int, id: Id, i: nat, m: int, q: real)
    requires id in db.listings && db.listings[id].businessId == biz && NamedOnce(items, id, i) && db.listings[id].priceMinor == Some(m)
    requires (items[i].priceMinor == Keep || items[i].priceMinor == Set(None)) && items[i].pct == Set(Some(q)) && m >= 0
    ensures var after := Bulk(db, biz, items, now).listings[id].priceMinor;
            && after.Some? && after.value >= 0
            && if q >= -100.0 then Near(after.value, m as real * (1.0 + q / 100.0)) else after.value == 0
  {
    BulkIs(db, biz, items, now, id);
    PercentOf(m as real, q);
    var x, u := m as real * (1.0 + q / 100.0), 1.0 + q / 100.0;
    if q >= -100.0 {
      assert u >= 0.0;
      Product2(m as real, u);
    } else {
      assert u < 0.0;
      if m > 0 {
        assert m as real * u < 0.0;
      }
    }
  }

  lemma Product2(a: real, b: real)
    requires a >= 0.0 && b >= 0.0
    ensures a * b >= 0.0
  {
  }

  // ---- What it reports ----

  predicate IsForeign(db: Db, biz: Id, item: BulkItem) { item.listingId !in db.listings || db.listings[item.listingId].businessId != biz }

  /** The item has something to write to an own listing: a price, a stock, or the date of a renewal. */
  predicate IsTouching(db: Db, biz: Id, item: BulkItem) {
    && !IsForeign(db, biz, item)
    && (|| db.listings[item.listingId].priceMinor.Some?
        || (item.priceMinor.Set? && item.priceMinor.value.Some?)
        || (item.stock.Set? && item.stock.value.Some?)
        || NothingSent(item))
  }

  function ForeignAt(db: Db, biz: Id, items: seq<BulkItem>): set<nat> { set i: nat | i < |items| && IsForeign(db, biz, items[i]) }

  function TouchingAt(db: Db, biz: Id, items: seq<BulkItem>): set<nat> { set i: nat | i < |items| && IsTouching(db, biz, items[i]) }

  /** The reported counts are those of the items naming no own listing, and of those with something to write. */
  lemma CountsAre(db: Db, biz: Id, items: seq<BulkItem>)
    ensures Foreign(OwnRows(db, biz), items) == |ForeignAt(db, biz, items)|
    ensures Written(OwnRows(db, biz), items) == |TouchingAt(db, biz, items)|
  {
    ForeignCount(db, biz, items);
    TouchingCount(db, biz, items);
  }

  lemma {:induction false} ForeignCount(db: Db, biz: Id, items: seq<BulkItem>)
    ensures Foreign(OwnRows(db, biz), items) == |ForeignAt(db, biz, items)|
  {
    if items != [] {
      var n := |items| - 1;
      ForeignCount(db, biz, items[..n]);
      assert ForeignAt(db, biz, items) == ForeignAt(db, biz, items[..n]) + if IsForeign(db, biz, items[n]) then {n} else {};
    }
  }

  lemma {:induction false} TouchingCount(db: Db, biz: Id, items: seq<BulkItem>)
    ensures Written(OwnRows(db, biz), items) == |TouchingAt(db, biz, items)|
  {
    if items != [] {
      var n := |items| - 1;
      TouchingCount(db, biz, items[..n]);
      TouchingIs(db, biz, items[n]);
      assert TouchingAt(db, biz, items) == TouchingAt(db, biz, items[..n]) + if IsTouching(db, biz, items[n]) then {n} else {};
    }
  }

  lemma TouchingIs(db: Db, biz: Id, item: BulkItem)
    ensures IsTouching(db, biz, item)
       <==> item.listingId in OwnRows(db, biz) && Writes(OwnRows(db, biz)[item.listingId], item)
  {
  }

  // ---- A save ----

  function SentCategory(req: SaveReq): Option<Id> {
    if req.category.Set? && req.category.value.Some? && req.category.value.value != "" then req.category.value else None
  }

  /** What a request must have before anything is looked up. */
  predicate IsComplete(reference: Reference, cats: set<Id>, req: SaveReq) {
    && req.goodId in reference.goods
    && (req.mode in {SELL, BOTH} ==> req.sell.Some?) && (req.mode in {BUY, BOTH} ==> req.hasBuySpec)
    && (SentCategory(req).Some? ==> SentCategory(req).value in cats)
    && (req.productId.Some? ==>
          && req.productId.value in reference.products && !reference.products[req.productId.value].merged
          && reference.products[req.productId.value].goodId == req.goodId)
  }

  /** The reason is true of the request. */
  predicate IsReason(reference: Reference, cats: set<Id>, req: SaveReq, e: Error) {
    match e
    case GoodNotFound => req.goodId !in reference.goods
    case SellSpecRequired => req.mode in {SELL, BOTH} && req.sell == None
    case BuySpecRequired => req.mode in {BUY, BOTH} && !req.hasBuySpec
    case CategoryNotFound => SentCategory(req).Some? && SentCategory(req).value !in cats
    case ProductNotFound => req.productId.Some? && (req.productId.value in reference.products ==> reference.products[req.productId.value].merged)
    case ProductGoodMismatch =>
      && req.productId.Some? && req.productId.value in reference.products && !reference.products[req.productId.value].merged
      && reference.products[req.productId.value].goodId != req.goodId
    case _ => false
  }

  function Order(e: Error): nat {
    match e
    case GoodNotFound => 0 case SellSpecRequired => 1 case BuySpecRequired => 2 case CategoryNotFound => 3
    case ProductNotFound => 4 case ProductGoodMismatch => 5 case _ => 6
  }

  /** A complete request is linked to the product it names, or to the one found for it; any other is refused for its first reason. */
  lemma PreparedIff(reference: Reference, cats: set<Id>, req: SaveReq)
    ensures var r := Prepare(reference, cats, req);
            && (r.Ok? <==> IsComplete(reference, cats, req))
            && (r.Ok? ==> match req.productId
                          case None => r.value == req.linked
                          case Some(p) => r.value == Some(Link(p, reference.products[p].searchText)))
            && (r.Err? ==> IsReason(reference, cats, req, r.error)
                           && forall e | IsReason(reference, cats, req, e) :: Order(r.error) <= Order(e))
  {
  }

  /** The key of a save: its product's text to sixty characters, or its own combination. */
  predicate IsKeyOf(req: SaveReq, link: Option<Link>, key: string) {
    match link
    case None => key == DeriveVariantKey(SanitizeAttrs(req.attrs))
    case Some(l) => key <= l.searchText && |key| == if |l.searchText| < 60 then |l.searchText| else 60
  }

  /** The row a save leaves, over the one before it. */
  predicate IsSaved(req: SaveReq, link: Option<Link>, was: Listing, row: Listing, now: int) {
    && row.businessId == was.businessId && row.goodId == was.goodId && row.isActive && IsKeyOf(req, link, row.variantKey)
    && row.productId == (match link case None => None case Some(l) => Some(l.productId))
    && (match req.baseQty
        case Keep => row.baseQty == was.baseQty
        case Set(q) => row.baseQty == if q.Some? && q.value > 0.0 then q else None)
    && row.catalogCategoryId == (if req.category == Keep then was.catalogCategoryId else SentCategory(req))
    && if req.mode in {SELL, BOTH} && req.sell.Some? then
         && row.priceMinor == Some(req.sell.value.priceMinor) && row.stock == req.sell.value.stock
         && row.pricedAt == (if was.priceMinor == row.priceMinor then was.pricedAt else Some(now))
         && row.pricePerBaseMinor.Some? && IsUnitPrice(row.pricePerBaseMinor.value, req.sell.value.priceMinor, row.baseQty)
       else row.priceMinor == None && row.stock == None && row.pricedAt == was.pricedAt && row.pricePerBaseMinor == None
  }

  lemma SavedIs(req: SaveReq, link: Option<Link>, was: Listing, now: int)
    ensures IsSaved(req, link, was, Saved(was, req, link, now), now)
  {
    var row := Saved(was, req, link, now);
    if NextMinor(req).Some? {
      UnitPriceIs(NextMinor(req).value, row.baseQty);
    }
  }

  /** The row before a save: the one stored, or an empty one of the seller and the good. */
  predicate IsBefore(db: Db, biz: Id, goodId: Id, id: Id, was: Listing) {
    if id in db.listings then was == db.listings[id]
    else
      && was.businessId == biz && was.goodId == goodId
      && was.priceMinor == None && was.pricePerBaseMinor == None && was.pricedAt == None && was.baseQty == None && was.stock == None
      && was.catalogCategoryId == None && was.productId == None
  }

  /** The duplicate is out of the list, under a key of its own, and otherwise as it was. */
  predicate IsRetired(was: Listing, row: Listing, id: Id) {
    row == was.(isActive := false, variantKey := "fork:" + id)
  }

  predicate Keyed(db: Db, id: Id, biz: Id, goodId: Id, key: string) {
    id in db.listings && db.listings[id].businessId == biz && db.listings[id].goodId == goodId && db.listings[id].variantKey == key
  }

  /** The row that is saved: the named one or the holder of its key; else the holder, else a row from before products, else a new one. */
  predicate IsTarget(db: Db, biz: Id, req: SaveReq, key: string, newId: Id, id: Id) {
    match req.listingId
    case Some(named) => if exists h | h in db.listings :: Keyed(db, h, biz, req.goodId, key) then Keyed(db, id, biz, req.goodId, key) else id == named
    case None =>
      if exists h | h in db.listings :: Keyed(db, h, biz, req.goodId, key) then Keyed(db, id, biz, req.goodId, key)
      else
        var own := DeriveVariantKey(SanitizeAttrs(req.attrs));
        if exists h | h in db.listings :: Keyed(db, h, biz, req.goodId, own) && db.listings[h].isActive && db.listings[h].productId.None?
        then Keyed(db, id, biz, req.goodId, own) && db.listings[id].isActive && db.listings[id].productId.None?
        else id == newId && id !in db.listings
  }

  lemma SomeHolder(db: Db, biz: Id, goodId: Id, key: string)
    requires OneRowPerKey(db)
    ensures HolderOf(db, biz, goodId, key).Some? <==> exists h | h in db.listings :: Keyed(db, h, biz, goodId, key)
    ensures forall h | h in db.listings && Keyed(db, h, biz, goodId, key) :: HolderOf(db, biz, goodId, key) == Some(h)
  {
    HolderSpec(db, biz, goodId, key);
    if HolderOf(db, biz, goodId, key).Some? {
      assert Keyed(db, HolderOf(db, biz, goodId, key).value, biz, goodId, key);
    }
    forall h | h in db.listings && Keyed(db, h, biz, goodId, key) ensures HolderOf(db, biz, goodId, key) == Some(h) {
      HolderIsTheOne(db, h, biz, goodId, key);
    }
  }

  lemma PlannedTarget(db: Db, biz: Id, req: SaveReq, key: string, newId: Id)
    requires OneRowPerKey(db)
    ensures match PlanOf(db, biz, req, key, newId)
            case Refuse(e) =>
              || (e == NotFound && req.listingId.Some? && (req.listingId.value in db.listings ==> db.listings[req.listingId.value].businessId != biz))
              || (e == ListingGoodMismatch && req.listingId.Some? && req.listingId.value in db.listings
                  && db.listings[req.listingId.value].businessId == biz && db.listings[req.listingId.value].goodId != req.goodId)
              || (e == IdTaken && req.listingId.None? && newId in db.listings)
            case Update(id) => id in db.listings && IsTarget(db, biz, req, key, newId, id) && (req.listingId.Some? ==> id == req.listingId.value)
            case Insert(id) => IsTarget(db, biz, req, key, newId, id) && req.listingId.None?
            case Merge(from, into) => req.listingId == Some(from) && from != into && IsTarget(db, biz, req, key, newId, into)
  {
    SomeHolder(db, biz, req.goodId, key);
    SomeHolder(db, biz, req.goodId, OwnKey(req));
    HolderSpec(db, biz, req.goodId, key);
    HolderSpec(db, biz, req.goodId, OwnKey(req));
  }

  /**
   * A save that goes through answers with the row it is for and leaves it as requested; the named row, if
   * it is another one, retires, and no other listing changes.
   */
  lemma SaveIs(db: Db, op: Op) returns (was: Listing, link: Option<Link>)
    requires op.SaveOp? && OneRowPerKey(db) && Save(db, op.biz, op.cats, op.reference, op.req, op.newId, op.now).1.Ok?
    ensures IsComplete(op.reference, op.cats, op.req) && Prepare(op.reference, op.cats, op.req) == Ok(link)
    ensures var (db', res) := Save(db, op.biz, op.cats, op.reference, op.req, op.newId, op.now);
            var id := res.value;
            && id in db'.listings && IsBefore(db, op.biz, op.req.goodId, id, was) && IsSaved(op.req, link, was, db'.listings[id], op.now)
            && IsTarget(db, op.biz, op.req, db'.listings[id].variantKey, op.newId, id)
            && forall x | x in db.listings && x != id ::
                 x in db'.listings && if op.req.listingId == Some(x) then IsRetired(db.listings[x], db'.listings[x], x) else db'.listings[x] == db.listings[x]
  {
    ApplySave(db, op);
    PreparedIff(op.reference, op.cats, op.req);
    link := Prepare(op.reference, op.cats, op.req).value;
    var plan := PlanOf(db, op.biz, op.req, IdentityKey(op.req, link), op.newId);
    PlannedTarget(db, op.biz, op.req, IdentityKey(op.req, link), op.newId);
    var id := Save(db, op.biz, op.cats, op.reference, op.req, op.newId, op.now).1.value;
    was := if id in db.listings then db.listings[id] else Blank(op.biz, op.req.goodId);
    SavedIs(op.req, link, was, op.now);
  }

  /** What named the retired row names the answered one. */
  function Renamed(req: SaveReq, id: Id, x: Id): Id { if req.listingId == Some(x) then id else x }

  /** A changed price is logged once, behind everything logged before; entries and references of a retired row are handed over. */
  lemma SaveIsLogged(db: Db, op: Op)
    requires op.SaveOp? && OneRowPerKey(db) && Save(db, op.biz, op.cats, op.reference, op.req, op.newId, op.now).1.Ok?
    ensures var (db', res) := Save(db, op.biz, op.cats, op.reference, op.req, op.newId, op.now);
            var id := res.value;
            var before, after := if id in db.listings then db.listings[id].priceMinor else None, db'.listings[id].priceMinor;
            var changed := before.Some? && after.Some? && before != after;
            && |db'.logs| == |db.logs| + (if changed then 1 else 0)
            && (changed ==> db'.logs[|db.logs|] == PriceLog(id, before.value, after.value))
            && (forall i | 0 <= i < |db.logs| ::
                  db'.logs[i] == PriceLog(Renamed(op.req, id, db.logs[i].listingId), db.logs[i].oldMinor, db.logs[i].newMinor))
            && db'.refs.Keys == db.refs.Keys && forall r | r in db.refs :: db'.refs[r] == Renamed(op.req, id, db.refs[r])
  {
    ApplySave(db, op);
    var link := Prepare(op.reference, op.cats, op.req).value;
    PlannedTarget(db, op.biz, op.req, IdentityKey(op.req, link), op.newId);
  }

  /** A save that is refused leaves everything as it was, for a reason of the request or of the row it names. */
  lemma SaveRefusedIff(db: Db, op: Op)
    requires op.SaveOp? && OneRowPerKey(db)
    ensures var (db', res) := Save(db, op.biz, op.cats, op.reference, op.req, op.newId, op.now);
            res.Err? ==>
              && db' == db
              && if !IsComplete(op.reference, op.cats, op.req) then IsReason(op.reference, op.cats, op.req, res.error)
                 else match op.req.listingId
                      case None => res.error == IdTaken && op.newId in db.listings
                      case Some(l) =>
                        if l in db.listings && db.listings[l].businessId == op.biz then res.error == ListingGoodMismatch && db.listings[l].goodId != op.req.goodId
                        else res.error == NotFound
  {
    ApplySave(db, op);
    PreparedIff(op.reference, op.cats, op.req);
    if Prepare(op.reference, op.cats, op.req).Ok? {
      PlannedTarget(db, op.biz, op.req, IdentityKey(op.req, Prepare(op.reference, op.cats, op.req).value), op.newId);
    }
  }

  /** And a complete request for an own row of the good, or without naming one, is never refused for want of a row. */
  lemma SaveGoesThrough(db: Db, op: Op)
    requires op.SaveOp? && OneRowPerKey(db) && IsComplete(op.reference, op.cats, op.req)
    requires match op.req.listingId
             case None => op.newId !in db.listings
             case Some(l) => l in db.listings && db.listings[l].businessId == op.biz && db.listings[l].goodId == op.req.goodId
    ensures Save(db, op.biz, op.cats, op.reference, op.req, op.newId, op.now).1.Ok?
  {
    SaveRefusedIff(db, op);
  }
}
