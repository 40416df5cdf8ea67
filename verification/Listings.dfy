/** A seller's listings: saving one, merging duplicates, and changing many prices at once. */
module Listings {
  import opened Wrappers
  import opened JsNumber
  import opened VariantKey

  type Id = string

  datatype Mode = SELL | BUY | BOTH

  datatype Listing = Listing(
    businessId: Id,
    goodId: Id,
    variantKey: string,
    productId: Option<Id>,
    priceMinor: Option<int>,
    pricePerBaseMinor: Option<int>,
    pricedAt: Option<int>,
    baseQty: Option<real>,
    stock: Option<int>,
    catalogCategoryId: Option<Id>,
    isActive: bool)

  datatype PriceLog = PriceLog(listingId: Id, oldMinor: int, newMinor: int)

  /** A row of another table that names a listing. */
  datatype Ref = FileRef(id: Id) | InquiryRef(id: Id) | OfferRef(id: Id)

  datatype Db = Db(listings: map<Id, Listing>, logs: seq<PriceLog>, refs: map<Ref, Id>)

  datatype Error =
    | GoodNotFound | SellSpecRequired | BuySpecRequired | CategoryNotFound
    | ProductNotFound | ProductGoodMismatch | NotFound | ListingGoodMismatch | IdTaken

  // ---- A save request ----

  datatype Product = Product(goodId: Id, merged: bool, searchText: string)

  /** The goods and reference products that exist. */
  datatype Reference = Reference(goods: set<Id>, products: map<Id, Product>)

  datatype Sell = Sell(priceMinor: int, stock: Option<int>)

  datatype Link = Link(productId: Id, searchText: string)

  /** `linked` is the product found or created for a request that names none. */
  datatype SaveReq = SaveReq(
    goodId: Id,
    mode: Mode,
    sell: Option<Sell>,
    hasBuySpec: bool,
    attrs: Option<seq<Attr>>,
    productId: Option<Id>,
    linked: Option<Link>,
    listingId: Option<Id>,
    baseQty: Patch<Option<real>>,
    category: Patch<Option<Id>>)

  function CategoryOf(req: SaveReq): Option<Id> {
    match req.category
    case Set(Some(c)) => if c == "" then None else Some(c)
    case _ => None
  }

  /** The checks before anything is looked up, and the product the row is linked to. */
  function Prepare(reference: Reference, cats: set<Id>, req: SaveReq): Result<Option<Link>, Error> {
    if req.goodId !in reference.goods then Err(GoodNotFound)
    else if req.mode != BUY && req.sell.None? then Err(SellSpecRequired)
    else if req.mode != SELL && !req.hasBuySpec then Err(BuySpecRequired)
    else if CategoryOf(req).Some? && CategoryOf(req).value !in cats then Err(CategoryNotFound)
    else
      match req.productId
      case None => Ok(req.linked)
      case Some(p) =>
        if p !in reference.products || reference.products[p].merged then Err(ProductNotFound)
        else if reference.products[p].goodId != req.goodId then Err(ProductGoodMismatch)
        else Ok(Some(Link(p, reference.products[p].searchText)))
  }

  function OwnKey(req: SaveReq): string { DeriveVariantKey(SanitizeAttrs(req.attrs)) }

  function IdentityKey(req: SaveReq, link: Option<Link>): string {
    match link
    case Some(l) => Cut(l.searchText)
    case None => OwnKey(req)
  }

  function ForkKey(id: Id): string { "fork:" + id }

  function Positive(q: Option<real>): Option<real> { if q.Some? && q.value > 0.0 then q else None }

  function UnitPrice(priceMinor: int, baseQty: Option<real>): int {
    if baseQty.Some? && baseQty.value > 0.0 then (priceMinor as real / baseQty.value).Floor else priceMinor
  }

  function UnitOf(priceMinor: Option<int>, baseQty: Option<real>): Option<int> {
    if priceMinor.Some? then Some(UnitPrice(priceMinor.value, baseQty)) else None
  }

  function NextMinor(req: SaveReq): Option<int> {
    if req.mode != BUY && req.sell.Some? then Some(req.sell.value.priceMinor) else None
  }

  /** The columns a save writes, over the row it writes them to. */
  function Saved(row: Listing, req: SaveReq, link: Option<Link>, now: int): Listing {
    var baseQty := match req.baseQty { case Keep => row.baseQty case Set(q) => Positive(q) };
    row.(variantKey := IdentityKey(req, link),
         productId := if link.Some? then Some(link.value.productId) else None,
         priceMinor := NextMinor(req),
         pricePerBaseMinor := UnitOf(NextMinor(req), baseQty),
         pricedAt := if NextMinor(req).Some? && NextMinor(req) != row.priceMinor then Some(now) else row.pricedAt,
         baseQty := baseQty,
         stock := if NextMinor(req).Some? then req.sell.value.stock else None,
         catalogCategoryId := if req.category.Set? then CategoryOf(req) else row.catalogCategoryId,
         isActive := true)
  }

  function Blank(biz: Id, goodId: Id): Listing {
    Listing(biz, goodId, "", None, None, None, None, None, None, None, true)
  }

  function LogOf(id: Id, prev: Option<int>, next: Option<int>): seq<PriceLog> {
    if prev.Some? && next.Some? && prev != next then [PriceLog(id, prev.value, next.value)] else []
  }

  // ---- Which row is written ----

  predicate HasKey(row: Listing, biz: Id, goodId: Id, key: string) {
    row.businessId == biz && row.goodId == goodId && row.variantKey == key
  }

  predicate IsLegacy(row: Listing, biz: Id, goodId: Id, key: string) {
    HasKey(row, biz, goodId, key) && row.isActive && row.productId.None?
  }

  ghost predicate HoldsKey(db: Db, id: Id, biz: Id, goodId: Id, key: string) {
    id in db.listings && HasKey(db.listings[id], biz, goodId, key)
  }

  /** The row found by the unique key. */
  ghost function HolderOf(db: Db, biz: Id, goodId: Id, key: string): Option<Id> {
    if id :| HoldsKey(db, id, biz, goodId, key) then Some(id) else None
  }

  datatype Plan = Refuse(error: Error) | Update(id: Id) | Merge(from: Id, into: Id) | Insert(id: Id)

  ghost function PlanOf(db: Db, biz: Id, req: SaveReq, key: string, newId: Id): Plan {
    var holder := HolderOf(db, biz, req.goodId, key);
    match req.listingId
    case Some(id) =>
      if id !in db.listings || db.listings[id].businessId != biz then Refuse(NotFound)
      else if db.listings[id].goodId != req.goodId then Refuse(ListingGoodMismatch)
      else if holder.Some? && holder.value != id then Merge(id, holder.value)
      else Update(id)
    case None =>
      if holder.Some? then Update(holder.value)
      else
        var legacy := HolderOf(db, biz, req.goodId, OwnKey(req));
        if legacy.Some? && IsLegacy(db.listings[legacy.value], biz, req.goodId, OwnKey(req)) then Update(legacy.value)
        else if newId in db.listings then Refuse(IdTaken)
        else Insert(newId)
  }

  function MoveLogs(logs: seq<PriceLog>, from: Id, into: Id): seq<PriceLog> {
    seq(|logs|, i requires 0 <= i < |logs| => if logs[i].listingId == from then logs[i].(listingId := into) else logs[i])
  }

  function MoveRefs(refs: map<Ref, Id>, from: Id, into: Id): map<Ref, Id> {
    map r | r in refs :: if refs[r] == from then into else refs[r]
  }

  /** One `updateMany` on one table. */
  function MoveSome(table: Ref -> bool, refs: map<Ref, Id>, from: Id, into: Id): map<Ref, Id> {
    map r | r in refs :: if table(r) && refs[r] == from then into else refs[r]
  }

  lemma ThreeMoves(refs: map<Ref, Id>, from: Id, into: Id)
    ensures MoveSome((r: Ref) => r.OfferRef?,
              MoveSome((r: Ref) => r.InquiryRef?, MoveSome((r: Ref) => r.FileRef?, refs, from, into), from, into), from, into)
            == MoveRefs(refs, from, into)
  {
  }

  function Retired(row: Listing, id: Id): Listing { row.(isActive := false, variantKey := ForkKey(id)) }

  function Converge(db: Db, from: Id, into: Id): Db
    requires from in db.listings
  {
    Db(db.listings[from := Retired(db.listings[from], from)], MoveLogs(db.logs, from, into), MoveRefs(db.refs, from, into))
  }

  function SaveRow(db: Db, id: Id, req: SaveReq, link: Option<Link>, now: int): Db
    requires id in db.listings
  {
    var row := Saved(db.listings[id], req, link, now);
    db.(listings := db.listings[id := row], logs := db.logs + LogOf(id, db.listings[id].priceMinor, row.priceMinor))
  }

  ghost predicate CanDo(db: Db, plan: Plan) {
    match plan
    case Refuse(_) => true
    case Update(id) => id in db.listings
    case Merge(from, into) => from in db.listings && into in db.listings && from != into
    case Insert(id) => id !in db.listings
  }

  function Perform(db: Db, plan: Plan, biz: Id, req: SaveReq, link: Option<Link>, now: int): (Db, Result<Id, Error>)
    requires CanDo(db, plan)
  {
    match plan
    case Refuse(e) => (db, Err(e))
    case Update(id) => (SaveRow(db, id, req, link, now), Ok(id))
    case Merge(from, into) => (SaveRow(Converge(db, from, into), into, req, link, now), Ok(into))
    case Insert(id) => (db.(listings := db.listings[id := Saved(Blank(biz, req.goodId), req, link, now)]), Ok(id))
  }

  lemma PlanCanBeDone(db: Db, biz: Id, req: SaveReq, key: string, newId: Id)
    ensures CanDo(db, PlanOf(db, biz, req, key, newId))
  {
  }

  ghost function Save(db: Db, biz: Id, cats: set<Id>, reference: Reference, req: SaveReq, newId: Id, now: int): (Db, Result<Id, Error>) {
    match Prepare(reference, cats, req)
    case Err(e) => (db, Err(e))
    case Ok(link) =>
      PlanCanBeDone(db, biz, req, IdentityKey(req, link), newId);
      Perform(db, PlanOf(db, biz, req, IdentityKey(req, link), newId), biz, req, link, now)
  }

  // ---- Many prices at once ----

  datatype BulkItem = BulkItem(listingId: Id, priceMinor: Patch<Option<real>>, pct: Patch<Option<real>>, stock: Patch<Option<real>>)

  /** A field that is neither absent nor null. */
  function Given(p: Patch<Option<real>>): Option<real> {
    match p
    case Keep => None
    case Set(v) => v
  }

  /** A price changed by a percentage, never below zero. */
  function Scaled(priceMinor: int, pct: real): int {
    var next := Round(priceMinor as real * (1.0 + pct / 100.0));
    if next < 0 then 0 else next
  }

  function NextPrice(row: Listing, item: BulkItem): Option<int> {
    if Given(item.priceMinor).Some? then Some(Round(Given(item.priceMinor).value))
    else if Given(item.pct).Some? && row.priceMinor.Some? then
      Some(Scaled(row.priceMinor.value, Given(item.pct).value))
    else row.priceMinor
  }

  predicate Changes(row: Listing, item: BulkItem) { NextPrice(row, item) != row.priceMinor }

  predicate RenewOnly(item: BulkItem) { item.priceMinor.Keep? && item.pct.Keep? && item.stock.Keep? }

  /** The update of one item, computed from the row read at the start, over the row stored now. */
  function BulkRow(current: Listing, row: Listing, item: BulkItem, now: int): Listing {
    current.(stock := if Given(item.stock).Some? then Some(Round(Given(item.stock).value)) else current.stock,
             priceMinor := if Changes(row, item) then NextPrice(row, item) else current.priceMinor,
             pricedAt := if Changes(row, item) || RenewOnly(item) then Some(now) else current.pricedAt,
             pricePerBaseMinor := if NextPrice(row, item).Some? then UnitOf(NextPrice(row, item), row.baseQty) else current.pricePerBaseMinor)
  }

  type Rows = map<Id, Listing>

  function BulkOne(db: Db, rows: Rows, item: BulkItem, now: int): Db {
    var id := item.listingId;
    if id !in rows || id !in db.listings then db
    else
      Db(db.listings[id := BulkRow(db.listings[id], rows[id], item, now)],
         db.logs + LogOf(id, rows[id].priceMinor, NextPrice(rows[id], item)), db.refs)
  }

  function BulkAll(db: Db, rows: Rows, items: seq<BulkItem>, now: int): (r: Db)
    ensures r.listings.Keys == db.listings.Keys
  {
    if items == [] then db else BulkOne(BulkAll(db, rows, items[..|items| - 1], now), rows, items[|items| - 1], now)
  }

  function OwnRows(db: Db, biz: Id): Rows { map id | id in db.listings && db.listings[id].businessId == biz :: db.listings[id] }

  function Bulk(db: Db, biz: Id, items: seq<BulkItem>, now: int): Db { BulkAll(db, OwnRows(db, biz), items, now) }

  function Foreign(rows: Rows, items: seq<BulkItem>): nat {
    if items == [] then 0 else Foreign(rows, items[..|items| - 1]) + if items[|items| - 1].listingId in rows then 0 else 1
  }

  /** Whether an item writes anything at all. */
  predicate Writes(row: Listing, item: BulkItem) {
    NextPrice(row, item).Some? || Given(item.stock).Some? || RenewOnly(item)
  }

  function Written(rows: Rows, items: seq<BulkItem>): nat {
    if items == [] then 0
    else
      var last := items[|items| - 1];
      Written(rows, items[..|items| - 1]) + if last.listingId in rows && Writes(rows[last.listingId], last) then 1 else 0
  }

  // ---- Keys ----

  predicate Ordinary(key: string) { !("fork:" <= key) }

  ghost predicate OneRowPerKey(db: Db) {
    forall a, b | a in db.listings && b in db.listings && a != b ::
      !HasKey(db.listings[b], db.listings[a].businessId, db.listings[a].goodId, db.listings[a].variantKey)
  }

  ghost predicate KeyForms(db: Db) {
    forall a | a in db.listings :: Ordinary(db.listings[a].variantKey) || db.listings[a].variantKey == ForkKey(a)
  }

  ghost predicate KeysOk(db: Db) { OneRowPerKey(db) && KeyForms(db) }

  lemma HolderIsTheOne(db: Db, id: Id, biz: Id, goodId: Id, key: string)
    requires OneRowPerKey(db) && HoldsKey(db, id, biz, goodId, key)
    ensures HolderOf(db, biz, goodId, key) == Some(id)
  {
  }

  class ListingsController {
    var listings: map<Id, Listing>
    var logs: seq<PriceLog>
    var refs: map<Ref, Id>

    function State(): Db
      reads this
    {
      Db(listings, logs, refs)
    }

    method FindFirst(wanted: Listing -> bool) returns (found: Option<Id>)
      ensures found.Some? ==> found.value in listings && wanted(listings[found.value])
      ensures found.None? ==> forall id | id in listings :: !wanted(listings[id])
    {
      var rest := listings.Keys;
      found := None;
      while rest != {}
        invariant rest <= listings.Keys
        invariant forall id | id in listings && id !in rest :: !wanted(listings[id])
        decreases |rest|
      {
        var id :| id in rest;
        if wanted(listings[id]) {
          return Some(id);
        }
        rest := rest - {id};
      }
    }

    method FindUnique(biz: Id, goodId: Id, key: string) returns (holder: Option<Id>)
      requires OneRowPerKey(State())
      ensures holder == HolderOf(State(), biz, goodId, key)
      ensures holder.Some? ==> HoldsKey(State(), holder.value, biz, goodId, key)
    {
      holder := FindFirst(row => HasKey(row, biz, goodId, key));
      if holder.Some? {
        HolderIsTheOne(State(), holder.value, biz, goodId, key);
      }
    }

    /** Moves everything that names the duplicate to the survivor and retires the duplicate. */
    method ConvergeFork(fromId: Id, intoId: Id)
      requires fromId in listings
      modifies this
      ensures State() == Converge(old(State()), fromId, intoId)
    {
      ThreeMoves(refs, fromId, intoId);
      refs := MoveSome((r: Ref) => r.FileRef?, refs, fromId, intoId);
      logs := MoveLogs(logs, fromId, intoId);
      refs := MoveSome((r: Ref) => r.InquiryRef?, refs, fromId, intoId);
      refs := MoveSome((r: Ref) => r.OfferRef?, refs, fromId, intoId);
      listings := listings[fromId := listings[fromId].(isActive := false, variantKey := "fork:" + fromId)];
    }

    /** The row an edit goes to, the holder of the identity key, and what to do with them. */
    method FindTarget(biz: Id, req: SaveReq, key: string, newId: Id) returns (plan: Plan, target: Option<Id>, holder: Option<Id>)
      requires OneRowPerKey(State())
      ensures plan == PlanOf(State(), biz, req, key, newId) && CanDo(State(), plan)
      ensures match plan
              case Refuse(_) => true
              case Update(id) => (target == Some(id) && (holder.None? || holder == target)) || (target.None? && holder == Some(id))
              case Merge(_, into) => target == holder == Some(into)
              case Insert(_) => target.None? && holder.None?
    {
      target := None;
      holder := FindUnique(biz, req.goodId, key);
      if req.listingId.Some? {
        var id := req.listingId.value;
        if id !in listings || listings[id].businessId != biz {
          plan := Refuse(NotFound);
        } else if listings[id].goodId != req.goodId {
          plan := Refuse(ListingGoodMismatch);
        } else if holder.Some? && holder.value != id {
          target, plan := holder, Merge(id, holder.value);
        } else {
          target, plan := req.listingId, Update(id);
        }
      } else if holder.Some? {
        plan := Update(holder.value);
      } else {
        var legacyKey := DeriveVariantKey(SanitizeAttrs(req.attrs));
        var legacy := FindFirst(row => IsLegacy(row, biz, req.goodId, legacyKey));
        if legacy.Some? {
          HolderIsTheOne(State(), legacy.value, biz, req.goodId, legacyKey);
          target, plan := legacy, Update(legacy.value);
        } else if newId in listings {
          plan := Refuse(IdTaken);
        } else {
          plan := Insert(newId);
        }
      }
    }

    method SaveListing(biz: Id, cats: set<Id>, reference: Reference, req: SaveReq, newId: Id, now: int) returns (res: Result<Id, Error>)
      requires OneRowPerKey(State())
      modifies this
      ensures (State(), res) == Save(old(State()), biz, cats, reference, req, newId, now)
    {
      var prepared := Prepare(reference, cats, req);
      if prepared.Err? {
        return Err(prepared.error);
      }
      var link := prepared.value;
      var baseQty := if req.baseQty.Set? then Positive(req.baseQty.value) else None;
      var plan, targetId, holderId := FindTarget(biz, req, IdentityKey(req, link), newId);
      if plan.Refuse? {
        return Err(plan.error);
      }
      var target := if targetId.Some? then Some(listings[targetId.value]) else None;
      var holder := if holderId.Some? then Some(listings[holderId.value]) else None;
      if plan.Merge? {
        ConvergeFork(plan.from, plan.into);
      }
      var effective := if req.baseQty.Set? then baseQty
                       else if target.Some? && target.value.baseQty.Some? then target.value.baseQty
                       else if holder.Some? then holder.value.baseQty
                       else None;
      var prevMinor := if target.Some? then target.value.priceMinor else if holder.Some? then holder.value.priceMinor else None;
      var id := match plan { case Update(u) => u case Merge(_, into) => into case Insert(n) => n };
      WriteListing(biz, id, req, link, effective, prevMinor, now);
      res := Ok(id);
    }

    /** The columns of a save, put together from what was looked up. */
    method BuildRow(base: Listing, req: SaveReq, link: Option<Link>, effective: Option<real>, prevMinor: Option<int>, now: int) returns (row: Listing)
      requires effective == if req.baseQty.Set? then Positive(req.baseQty.value) else base.baseQty
      requires prevMinor == base.priceMinor
      ensures row == Saved(base, req, link, now)
    {
      var nextMinor := NextMinor(req);
      row := base.(variantKey := IdentityKey(req, link),
                   productId := if link.Some? then Some(link.value.productId) else None,
                   priceMinor := nextMinor,
                   stock := if nextMinor.Some? then req.sell.value.stock else None,
                   isActive := true);
      if req.baseQty.Set? {
        row := row.(baseQty := Positive(req.baseQty.value));
      }
      if req.category.Set? {
        row := row.(catalogCategoryId := CategoryOf(req));
      }
      row := row.(pricePerBaseMinor := if nextMinor.Some? then Some(UnitPrice(nextMinor.value, effective)) else None);
      if nextMinor.Some? && nextMinor != prevMinor {
        row := row.(pricedAt := Some(now));
      }
    }

    method WriteListing(biz: Id, id: Id, req: SaveReq, link: Option<Link>, effective: Option<real>, prevMinor: Option<int>, now: int)
      requires effective == if req.baseQty.Set? then Positive(req.baseQty.value) else if id in listings then listings[id].baseQty else None
      requires prevMinor == if id in listings then listings[id].priceMinor else None
      modifies this
      ensures State() == if id in old(listings) then SaveRow(old(State()), id, req, link, now)
                         else old(State()).(listings := old(listings)[id := Saved(Blank(biz, req.goodId), req, link, now)])
    {
      var row := BuildRow(if id in listings then listings[id] else Blank(biz, req.goodId), req, link, effective, prevMinor, now);
      listings := listings[id := row];
      if prevMinor.Some? && row.priceMinor.Some? && prevMinor != row.priceMinor {
        logs := logs + [PriceLog(id, prevMinor.value, row.priceMinor.value)];
      }
      assert logs == old(logs) + LogOf(id, prevMinor, row.priceMinor);
    }

    /** One item: an absolute price wins over a percentage, and only what it sets is written. */
    method PriceStockOne(row: Listing, item: BulkItem, now: int) returns (touched: bool)
      requires item.listingId in listings
      modifies this
      ensures State() == Db(old(listings)[item.listingId := BulkRow(old(listings)[item.listingId], row, item, now)],
                            old(logs) + LogOf(item.listingId, row.priceMinor, NextPrice(row, item)), old(refs))
      ensures touched == Writes(row, item)
    {
      var nextPrice := row.priceMinor;
      if Given(item.priceMinor).Some? {
        nextPrice := Some(Round(Given(item.priceMinor).value));
      } else if Given(item.pct).Some? && row.priceMinor.Some? {
        nextPrice := Some(Scaled(row.priceMinor.value, Given(item.pct).value));
      }
      var priceChanged := nextPrice != row.priceMinor;
      var renewOnly := item.priceMinor.Keep? && item.pct.Keep? && item.stock.Keep?;
      var data := listings[item.listingId];
      touched := false;
      if Given(item.stock).Some? {
        data, touched := data.(stock := Some(Round(Given(item.stock).value))), true;
      }
      if priceChanged {
        data, touched := data.(priceMinor := nextPrice, pricedAt := Some(now)), true;
      } else if renewOnly {
        data, touched := data.(pricedAt := Some(now)), true;
      }
      if nextPrice.Some? {
        data, touched := data.(pricePerBaseMinor := Some(UnitPrice(nextPrice.value, row.baseQty))), true;
      }
      if touched {
        if priceChanged && row.priceMinor.Some? && nextPrice.Some? {
          logs := logs + [PriceLog(item.listingId, row.priceMinor.value, nextPrice.value)];
        }
        listings := listings[item.listingId := data];
      }
      assert nextPrice == NextPrice(row, item);
      assert listings == old(listings)[item.listingId := BulkRow(old(listings)[item.listingId], row, item, now)];
      assert logs == old(logs) + LogOf(item.listingId, row.priceMinor, nextPrice);
    }

    method BulkPriceStock(biz: Id, items: seq<BulkItem>, now: int) returns (updated: nat, failed: nat)
      modifies this
      ensures State() == Bulk(old(State()), biz, items, now)
      ensures failed == Foreign(OwnRows(old(State()), biz), items)
      ensures updated == Written(OwnRows(old(State()), biz), items)
    {
      var rowMap := OwnRows(State(), biz);
      updated, failed := 0, 0;
      for k := 0 to |items|
        invariant State() == BulkAll(old(State()), rowMap, items[..k], now)
        invariant failed == Foreign(rowMap, items[..k]) && updated == Written(rowMap, items[..k])
      {
        var item := items[k];
        assert items[..k + 1][..k] == items[..k];
        if item.listingId !in rowMap {
          failed := failed + 1;
          continue;
        }
        var row := rowMap[item.listingId];
        var touched := PriceStockOne(row, item, now);
        if touched {
          updated := updated + 1;
        }
      }
      assert items[..|items|] == items;
    }
  }
}
