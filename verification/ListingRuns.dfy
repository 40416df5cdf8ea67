/** What every run of listing saves and bulk price changes keeps. */
module ListingRuns {
  import opened Wrappers
  import opened JsNumber
  import opened Listings

  datatype Op =
    | SaveOp(biz: Id, cats: set<Id>, reference: Reference, req: SaveReq, newId: Id, now: int)
    | BulkOp(biz: Id, items: seq<BulkItem>, now: int)

  ghost function Apply(db: Db, op: Op): Db {
    match op
    case SaveOp(biz, cats, reference, req, newId, now) => Save(db, biz, cats, reference, req, newId, now).0
    case BulkOp(biz, items, now) => Bulk(db, biz, items, now)
  }

  predicate DistinctIds(items: seq<BulkItem>) {
    forall i, j | 0 <= i < j < |items| :: items[i].listingId != items[j].listingId
  }

  /** No identity key looks like a retired one, and no bulk request names a listing twice. */
  predicate Proper(op: Op) {
    match op
    case SaveOp(_, cats, reference, req, _, _) =>
      Prepare(reference, cats, req).Ok? ==> Ordinary(IdentityKey(req, Prepare(reference, cats, req).value))
    case BulkOp(_, items, _) => DistinctIds(items)
  }

  ghost function Run(db: Db, ops: seq<Op>): Db
    decreases |ops|
  {
    if ops == [] then db else Run(Apply(db, ops[0]), ops[1..])
  }

  /** What a valid, accepted save does. */
  ghost function Step(db: Db, op: Op): Option<(Plan, Option<Link>)> {
    match op
    case BulkOp(_, _, _) => None
    case SaveOp(biz, cats, reference, req, newId, now) =>
      match Prepare(reference, cats, req)
      case Err(_) => None
      case Ok(link) => Some((PlanOf(db, biz, req, IdentityKey(req, link), newId), link))
  }

  lemma ApplySave(db: Db, op: Op)
    requires op.SaveOp?
    ensures Step(db, op).None? ==> Apply(db, op) == db
    ensures Step(db, op).Some? ==>
              && CanDo(db, Step(db, op).value.0)
              && Apply(db, op) == Perform(db, Step(db, op).value.0, op.biz, op.req, Step(db, op).value.1, op.now).0
  {
    if Step(db, op).Some? {
      PlanCanBeDone(db, op.biz, op.req, IdentityKey(op.req, Step(db, op).value.1), op.newId);
    }
  }

  // ---- One row for each key ----

  lemma ForkKeys(a: Id, b: Id)
    ensures !Ordinary(ForkKey(a))
    ensures ForkKey(a) == ForkKey(b) ==> a == b
  {
    assert "fork:" <= ForkKey(a);
    if ForkKey(a) == ForkKey(b) {
      assert a == ForkKey(a)[5..] && b == ForkKey(b)[5..];
    }
  }

  /** A row may take any key no other row holds. */
  lemma SetRowKeepsKeys(db: Db, id: Id, row: Listing, db': Db)
    requires KeysOk(db) && db'.listings == db.listings[id := row]
    requires Ordinary(row.variantKey) || row.variantKey == ForkKey(id)
    requires forall b | b in db.listings && b != id :: !HasKey(db.listings[b], row.businessId, row.goodId, row.variantKey)
    ensures KeysOk(db')
  {
  }

  lemma ConvergeKeepsKeys(db: Db, from: Id, into: Id)
    requires KeysOk(db) && from in db.listings
    ensures KeysOk(Converge(db, from, into))
  {
    var row := Retired(db.listings[from], from);
    forall b | b in db.listings && b != from ensures !HasKey(db.listings[b], row.businessId, row.goodId, row.variantKey) {
      ForkKeys(from, b);
    }
    SetRowKeepsKeys(db, from, row, Converge(db, from, into));
  }

  lemma HolderSpec(db: Db, biz: Id, goodId: Id, key: string)
    ensures var h := HolderOf(db, biz, goodId, key);
            if h.Some? then HoldsKey(db, h.value, biz, goodId, key)
            else forall id :: !HoldsKey(db, id, biz, goodId, key)
  {
  }

  /** The rows a plan names belong to the saver and the good. */
  lemma PlanOwners(db: Db, biz: Id, req: SaveReq, key: string, newId: Id)
    ensures match PlanOf(db, biz, req, key, newId)
            case Refuse(_) => true
            case Update(id) => id in db.listings && db.listings[id].businessId == biz && db.listings[id].goodId == req.goodId
            case Merge(from, into) =>
              && from in db.listings && db.listings[from].businessId == biz && db.listings[from].goodId == req.goodId
              && into in db.listings && db.listings[into].businessId == biz && db.listings[into].goodId == req.goodId
            case Insert(_) => true
  {
  }

  /** With unique keys, nobody else holds the key of the row that is written. */
  lemma PlanRows(db: Db, biz: Id, req: SaveReq, key: string, newId: Id)
    requires OneRowPerKey(db)
    ensures match PlanOf(db, biz, req, key, newId)
            case Refuse(_) => true
            case Update(id) =>
              && id in db.listings && db.listings[id].businessId == biz && db.listings[id].goodId == req.goodId
              && forall b | b in db.listings && b != id :: !HasKey(db.listings[b], biz, req.goodId, key)
            case Merge(from, into) =>
              && from in db.listings && db.listings[from].businessId == biz && db.listings[from].goodId == req.goodId
              && from != into && HoldsKey(db, into, biz, req.goodId, key)
            case Insert(id) => id !in db.listings && forall b | b in db.listings :: !HasKey(db.listings[b], biz, req.goodId, key)
  {
    HolderSpec(db, biz, req.goodId, key);
    HolderSpec(db, biz, req.goodId, OwnKey(req));
    forall b | b in db.listings && HasKey(db.listings[b], biz, req.goodId, key)
      ensures HolderOf(db, biz, req.goodId, key) == Some(b)
    {
      HolderIsTheOne(db, b, biz, req.goodId, key);
    }
  }

  lemma SaveKeepsKeys(db: Db, op: Op)
    requires op.SaveOp? && KeysOk(db) && Proper(op)
    ensures KeysOk(Apply(db, op))
  {
    ApplySave(db, op);
    if Step(db, op).Some? {
      var (plan, link) := Step(db, op).value;
      var key := IdentityKey(op.req, link);
      PlanRows(db, op.biz, op.req, key, op.newId);
      match plan {
        case Refuse(_) =>
        case Update(id) =>
          SetRowKeepsKeys(db, id, Saved(db.listings[id], op.req, link, op.now), Apply(db, op));
        case Insert(id) =>
          SetRowKeepsKeys(db, id, Saved(Blank(op.biz, op.req.goodId), op.req, link, op.now), Apply(db, op));
        case Merge(from, into) =>
          ConvergeKeepsKeys(db, from, into);
          var merged := Converge(db, from, into);
          HoldersRivals(merged, into, op.biz, op.req.goodId, key);
          SetRowKeepsKeys(merged, into, Saved(merged.listings[into], op.req, link, op.now), Apply(db, op));
      }
    }
  }

  lemma HoldersRivals(db: Db, id: Id, biz: Id, goodId: Id, key: string)
    requires OneRowPerKey(db) && HoldsKey(db, id, biz, goodId, key)
    ensures forall b | b in db.listings && b != id :: !HasKey(db.listings[b], biz, goodId, key)
  {
  }

  ghost predicate OneHolder(db: Db, id: Id, biz: Id, goodId: Id, key: string) {
    HoldsKey(db, id, biz, goodId, key)
    && forall b | b in db.listings && b != id :: !HasKey(db.listings[b], biz, goodId, key)
  }

  /** The row an accepted save answers with is the one active row of the seller, the good and the key, at the new price. */
  lemma SaveLands(db: Db, op: Op)
    requires op.SaveOp? && KeysOk(db) && Proper(op)
    requires Save(db, op.biz, op.cats, op.reference, op.req, op.newId, op.now).1.Ok?
    ensures var (db', res) := Save(db, op.biz, op.cats, op.reference, op.req, op.newId, op.now);
            var key := IdentityKey(op.req, Prepare(op.reference, op.cats, op.req).value);
            && Prepare(op.reference, op.cats, op.req).Ok?
            && OneHolder(db', res.value, op.biz, op.req.goodId, key)
            && db'.listings[res.value].isActive && db'.listings[res.value].priceMinor == NextMinor(op.req)
            && db'.listings.Keys == db.listings.Keys + {res.value}
  {
    ApplySave(db, op);
    SaveKeepsKeys(db, op);
    var (plan, link) := Step(db, op).value;
    PlanOwners(db, op.biz, op.req, IdentityKey(op.req, link), op.newId);
    HoldersRivals(Apply(db, op), Save(db, op.biz, op.cats, op.reference, op.req, op.newId, op.now).1.value, op.biz, op.req.goodId, IdentityKey(op.req, link));
  }

  /** Saving the same combination again, without naming a row, updates the row the first save wrote. */
  lemma SaveAgainUpdates(db: Db, first: Op, second: Op)
    requires first.SaveOp? && second.SaveOp? && KeysOk(db) && Proper(first)
    requires Save(db, first.biz, first.cats, first.reference, first.req, first.newId, first.now).1.Ok?
    requires second.biz == first.biz && second.req.goodId == first.req.goodId && second.req.listingId == None
    requires Prepare(second.reference, second.cats, second.req).Ok?
    requires IdentityKey(second.req, Prepare(second.reference, second.cats, second.req).value)
             == IdentityKey(first.req, Prepare(first.reference, first.cats, first.req).value)
    ensures var (db', res) := Save(db, first.biz, first.cats, first.reference, first.req, first.newId, first.now);
            var (db'', again) := Save(db', second.biz, second.cats, second.reference, second.req, second.newId, second.now);
            again == res && db''.listings.Keys == db'.listings.Keys
  {
    SaveLands(db, first);
    SaveKeepsKeys(db, first);
    var (db', res) := Save(db, first.biz, first.cats, first.reference, first.req, first.newId, first.now);
    HolderIsTheOne(db', res.value, first.biz, first.req.goodId, IdentityKey(first.req, Prepare(first.reference, first.cats, first.req).value));
  }

  /** The columns neither a price change nor a renewal touches. */
  predicate SameIdentity(a: Listing, b: Listing) {
    && a.businessId == b.businessId && a.goodId == b.goodId && a.variantKey == b.variantKey
    && a.catalogCategoryId == b.catalogCategoryId && a.baseQty == b.baseQty
  }

  lemma {:induction false} BulkKeepsIdentity(db: Db, rows: Rows, items: seq<BulkItem>, now: int, id: Id)
    requires id in db.listings
    ensures SameIdentity(BulkAll(db, rows, items, now).listings[id], db.listings[id])
    ensures BulkAll(db, rows, items, now).refs == db.refs
  {
    if items != [] {
      BulkKeepsIdentity(db, rows, items[..|items| - 1], now, id);
    }
  }

  lemma BulkKeepsKeys(db: Db, biz: Id, items: seq<BulkItem>, now: int)
    requires KeysOk(db)
    ensures KeysOk(Bulk(db, biz, items, now))
  {
    var db' := Bulk(db, biz, items, now);
    forall id | id in db.listings ensures SameIdentity(db'.listings[id], db.listings[id]) {
      BulkKeepsIdentity(db, OwnRows(db, biz), items, now, id);
    }
  }

  // ---- The unit price ----

  predicate UnitOk(row: Listing) { row.pricePerBaseMinor == UnitOf(row.priceMinor, row.baseQty) }

  ghost predicate AllUnit(db: Db) { forall id | id in db.listings :: UnitOk(db.listings[id]) }

  /** The price the row ends with. */
  function FinalPrice(row: Listing, items: seq<BulkItem>, id: Id): Option<int> {
    if items == [] then row.priceMinor
    else
      var last := items[|items| - 1];
      if last.listingId == id && Changes(row, last) then NextPrice(row, last) else FinalPrice(row, items[..|items| - 1], id)
  }

  /** The last price the row's unit price is computed from. */
  function LastPriced(row: Listing, items: seq<BulkItem>, id: Id): Option<int> {
    if items == [] then row.priceMinor
    else
      var last := items[|items| - 1];
      if last.listingId == id && NextPrice(row, last).Some? then NextPrice(row, last) else LastPriced(row, items[..|items| - 1], id)
  }

  predicate NoneChanges(row: Listing, items: seq<BulkItem>, id: Id) {
    forall i | 0 <= i < |items| && items[i].listingId == id :: !Changes(row, items[i])
  }

  /** No item that leaves the row's price alone follows one that changes it. */
  predicate ChangesComeLast(row: Listing, items: seq<BulkItem>, id: Id) {
    if items == [] then true
    else
      var init, last := items[..|items| - 1], items[|items| - 1];
      if last.listingId == id && NextPrice(row, last).Some? then Changes(row, last) || NoneChanges(row, init, id)
      else ChangesComeLast(row, init, id)
  }

  lemma {:induction false} BulkPrices(db: Db, rows: Rows, items: seq<BulkItem>, now: int, id: Id)
    requires id in rows && id in db.listings && db.listings[id] == rows[id] && UnitOk(rows[id])
    ensures var row := BulkAll(db, rows, items, now).listings[id];
            && row.priceMinor == FinalPrice(rows[id], items, id)
            && row.pricePerBaseMinor == UnitOf(LastPriced(rows[id], items, id), rows[id].baseQty)
            && row.baseQty == rows[id].baseQty
  {
    if items != [] {
      BulkPrices(db, rows, items[..|items| - 1], now, id);
    }
  }

  lemma {:induction false} NoneChangesFinal(row: Listing, items: seq<BulkItem>, id: Id)
    requires NoneChanges(row, items, id)
    ensures FinalPrice(row, items, id) == row.priceMinor == LastPriced(row, items, id)
  {
    if items != [] {
      var init := items[..|items| - 1];
      assert forall i | 0 <= i < |init| :: init[i] == items[i];
      NoneChangesFinal(row, init, id);
    }
  }

  lemma {:induction false} LastPricedIs(row: Listing, items: seq<BulkItem>, id: Id)
    ensures LastPriced(row, items, id) == if ChangesComeLast(row, items, id) then FinalPrice(row, items, id) else row.priceMinor
  {
    if items != [] {
      var init, last := items[..|items| - 1], items[|items| - 1];
      if last.listingId == id && NextPrice(row, last).Some? {
        if !Changes(row, last) && NoneChanges(row, init, id) {
          NoneChangesFinal(row, init, id);
        }
      } else {
        LastPricedIs(row, init, id);
        assert last.listingId == id && Changes(row, last) ==> NextPrice(row, last).Some?;
      }
    }
  }

  /**
   * A bulk request leaves a listing's unit price right exactly when no item that keeps its price
   * follows one that changes it, or the old and new prices happen to share a unit price: each item
   * is computed from the row as it was before the request.
   */
  lemma BulkUnitIff(db: Db, biz: Id, items: seq<BulkItem>, now: int, id: Id)
    requires id in OwnRows(db, biz) && UnitOk(db.listings[id])
    ensures var row := db.listings[id];
            UnitOk(Bulk(db, biz, items, now).listings[id])
            <==> ChangesComeLast(row, items, id)
                 || UnitOf(row.priceMinor, row.baseQty) == UnitOf(FinalPrice(row, items, id), row.baseQty)
  {
    BulkPrices(db, OwnRows(db, biz), items, now, id);
    LastPricedIs(db.listings[id], items, id);
  }

  lemma {:induction false} DistinctComeLast(row: Listing, items: seq<BulkItem>, id: Id)
    requires DistinctIds(items)
    ensures ChangesComeLast(row, items, id)
  {
    if items != [] {
      DistinctComeLast(row, items[..|items| - 1], id);
    }
  }

  lemma {:induction false} BulkSkips(db: Db, rows: Rows, items: seq<BulkItem>, now: int, id: Id)
    requires id in db.listings && (id !in rows || forall i | 0 <= i < |items| :: items[i].listingId != id)
    ensures BulkAll(db, rows, items, now).listings[id] == db.listings[id]
  {
    if items != [] {
      BulkSkips(db, rows, items[..|items| - 1], now, id);
    }
  }

  lemma BulkKeepsUnit(db: Db, biz: Id, items: seq<BulkItem>, now: int)
    requires AllUnit(db) && DistinctIds(items)
    ensures AllUnit(Bulk(db, biz, items, now))
  {
    forall id | id in db.listings ensures UnitOk(Bulk(db, biz, items, now).listings[id]) {
      if id in OwnRows(db, biz) {
        DistinctComeLast(db.listings[id], items, id);
        BulkUnitIff(db, biz, items, now, id);
      } else {
        BulkSkips(db, OwnRows(db, biz), items, now, id);
      }
    }
  }

  /** Naming a listing twice, first with a new price and then with a new stock, leaves its old unit price behind. */
  lemma RepeatedIdBreaksUnitPrice(db: Db, id: Id, biz: Id)
    requires id in OwnRows(db, biz) && db.listings[id].priceMinor == Some(50) == db.listings[id].pricePerBaseMinor
    requires db.listings[id].baseQty == None
    ensures var items := [BulkItem(id, Set(Some(100.0)), Keep, Keep), BulkItem(id, Keep, Keep, Set(Some(1.0)))];
            UnitOk(db.listings[id]) && !UnitOk(Bulk(db, biz, items, 0).listings[id])
  {
    var row := db.listings[id];
    var first, second := BulkItem(id, Set(Some(100.0)), Keep, Keep), BulkItem(id, Keep, Keep, Set(Some(1.0)));
    var items := [first, second];
    assert items[..1] == [first] && [first][..0] == [];
    RoundOfInt(100);
    assert Changes(row, first) && !Changes(row, second);
    assert FinalPrice(row, [first], id) == Some(100);
    assert FinalPrice(row, items, id) == Some(100);
    assert !NoneChanges(row, [first], id) by {
      assert [first][0] == first;
    }
    assert !ChangesComeLast(row, items, id);
    BulkUnitIff(db, biz, items, 0, id);
  }

  lemma SaveKeepsUnit(db: Db, op: Op)
    requires op.SaveOp? && AllUnit(db)
    ensures AllUnit(Apply(db, op))
  {
    ApplySave(db, op);
  }

  // ---- References ----

  predicate RefsOk(db: Db) {
    && (forall i | 0 <= i < |db.logs| :: db.logs[i].listingId in db.listings)
    && (forall r | r in db.refs :: db.refs[r] in db.listings)
  }

  function RefsTo(db: Db, id: Id): set<Ref> { set r | r in db.refs && db.refs[r] == id }

  /** The places of a listing's entries in the price log. */
  function LogsAt(db: Db, id: Id): set<nat> { set i: nat | i < |db.logs| && db.logs[i].listingId == id }

  predicate SameChange(a: PriceLog, b: PriceLog) { a.oldMinor == b.oldMinor && a.newMinor == b.newMinor }

  /** Merging loses no history: the survivor has both rows' references and log entries, and nobody else's change. */
  lemma ConvergeConserves(db: Db, from: Id, into: Id, x: Id)
    requires from in db.listings && from != into
    ensures var merged := Converge(db, from, into);
            && RefsTo(db, from) !! RefsTo(db, into) && LogsAt(db, from) !! LogsAt(db, into)
            && RefsTo(merged, from) == {} && LogsAt(merged, from) == {}
            && RefsTo(merged, into) == RefsTo(db, from) + RefsTo(db, into)
            && LogsAt(merged, into) == LogsAt(db, from) + LogsAt(db, into)
            && (x != from && x != into ==> RefsTo(merged, x) == RefsTo(db, x) && LogsAt(merged, x) == LogsAt(db, x))
            && |merged.logs| == |db.logs| && forall i | 0 <= i < |db.logs| :: SameChange(merged.logs[i], db.logs[i])
  {
  }

  predicate SameOwner(a: Listing, b: Listing) { a.businessId == b.businessId && a.goodId == b.goodId }

  /**
   * No listing disappears or changes hands, and neither does a row of another table: what it names
   * later is a listing of the same seller and the same good.
   */
  ghost predicate Follows(db: Db, db': Db)
    requires RefsOk(db) && RefsOk(db')
  {
    && (forall id | id in db.listings :: id in db'.listings && SameOwner(db'.listings[id], db.listings[id]))
    && db'.refs.Keys == db.refs.Keys
    && forall r | r in db.refs :: SameOwner(db'.listings[db'.refs[r]], db.listings[db.refs[r]])
  }

  lemma ConvergeFollows(db: Db, from: Id, into: Id)
    requires RefsOk(db) && from in db.listings && into in db.listings
    requires SameOwner(db.listings[from], db.listings[into])
    ensures RefsOk(Converge(db, from, into)) && Follows(db, Converge(db, from, into))
  {
  }

  /** Writing one row for the same seller and good, and logging its price. */
  lemma WriteFollows(db: Db, db': Db, id: Id, row: Listing, log: seq<PriceLog>)
    requires RefsOk(db) && db' == Db(db.listings[id := row], db.logs + log, db.refs)
    requires id in db.listings ==> SameOwner(row, db.listings[id])
    requires forall i | 0 <= i < |log| :: log[i].listingId == id
    ensures RefsOk(db') && Follows(db, db')
  {
  }

  lemma FollowsTransitive(a: Db, b: Db, c: Db)
    requires RefsOk(a) && RefsOk(b) && RefsOk(c) && Follows(a, b) && Follows(b, c)
    ensures Follows(a, c)
  {
    forall id | id in a.listings ensures id in c.listings && SameOwner(c.listings[id], a.listings[id]) {
      assert id in b.listings && SameOwner(b.listings[id], a.listings[id]);
    }
    forall r | r in a.refs ensures r in c.refs && SameOwner(c.listings[c.refs[r]], a.listings[a.refs[r]]) {
      assert r in b.refs.Keys && SameOwner(b.listings[b.refs[r]], a.listings[a.refs[r]]);
    }
  }

  lemma MergeFollows(db: Db, from: Id, into: Id, req: SaveReq, link: Option<Link>, now: int)
    requires RefsOk(db) && from in db.listings && into in db.listings && from != into
    requires SameOwner(db.listings[from], db.listings[into])
    ensures var db' := SaveRow(Converge(db, from, into), into, req, link, now);
            RefsOk(db') && Follows(db, db')
  {
    ConvergeFollows(db, from, into);
    var merged := Converge(db, from, into);
    var row := Saved(merged.listings[into], req, link, now);
    var db' := SaveRow(merged, into, req, link, now);
    WriteFollows(merged, db', into, row, LogOf(into, merged.listings[into].priceMinor, row.priceMinor));
    FollowsTransitive(db, merged, db');
  }

  lemma SaveFollows(db: Db, op: Op)
    requires op.SaveOp? && RefsOk(db) && OneRowPerKey(db)
    ensures RefsOk(Apply(db, op)) && Follows(db, Apply(db, op))
  {
    ApplySave(db, op);
    if Step(db, op).Some? {
      var (plan, link) := Step(db, op).value;
      PlanRows(db, op.biz, op.req, IdentityKey(op.req, link), op.newId);
      match plan {
        case Refuse(_) =>
        case Update(id) =>
          var row := Saved(db.listings[id], op.req, link, op.now);
          WriteFollows(db, Apply(db, op), id, row, LogOf(id, db.listings[id].priceMinor, row.priceMinor));
        case Insert(id) =>
          assert db.logs + [] == db.logs;
          WriteFollows(db, Apply(db, op), id, Saved(Blank(op.biz, op.req.goodId), op.req, link, op.now), []);
        case Merge(from, into) =>
          MergeFollows(db, from, into, op.req, link, op.now);
      }
    }
  }

  lemma {:induction false} BulkFollows(db: Db, rows: Rows, items: seq<BulkItem>, now: int)
    requires RefsOk(db)
    ensures RefsOk(BulkAll(db, rows, items, now)) && Follows(db, BulkAll(db, rows, items, now))
  {
    if items != [] {
      var init, last := items[..|items| - 1], items[|items| - 1];
      BulkFollows(db, rows, init, now);
      var before := BulkAll(db, rows, init, now);
      var id := last.listingId;
      if id in rows && id in before.listings {
        WriteFollows(before, BulkAll(db, rows, items, now), id, BulkRow(before.listings[id], rows[id], last, now),
                     LogOf(id, rows[id].priceMinor, NextPrice(rows[id], last)));
        FollowsTransitive(db, before, BulkAll(db, rows, items, now));
      }
    }
  }

  /** After a merging save nothing names the retired row, and the survivor has what both had. */
  lemma MergeConserves(db: Db, op: Op)
    requires op.SaveOp? && RefsOk(db) && OneRowPerKey(db) && Step(db, op).Some? && Step(db, op).value.0.Merge?
    ensures var Merge(from, into) := Step(db, op).value.0;
            var db' := Apply(db, op);
            && from in db'.listings && !db'.listings[from].isActive && into in db'.listings && db'.listings[into].isActive
            && RefsTo(db', from) == {} && LogsAt(db', from) == {}
            && RefsTo(db', into) == RefsTo(db, from) + RefsTo(db, into)
            && LogsAt(db', into) >= LogsAt(db, from) + LogsAt(db, into)
            && forall x | x != from && x != into :: RefsTo(db', x) == RefsTo(db, x) && LogsAt(db', x) == LogsAt(db, x)
  {
    ApplySave(db, op);
    var (plan, link) := Step(db, op).value;
    PlanRows(db, op.biz, op.req, IdentityKey(op.req, link), op.newId);
    var Merge(from, into) := plan;
    var merged := Converge(db, from, into);
    var log := LogOf(into, merged.listings[into].priceMinor, Saved(merged.listings[into], op.req, link, op.now).priceMinor);
    forall x ensures RefsTo(Apply(db, op), x) == RefsTo(merged, x)
      ensures if x == into then LogsAt(Apply(db, op), x) >= LogsAt(merged, x) else LogsAt(Apply(db, op), x) == LogsAt(merged, x)
    {
      LogsAfter(merged, Apply(db, op), log, into, x);
    }
    forall x ensures x != from && x != into ==> RefsTo(merged, x) == RefsTo(db, x) && LogsAt(merged, x) == LogsAt(db, x) {
      ConvergeConserves(db, from, into, x);
    }
    ConvergeConserves(db, from, into, from);
  }

  lemma LogsAfter(db: Db, db': Db, log: seq<PriceLog>, id: Id, x: Id)
    requires db'.logs == db.logs + log && db'.refs == db.refs
    requires forall i | 0 <= i < |log| :: log[i].listingId == id
    ensures RefsTo(db', x) == RefsTo(db, x)
    ensures if x == id then LogsAt(db', x) >= LogsAt(db, x) else LogsAt(db', x) == LogsAt(db, x)
  {
  }

  // ---- The price log ----

  function LogsOf(logs: seq<PriceLog>, id: Id): seq<PriceLog> {
    if logs == [] then []
    else LogsOf(logs[..|logs| - 1], id) + if logs[|logs| - 1].listingId == id then [logs[|logs| - 1]] else []
  }

  lemma LogsOfOne(logs: seq<PriceLog>, id: Id, prev: Option<int>, next: Option<int>, x: Id)
    ensures LogsOf(logs + LogOf(id, prev, next), x) == LogsOf(logs, x) + if id == x then LogOf(id, prev, next) else []
  {
    var log := LogOf(id, prev, next);
    if log == [] {
      assert logs + log == logs;
    } else {
      assert (logs + log)[..|logs|] == logs;
    }
  }

  /** A row that is not part of a merge gets one entry if its price changes from one number to another. */
  predicate Logged(db: Db, db': Db, id: Id)
    requires id in db.listings && id in db'.listings
  {
    LogsOf(db'.logs, id) == LogsOf(db.logs, id) + LogOf(id, db.listings[id].priceMinor, db'.listings[id].priceMinor)
  }

  lemma OneLogs(before: Db, rows: Rows, item: BulkItem, now: int, id: Id)
    requires id in before.listings
    requires item.listingId == id && id in rows ==> rows[id] == before.listings[id]
    ensures Logged(before, BulkOne(before, rows, item, now), id)
  {
    assert LogsOf(before.logs, id) + [] == LogsOf(before.logs, id);
    if item.listingId in rows && item.listingId in before.listings {
      var row := rows[item.listingId];
      LogsOfOne(before.logs, item.listingId, row.priceMinor, NextPrice(row, item), id);
    }
  }

  lemma {:induction false} BulkLogs(db: Db, rows: Rows, items: seq<BulkItem>, now: int, id: Id)
    requires id in db.listings && (id in rows ==> rows[id] == db.listings[id]) && DistinctIds(items)
    ensures Logged(db, BulkAll(db, rows, items, now), id)
  {
    if items == [] {
      assert LogsOf(db.logs, id) + [] == LogsOf(db.logs, id);
    } else {
      var init, last := items[..|items| - 1], items[|items| - 1];
      var before := BulkAll(db, rows, init, now);
      BulkLogs(db, rows, init, now, id);
      if last.listingId == id {
        assert forall i | 0 <= i < |init| :: init[i].listingId == items[i].listingId != id;
        BulkSkips(db, rows, init, now, id);
        assert LogOf(id, db.listings[id].priceMinor, before.listings[id].priceMinor) == [];
      }
      OneLogs(before, rows, last, now, id);
      LoggedTwice(db, before, BulkAll(db, rows, items, now), id);
    }
  }

  /** Two logged changes of which at most one is a change. */
  lemma LoggedTwice(a: Db, b: Db, c: Db, id: Id)
    requires id in a.listings && id in b.listings && id in c.listings && Logged(a, b, id) && Logged(b, c, id)
    requires a.listings[id].priceMinor == b.listings[id].priceMinor || b.listings[id].priceMinor == c.listings[id].priceMinor
    ensures Logged(a, c, id)
  {
  }

  predicate InMerge(plan: Plan, id: Id) { plan.Merge? && (plan.from == id || plan.into == id) }

  ghost predicate Merged(db: Db, op: Op, id: Id) { Step(db, op).Some? && InMerge(Step(db, op).value.0, id) }

  lemma {:induction false} MovedLogs(logs: seq<PriceLog>, from: Id, into: Id, id: Id)
    requires id != from && id != into
    ensures LogsOf(MoveLogs(logs, from, into), id) == LogsOf(logs, id)
  {
    if logs != [] {
      MovedLogs(logs[..|logs| - 1], from, into, id);
      assert MoveLogs(logs, from, into)[..|logs| - 1] == MoveLogs(logs[..|logs| - 1], from, into);
    }
  }

  lemma SaveRowLogs(db: Db, u: Id, req: SaveReq, link: Option<Link>, now: int, id: Id)
    requires u in db.listings && id in db.listings
    ensures Logged(db, SaveRow(db, u, req, link, now), id)
  {
    assert LogsOf(db.logs, id) + [] == LogsOf(db.logs, id);
    LogsOfOne(db.logs, u, db.listings[u].priceMinor, Saved(db.listings[u], req, link, now).priceMinor, id);
  }

  lemma MergeLogs(db: Db, from: Id, into: Id, req: SaveReq, link: Option<Link>, now: int, id: Id)
    requires from in db.listings && into in db.listings && id in db.listings && id != from && id != into
    ensures Logged(db, SaveRow(Converge(db, from, into), into, req, link, now), id)
  {
    MovedLogs(db.logs, from, into, id);
    SaveRowLogs(Converge(db, from, into), into, req, link, now, id);
  }

  lemma SaveLogs(db: Db, op: Op, id: Id)
    requires op.SaveOp? && OneRowPerKey(db) && id in db.listings && !Merged(db, op, id)
    ensures id in Apply(db, op).listings && Logged(db, Apply(db, op), id)
  {
    ApplySave(db, op);
    assert LogsOf(db.logs, id) + [] == LogsOf(db.logs, id);
    if Step(db, op).Some? {
      var (plan, link) := Step(db, op).value;
      match plan {
        case Refuse(_) =>
        case Insert(_) =>
        case Update(u) => SaveRowLogs(db, u, op.req, link, op.now, id);
        case Merge(from, into) => MergeLogs(db, from, into, op.req, link, op.now, id);
      }
    }
  }

  // ---- The log of one bulk request ----

  /** How many items change the price read at the start. */
  function NumChanges(row: Listing, items: seq<BulkItem>, id: Id): nat {
    if items == [] then 0
    else
      var last := items[|items| - 1];
      NumChanges(row, items[..|items| - 1], id) + if last.listingId == id && Changes(row, last) then 1 else 0
  }

  /** The entries they log. */
  function ChangeLog(row: Listing, items: seq<BulkItem>, id: Id): seq<PriceLog> {
    if items == [] then []
    else
      var last := items[|items| - 1];
      ChangeLog(row, items[..|items| - 1], id) + if last.listingId == id then LogOf(id, row.priceMinor, NextPrice(row, last)) else []
  }

  lemma OneLogIs(before: Db, rows: Rows, item: BulkItem, now: int, id: Id)
    requires id in rows && id in before.listings
    ensures LogsOf(BulkOne(before, rows, item, now).logs, id)
         == LogsOf(before.logs, id) + if item.listingId == id then LogOf(id, rows[id].priceMinor, NextPrice(rows[id], item)) else []
  {
    assert LogsOf(before.logs, id) + [] == LogsOf(before.logs, id);
    if item.listingId in rows && item.listingId in before.listings {
      LogsOfOne(before.logs, item.listingId, rows[item.listingId].priceMinor, NextPrice(rows[item.listingId], item), id);
    }
  }

  lemma {:induction false} BulkLogIs(db: Db, rows: Rows, items: seq<BulkItem>, now: int, id: Id)
    requires id in rows && id in db.listings
    ensures LogsOf(BulkAll(db, rows, items, now).logs, id) == LogsOf(db.logs, id) + ChangeLog(rows[id], items, id)
  {
    if items == [] {
      assert LogsOf(db.logs, id) + [] == LogsOf(db.logs, id);
    } else {
      var init, last := items[..|items| - 1], items[|items| - 1];
      BulkLogIs(db, rows, init, now, id);
      OneLogIs(BulkAll(db, rows, init, now), rows, last, now, id);
    }
  }

  /** Every entry starts from the price read at the start; with at most one, it ends at the final price. */
  lemma {:induction false} ChangeLogIs(row: Listing, items: seq<BulkItem>, id: Id)
    requires row.priceMinor.Some?
    ensures |ChangeLog(row, items, id)| == NumChanges(row, items, id)
    ensures forall i | 0 <= i < |ChangeLog(row, items, id)| ::
              ChangeLog(row, items, id)[i].oldMinor == row.priceMinor.value != ChangeLog(row, items, id)[i].newMinor
    ensures var log := ChangeLog(row, items, id);
            FinalPrice(row, items, id) == if log == [] then row.priceMinor else Some(log[|log| - 1].newMinor)
  {
    if items != [] {
      ChangeLogIs(row, items[..|items| - 1], id);
    }
  }

  /** What a bulk request logs of a listing leads from its old price to its new one exactly when at most one item changes it. */
  lemma BulkLogIff(db: Db, biz: Id, items: seq<BulkItem>, now: int, id: Id)
    requires id in OwnRows(db, biz) && UnitOk(db.listings[id]) && db.listings[id].priceMinor.Some?
    ensures var row, after := db.listings[id], Bulk(db, biz, items, now);
            && after.listings[id].priceMinor.Some?
            && LogsOf(db.logs, id) <= LogsOf(after.logs, id)
            && (ChainFrom(row.priceMinor.value, LogsOf(after.logs, id)[|LogsOf(db.logs, id)|..], after.listings[id].priceMinor.value)
                <==> NumChanges(row, items, id) <= 1)
  {
    var row, log := db.listings[id], ChangeLog(db.listings[id], items, id);
    BulkLogIs(db, OwnRows(db, biz), items, now, id);
    BulkPrices(db, OwnRows(db, biz), items, now, id);
    ChangeLogIs(row, items, id);
    assert LogsOf(Bulk(db, biz, items, now).logs, id)[|LogsOf(db.logs, id)|..] == log;
    if |log| == 1 {
      assert log[1..] == [];
    } else if |log| > 1 {
      assert log[1..][0] == log[1];
    }
  }

  // ---- Every run ----

  ghost predicate DbOk(db: Db) { KeysOk(db) && AllUnit(db) && RefsOk(db) }

  lemma StepKeepsOk(db: Db, op: Op)
    requires DbOk(db) && Proper(op)
    ensures DbOk(Apply(db, op)) && Follows(db, Apply(db, op))
  {
    match op {
      case SaveOp(_, _, _, _, _, _) =>
        SaveKeepsKeys(db, op);
        SaveKeepsUnit(db, op);
        SaveFollows(db, op);
      case BulkOp(biz, items, now) =>
        BulkKeepsKeys(db, biz, items, now);
        BulkKeepsUnit(db, biz, items, now);
        BulkFollows(db, OwnRows(db, biz), items, now);
    }
  }

  /**
   * Every run keeps one row for each seller, good and key; every unit price is the price over the
   * base quantity; and no row of any table is lost or moved to another seller or good.
   */
  lemma {:induction false} RunKeepsOk(db: Db, ops: seq<Op>)
    requires DbOk(db) && forall i | 0 <= i < |ops| :: Proper(ops[i])
    ensures DbOk(Run(db, ops)) && Follows(db, Run(db, ops))
    decreases |ops|
  {
    if ops != [] {
      StepKeepsOk(db, ops[0]);
      assert forall i | 0 <= i < |ops| - 1 :: ops[1..][i] == ops[i + 1];
      RunKeepsOk(Apply(db, ops[0]), ops[1..]);
      FollowsTransitive(db, Apply(db, ops[0]), Run(db, ops));
    }
  }

  /** While the row has a price and is not merged. */
  ghost predicate Quiet(db: Db, ops: seq<Op>, id: Id)
    decreases |ops|
  {
    && id in db.listings && db.listings[id].priceMinor.Some?
    && (ops != [] ==> !Merged(db, ops[0], id) && Quiet(Apply(db, ops[0]), ops[1..], id))
  }

  /** The entries lead from one price to another, each starting where the one before ended. */
  predicate ChainFrom(p: int, log: seq<PriceLog>, q: int)
    decreases log
  {
    if log == [] then p == q
    else log[0].oldMinor == p && log[0].newMinor != p && ChainFrom(log[0].newMinor, log[1..], q)
  }

  function Moves(log: seq<PriceLog>): int {
    if log == [] then 0 else log[0].newMinor - log[0].oldMinor + Moves(log[1..])
  }

  lemma {:induction false} Telescopes(p: int, log: seq<PriceLog>, q: int)
    requires ChainFrom(p, log, q)
    ensures Moves(log) == q - p
    decreases log
  {
    if log != [] {
      Telescopes(log[0].newMinor, log[1..], q);
    }
  }

  lemma StepLogs(db: Db, op: Op, id: Id)
    requires DbOk(db) && Proper(op) && id in db.listings && !Merged(db, op, id)
    ensures id in Apply(db, op).listings && Logged(db, Apply(db, op), id)
  {
    match op {
      case SaveOp(_, _, _, _, _, _) => SaveLogs(db, op, id);
      case BulkOp(biz, items, now) => BulkLogs(db, OwnRows(db, biz), items, now, id);
    }
  }

  /** One entry, or none, before a chain. */
  lemma ChainCons(id: Id, p: int, m: int, rest: seq<PriceLog>, q: int)
    requires ChainFrom(m, rest, q)
    ensures ChainFrom(p, LogOf(id, Some(p), Some(m)) + rest, q)
  {
    if p != m {
      assert ([PriceLog(id, p, m)] + rest)[1..] == rest;
    } else {
      assert [] + rest == rest;
    }
  }

  lemma Prepend(db: Db, db': Db, logs: seq<PriceLog>, id: Id, rest: seq<PriceLog>, q: int) returns (log: seq<PriceLog>)
    requires id in db.listings && id in db'.listings && Logged(db, db', id)
    requires db.listings[id].priceMinor.Some? && db'.listings[id].priceMinor.Some?
    requires LogsOf(logs, id) == LogsOf(db'.logs, id) + rest && ChainFrom(db'.listings[id].priceMinor.value, rest, q)
    ensures LogsOf(logs, id) == LogsOf(db.logs, id) + log && ChainFrom(db.listings[id].priceMinor.value, log, q)
  {
    var p, m := db.listings[id].priceMinor.value, db'.listings[id].priceMinor.value;
    ChainCons(id, p, m, rest, q);
    log := LogOf(id, Some(p), Some(m)) + rest;
  }

  /** The entries a quiet run adds chain from the price before it to the price after it. */
  lemma {:induction false} PriceLogChains(db: Db, ops: seq<Op>, id: Id) returns (log: seq<PriceLog>)
    requires DbOk(db) && Quiet(db, ops, id) && forall i | 0 <= i < |ops| :: Proper(ops[i])
    ensures id in Run(db, ops).listings && Run(db, ops).listings[id].priceMinor.Some?
    ensures LogsOf(Run(db, ops).logs, id) == LogsOf(db.logs, id) + log
    ensures ChainFrom(db.listings[id].priceMinor.value, log, Run(db, ops).listings[id].priceMinor.value)
    decreases |ops|
  {
    if ops == [] {
      log := [];
    } else {
      StepLogs(db, ops[0], id);
      var rest := LaterChain(db, ops, id);
      log := Prepend(db, Apply(db, ops[0]), Run(db, ops).logs, id, rest, Run(db, ops).listings[id].priceMinor.value);
    }
  }

  lemma LaterChain(db: Db, ops: seq<Op>, id: Id) returns (log: seq<PriceLog>)
    requires ops != [] && DbOk(db) && Quiet(db, ops, id) && forall i | 0 <= i < |ops| :: Proper(ops[i])
    ensures var db' := Apply(db, ops[0]);
            && id in db'.listings && db'.listings[id].priceMinor.Some?
            && id in Run(db', ops[1..]).listings && Run(db', ops[1..]).listings[id].priceMinor.Some?
            && LogsOf(Run(db', ops[1..]).logs, id) == LogsOf(db'.logs, id) + log
            && ChainFrom(db'.listings[id].priceMinor.value, log, Run(db', ops[1..]).listings[id].priceMinor.value)
    decreases |ops|, 0
  {
    StepKeepsOk(db, ops[0]);
    assert forall i | 0 <= i < |ops| - 1 :: ops[1..][i] == ops[i + 1];
    log := PriceLogChains(Apply(db, ops[0]), ops[1..], id);
  }

  /** The logged changes of a quiet run add up to the change of the price. */
  lemma PriceLogTelescopes(db: Db, ops: seq<Op>, id: Id)
    requires DbOk(db) && Quiet(db, ops, id) && forall i | 0 <= i < |ops| :: Proper(ops[i])
    ensures id in Run(db, ops).listings && Run(db, ops).listings[id].priceMinor.Some?
    ensures var before, after := LogsOf(db.logs, id), LogsOf(Run(db, ops).logs, id);
            && before <= after
            && Moves(after[|before|..]) == Run(db, ops).listings[id].priceMinor.value - db.listings[id].priceMinor.value
  {
    var log := PriceLogChains(db, ops, id);
    Telescopes(db.listings[id].priceMinor.value, log, Run(db, ops).listings[id].priceMinor.value);
    assert LogsOf(Run(db, ops).logs, id)[|LogsOf(db.logs, id)|..] == log;
  }

  lemma EmptyOk()
    ensures DbOk(Db(map[], [], map[]))
  {
  }
}
