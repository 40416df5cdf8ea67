/** Personal catalog categories: a listing's category is always one its business has. */
module Catalog {
  import opened Wrappers
  import opened Guards
  import Listings
  import ListingRuns

  datatype Tables = Tables(businesses: map<Id, Business>, shop: Listings.Db)

  datatype State = State(tables: Tables, cache: Cache)

  datatype Reply = Done | Saved(listingId: Id) | Denied(denial: Denial) | DuplicateCategory | IdTaken | ListingError(error: Listings.Error)

  datatype Op =
    | Open(id: Id, row: Business)
    | SetCategories(user: User, id: Id, categories: seq<Category>, now: int)
    | EditBusiness(user: User, id: Id, city: string, now: int)
    | SaveListing(user: User, id: Id, reference: Listings.Reference, req: Listings.SaveReq, newId: Id, now: int)
    | BulkPrices(user: User, id: Id, items: seq<Listings.BulkItem>, now: int)

  /** What `trim` strips: white space and line ends. */
  predicate IsSpace(c: char) {
    || '\U{0009}' <= c <= '\U{000D}' || '\U{2000}' <= c <= '\U{200A}'
    || c in {' ', '\U{00A0}', '\U{1680}', '\U{2028}', '\U{2029}', '\U{202F}', '\U{205F}', '\U{3000}', '\U{FEFF}'}
  }

  function TrimStart(s: string): string { if s != [] && IsSpace(s[0]) then TrimStart(s[1..]) else s }

  function TrimEnd(s: string): string { if s != [] && IsSpace(s[|s| - 1]) then TrimEnd(s[..|s| - 1]) else s }

  function Trim(s: string): string { TrimEnd(TrimStart(s)) }

  /** An empty city leaves the column alone. */
  function Edited(row: Business, city: string): Business { if city == "" then row else row.(city := Trim(city)) }

  function Trimmed(categories: seq<Category>): seq<Category> {
    seq(|categories|, i requires 0 <= i < |categories| => categories[i].(name := Trim(categories[i].name)))
  }

  function IdList(categories: seq<Category>): seq<Id> {
    seq(|categories|, i requires 0 <= i < |categories| => categories[i].id)
  }

  function NameList(categories: seq<Category>): seq<string> {
    seq(|categories|, i requires 0 <= i < |categories| => categories[i].name)
  }

  /** `new Set(values)`. */
  function AsSet(values: seq<string>): set<string> { set v | v in values }

  function Ids(categories: seq<Category>): set<Id> { AsSet(IdList(categories)) }

  /** Listings whose category is gone lose it; those without one are not matched. */
  function Uncategorised(shop: Listings.Db, biz: Id, ids: set<Id>): Listings.Db {
    shop.(listings := map l | l in shop.listings ::
      if shop.listings[l].businessId == biz && shop.listings[l].catalogCategoryId.Some? && shop.listings[l].catalogCategoryId.value !in ids
      then shop.listings[l].(catalogCategoryId := None) else shop.listings[l])
  }

  /** What a handler does once the ownership check has answered. */
  ghost function Handle(t: Tables, op: Op, owner: Result<Business, Denial>): (Tables, Reply)
    requires !op.Open?
  {
    match owner
    case Err(d) => (t, Denied(d))
    case Ok(business) =>
      match op
      case SetCategories(_, id, raw, _) =>
        var categories := Trimmed(raw);
        if |Ids(categories)| != |categories| || |AsSet(NameList(categories))| != |categories| then (t, DuplicateCategory)
        else if id !in t.businesses then (t, Denied(NoBusiness))
        else (Tables(t.businesses[id := t.businesses[id].(customCategories := categories)], Uncategorised(t.shop, id, Ids(categories))), Done)
      case EditBusiness(_, id, city, _) =>
        if id !in t.businesses then (t, Denied(NoBusiness))
        else (t.(businesses := t.businesses[id := Edited(t.businesses[id], city)]), Done)
      case SaveListing(_, id, reference, req, newId, now) =>
        var (shop, res) := Listings.Save(t.shop, id, Ids(business.customCategories), reference, req, newId, now);
        (t.(shop := shop), match res case Ok(l) => Saved(l) case Err(e) => ListingError(e))
      case BulkPrices(_, id, items, now) =>
        (t.(shop := Listings.Bulk(t.shop, id, items, now)), Done)
  }

  /** Every handler that changes a business row drops it from the cache. */
  predicate Invalidates(op: Op, r: Reply) { (op.SetCategories? || op.EditBusiness?) && r == Done }

  function Opened(t: Tables, id: Id, row: Business): (Tables, Reply) {
    if id in t.businesses then (t, IdTaken) else (t.(businesses := t.businesses[id := row.(customCategories := [])]), Done)
  }

  ghost function Step(s: State, op: Op): (State, Reply) {
    if op.Open? then
      var (t, r) := Opened(s.tables, op.id, op.row);
      (State(t, s.cache), r)
    else
      var (c, owner) := AssertOwner(s.cache, s.tables.businesses, op.user, op.id, op.now);
      var (t, r) := Handle(s.tables, op, owner);
      (State(t, if Invalidates(op, r) then Invalidate(c, Some(op.id)) else c), r)
  }

  /** The same handlers reading the table every time. */
  ghost function PlainStep(t: Tables, op: Op): (Tables, Reply) {
    if op.Open? then Opened(t, op.id, op.row) else Handle(t, op, Owned(t.businesses, op.user, op.id))
  }

  ghost function Run(s: State, ops: seq<Op>): (State, seq<Reply>)
    decreases |ops|
  {
    if ops == [] then (s, [])
    else
      var (s', r) := Step(s, ops[0]);
      var (s'', rs) := Run(s', ops[1..]);
      (s'', [r] + rs)
  }

  ghost function PlainRun(t: Tables, ops: seq<Op>): (Tables, seq<Reply>)
    decreases |ops|
  {
    if ops == [] then (t, [])
    else
      var (t', r) := PlainStep(t, ops[0]);
      var (t'', rs) := PlainRun(t', ops[1..]);
      (t'', [r] + rs)
  }

  class Handlers {
    const cache: BusinessRowCache
    const listings: Listings.ListingsController
    var businesses: map<Id, Business>

    function Now(): State
      reads this, cache, listings
    {
      State(Tables(businesses, listings.State()), cache.State())
    }

    constructor (cache: BusinessRowCache, listings: Listings.ListingsController)
      ensures this.cache == cache && this.listings == listings && businesses == map[]
    {
      this.cache, this.listings, businesses := cache, listings, map[];
    }

    /** Clears the category of the business's listings whose category is not among `ids`. */
    method Uncategorise(id: Id, ids: set<Id>)
      modifies listings
      ensures listings.State() == Uncategorised(old(listings.State()), id, ids)
    {
      var rest := listings.listings.Keys;
      ghost var before := listings.State();
      while rest != {}
        invariant rest <= before.listings.Keys == listings.listings.Keys
        invariant listings.logs == before.logs && listings.refs == before.refs
        invariant forall l | l in before.listings ::
                    listings.listings[l] == if l in rest then before.listings[l] else Uncategorised(before, id, ids).listings[l]
        decreases |rest|
      {
        var l :| l in rest;
        var row := listings.listings[l];
        if row.businessId == id && row.catalogCategoryId.Some? && row.catalogCategoryId.value !in ids {
          listings.listings := listings.listings[l := row.(catalogCategoryId := None)];
        }
        rest := rest - {l};
      }
    }

    method SetCatalogCategories(user: User, id: Id, raw: seq<Category>, now: int) returns (r: Reply)
      modifies this, cache, listings
      ensures (Now(), r) == Step(old(Now()), SetCategories(user, id, raw, now))
    {
      var owner := cache.AssertBusinessOwner(businesses, user, id, now);
      if owner.Err? {
        return Denied(owner.error);
      }
      var categories := Trimmed(raw);
      var ids := Ids(categories);
      if |ids| != |categories| || |AsSet(NameList(categories))| != |categories| {
        return DuplicateCategory;
      }
      if id !in businesses {
        return Denied(NoBusiness);
      }
      businesses := businesses[id := businesses[id].(customCategories := categories)];
      Uncategorise(id, ids);
      cache.InvalidateBusinessCache(Some(id));
      r := Done;
    }

    method EditBusinessRow(user: User, id: Id, city: string, now: int) returns (r: Reply)
      modifies this, cache
      ensures (Now(), r) == Step(old(Now()), EditBusiness(user, id, city, now))
    {
      var owner := cache.AssertBusinessOwner(businesses, user, id, now);
      if owner.Err? {
        return Denied(owner.error);
      }
      if id !in businesses {
        return Denied(NoBusiness);
      }
      var data := businesses[id];
      if city != "" {
        data := data.(city := Trim(city));
      }
      businesses := businesses[id := data];
      cache.InvalidateBusinessCache(Some(id));
      r := Done;
    }

    method SaveOwnListing(user: User, id: Id, reference: Listings.Reference, req: Listings.SaveReq, newId: Id, now: int) returns (r: Reply)
      requires Listings.OneRowPerKey(listings.State())
      modifies cache, listings
      ensures (Now(), r) == Step(old(Now()), SaveListing(user, id, reference, req, newId, now))
    {
      var owner := cache.AssertBusinessOwner(businesses, user, id, now);
      if owner.Err? {
        return Denied(owner.error);
      }
      var res := listings.SaveListing(id, Ids(owner.value.customCategories), reference, req, newId, now);
      r := match res case Ok(l) => Saved(l) case Err(e) => ListingError(e);
    }
  }

  // ---- The cache changes nothing but speed ----

  lemma StepAnswersPlainly(s: State, op: Op)
    requires Fresh(s.cache, s.tables.businesses)
    ensures (Step(s, op).0.tables, Step(s, op).1) == PlainStep(s.tables, op)
  {
    if !op.Open? {
      CacheIsTransparent(s.cache, s.tables.businesses, op.user, op.id, op.now);
    }
  }

  /** A handler changes at most its own business row, and says so. */
  lemma HandleChanges(t: Tables, op: Op, owner: Result<Business, Denial>)
    requires !op.Open?
    ensures var (t', r) := Handle(t, op, owner);
            if Invalidates(op, r) then op.id in t'.businesses && t'.businesses == t.businesses[op.id := t'.businesses[op.id]]
            else t'.businesses == t.businesses
  {
  }

  lemma StepKeepsCache(s: State, op: Op)
    requires Fresh(s.cache, s.tables.businesses) && CacheOk(s.cache)
    ensures Fresh(Step(s, op).0.cache, Step(s, op).0.tables.businesses) && CacheOk(Step(s, op).0.cache)
  {
    if !op.Open? {
      CacheIsTransparent(s.cache, s.tables.businesses, op.user, op.id, op.now);
      AssertOwnerKeepsOk(s.cache, s.tables.businesses, op.user, op.id, op.now);
      var (c, owner) := AssertOwner(s.cache, s.tables.businesses, op.user, op.id, op.now);
      InvalidateKeepsOk(c, Some(op.id));
      HandleChanges(s.tables, op, owner);
      var (t, r) := Handle(s.tables, op, owner);
      if Invalidates(op, r) {
        ChangeAfterInvalidate(c, s.tables.businesses, op.id, t.businesses[op.id]);
      }
    }
  }

  /**
   * Every run answers and stores exactly what it would without a cache; what is cached is always
   * what is stored, and never more than 5001 rows are.
   */
  lemma {:induction false} RunIsPlain(s: State, ops: seq<Op>)
    requires Fresh(s.cache, s.tables.businesses) && CacheOk(s.cache)
    ensures var (s', rs) := Run(s, ops);
            && (s'.tables, rs) == PlainRun(s.tables, ops)
            && Fresh(s'.cache, s'.tables.businesses) && CacheOk(s'.cache)
    decreases |ops|
  {
    if ops != [] {
      StepAnswersPlainly(s, ops[0]);
      StepKeepsCache(s, ops[0]);
      RunIsPlain(Step(s, ops[0]).0, ops[1..]);
    }
  }

  // ---- What each handler stores ----

  predicate Blanks(s: string) { forall i | 0 <= i < |s| :: IsSpace(s[i]) }

  /** White space around the text and none at its ends. */
  predicate IsTrimmed(s: string, t: string) {
    && (t == "" || (!IsSpace(t[0]) && !IsSpace(t[|t| - 1])))
    && exists i, j | 0 <= i <= j <= |s| :: s[i..j] == t && Blanks(s[..i]) && Blanks(s[j..])
  }

  lemma {:induction false} TrimsStart(s: string) returns (i: nat)
    ensures i <= |s| && TrimStart(s) == s[i..] && Blanks(s[..i]) && (i < |s| ==> !IsSpace(s[i]))
  {
    if s != [] && IsSpace(s[0]) {
      var k := TrimsStart(s[1..]);
      i := k + 1;
      assert s[1..][k..] == s[i..];
      assert forall x | 0 < x < i :: s[x] == s[1..][..k][x - 1];
      assert k < |s[1..]| ==> s[1..][k] == s[i];
    } else {
      i := 0;
    }
  }

  lemma {:induction false} TrimsEnd(s: string) returns (j: nat)
    ensures j <= |s| && TrimEnd(s) == s[..j] && Blanks(s[j..]) && (j > 0 ==> !IsSpace(s[j - 1]))
  {
    if s != [] && IsSpace(s[|s| - 1]) {
      j := TrimsEnd(s[..|s| - 1]);
      assert s[..|s| - 1][..j] == s[..j];
      assert forall x | j <= x < |s| - 1 :: s[x] == s[..|s| - 1][j..][x - j];
    } else {
      j := |s|;
    }
  }

  lemma TrimIs(s: string)
    ensures IsTrimmed(s, Trim(s))
  {
    var i := TrimsStart(s);
    var j := TrimsEnd(s[i..]);
    assert s[i..][..j] == s[i..i + j] && s[i..][j..] == s[i + j..];
    if j > 0 {
      assert s[i..][0] == s[i] && s[i..][j - 1] == s[i + j - 1];
    }
  }

  /** The stored categories are those sent, in order, with their names trimmed. */
  predicate SentCategories(sent: seq<Category>, stored: seq<Category>) {
    && |stored| == |sent|
    && forall i | 0 <= i < |sent| :: stored[i].id == sent[i].id && IsTrimmed(sent[i].name, stored[i].name)
  }

  /** A listing of the business whose category is not among the stored ones. */
  predicate Orphaned(l: Listings.Listing, biz: Id, stored: seq<Category>) {
    && l.businessId == biz && l.catalogCategoryId.Some?
    && forall i | 0 <= i < |stored| :: stored[i].id != l.catalogCategoryId.value
  }

  /** Replacing a business's categories touches that row and, of all listings, the category of those left without one. */
  lemma CategoriesAreSet(t: Tables, op: Op)
    requires op.SetCategories? && PlainStep(t, op).1 == Done
    ensures var t' := PlainStep(t, op).0;
            && op.id in t.businesses && (op.user.admin || op.user.id == t.businesses[op.id].ownerId)
            && t'.businesses == t.businesses[op.id := t.businesses[op.id].(customCategories := t'.businesses[op.id].customCategories)]
            && SentCategories(op.categories, t'.businesses[op.id].customCategories)
            && t'.shop.logs == t.shop.logs && t'.shop.refs == t.shop.refs && t'.shop.listings.Keys == t.shop.listings.Keys
            && forall l | l in t.shop.listings ::
                 t'.shop.listings[l] == if Orphaned(t.shop.listings[l], op.id, t'.businesses[op.id].customCategories)
                                        then t.shop.listings[l].(catalogCategoryId := None) else t.shop.listings[l]
  {
    var t' := PlainStep(t, op).0;
    var stored := t'.businesses[op.id].customCategories;
    forall i | 0 <= i < |op.categories| ensures stored[i].id == op.categories[i].id && IsTrimmed(op.categories[i].name, stored[i].name) {
      TrimIs(op.categories[i].name);
    }
    forall l | l in t.shop.listings && t.shop.listings[l].catalogCategoryId.Some?
      ensures t.shop.listings[l].catalogCategoryId.value in Ids(stored)
         <==> exists i | 0 <= i < |stored| :: stored[i].id == t.shop.listings[l].catalogCategoryId.value
    {
      IdsAre(stored, t.shop.listings[l].catalogCategoryId.value);
    }
  }

  lemma IdsAre(cs: seq<Category>, id: Id)
    ensures id in Ids(cs) <==> exists i | 0 <= i < |cs| :: cs[i].id == id
  {
    if id in Ids(cs) {
      var i :| 0 <= i < |IdList(cs)| && IdList(cs)[i] == id;
      assert cs[i].id == id;
    }
    if i :| 0 <= i < |cs| && cs[i].id == id {
      assert IdList(cs)[i] == id;
    }
  }

  predicate Repeats(sent: seq<Category>) {
    exists i, j | 0 <= i < j < |sent| :: sent[i].id == sent[j].id || Trim(sent[i].name) == Trim(sent[j].name)
  }

  /** It is refused exactly for a repeated id or name. */
  lemma RefusedForRepeats(t: Tables, op: Op)
    requires op.SetCategories? && op.id in t.businesses && (op.user.admin || op.user.id == t.businesses[op.id].ownerId)
    ensures var (t', r) := PlainStep(t, op);
            if Repeats(op.categories) then r == DuplicateCategory && t' == t else r == Done
  {
    var stored := Trimmed(op.categories);
    SizeTells(IdList(stored));
    SizeTells(NameList(stored));
    forall i, j | 0 <= i < j < |stored|
      ensures IdList(stored)[i] == IdList(stored)[j] <==> op.categories[i].id == op.categories[j].id
      ensures NameList(stored)[i] == NameList(stored)[j] <==> Trim(op.categories[i].name) == Trim(op.categories[j].name)
    {
    }
  }

  /** An edit stores the trimmed city, unless none was sent, and nothing else. */
  lemma CityIsEdited(t: Tables, op: Op)
    requires op.EditBusiness? && PlainStep(t, op).1 == Done
    ensures var t' := PlainStep(t, op).0;
            && op.id in t.businesses && (op.user.admin || op.user.id == t.businesses[op.id].ownerId) && t'.shop == t.shop
            && t'.businesses == t.businesses[op.id := t.businesses[op.id].(city := t'.businesses[op.id].city)]
            && if op.city == "" then t'.businesses[op.id] == t.businesses[op.id] else IsTrimmed(op.city, t'.businesses[op.id].city)
  {
    TrimIs(op.city);
  }

  /** A new business starts without categories, and leaves the others alone. */
  lemma OpenedIs(t: Tables, id: Id, row: Business)
    ensures var (t', r) := Opened(t, id, row);
            if id in t.businesses then r == IdTaken && t' == t
            else r == Done && t'.shop == t.shop && t'.businesses == t.businesses[id := row.(customCategories := [])]
  {
  }

  /** Whoever is neither the owner nor an administrator changes nothing, and is told why. */
  lemma StrangersChangeNothing(s: State, op: Op)
    requires Fresh(s.cache, s.tables.businesses) && !op.Open?
    requires op.id !in s.tables.businesses || (op.user.id != s.tables.businesses[op.id].ownerId && !op.user.admin)
    ensures Step(s, op).0.tables == s.tables
    ensures Step(s, op).1 == Denied(if op.id in s.tables.businesses then NotOwner else NoBusiness)
  {
    OnlyOwnersGetIn(s.cache, s.tables.businesses, op.user, op.id, op.now);
  }

  /** And owners and administrators are never denied. */
  lemma OwnersAreNotDenied(s: State, op: Op)
    requires Fresh(s.cache, s.tables.businesses) && !op.Open?
    requires op.id in s.tables.businesses && (op.user.id == s.tables.businesses[op.id].ownerId || op.user.admin)
    ensures !Step(s, op).1.Denied?
    ensures op.SaveListing? ==>
              var categories := set i | 0 <= i < |s.tables.businesses[op.id].customCategories| :: s.tables.businesses[op.id].customCategories[i].id;
              Step(s, op).0.tables.shop == Listings.Save(s.tables.shop, op.id, categories, op.reference, op.req, op.newId, op.now).0
    ensures op.BulkPrices? ==> Step(s, op).0.tables.shop == Listings.Bulk(s.tables.shop, op.id, op.items, op.now)
  {
    var row := s.tables.businesses[op.id];
    OnlyOwnersGetIn(s.cache, s.tables.businesses, op.user, op.id, op.now);
    if op.SaveListing? {
      var categories := set i | 0 <= i < |row.customCategories| :: row.customCategories[i].id;
      forall c ensures c in Ids(row.customCategories) <==> c in categories {
        IdsAre(row.customCategories, c);
      }
      assert Ids(row.customCategories) == categories;
    }
  }

  /** Of what the check cached, exactly a row that was just changed is dropped. */
  lemma ChangedRowIsDropped(s: State, op: Op)
    requires CacheOk(s.cache)
    ensures var (s', r) := Step(s, op);
            if op.Open? then s'.cache == s.cache
            else
              var checked := AssertOwner(s.cache, s.tables.businesses, op.user, op.id, op.now).0;
              if (op.SetCategories? || op.EditBusiness?) && r == Done then s'.cache.rows == checked.rows - {op.id} && op.id !in s'.cache.keys
              else s'.cache == checked
  {
    if !op.Open? {
      AssertOwnerKeepsOk(s.cache, s.tables.businesses, op.user, op.id, op.now);
      InvalidateDrops(AssertOwner(s.cache, s.tables.businesses, op.user, op.id, op.now).0, op.id);
    }
  }

  // ---- Every category exists ----

  predicate CategoryExists(t: Tables, l: Listings.Listing) {
    l.catalogCategoryId.Some? ==>
      l.businessId in t.businesses && l.catalogCategoryId.value in Ids(t.businesses[l.businessId].customCategories)
  }

  ghost predicate Integrity(t: Tables) { forall l | l in t.shop.listings :: CategoryExists(t, t.shop.listings[l]) }

  /** Ids and names of stored categories are unique. */
  ghost predicate UniqueCategories(t: Tables) {
    forall b | b in t.businesses :: AllDistinct(t.businesses[b].customCategories)
  }

  predicate AllDistinct(cs: seq<Category>) { Distinct(IdList(cs)) && Distinct(NameList(cs)) }

  /** Comparing sizes finds every repeated value. */
  lemma {:induction false} SizeTells(values: seq<string>)
    ensures |AsSet(values)| <= |values|
    ensures |AsSet(values)| == |values| <==> Distinct(values)
  {
    if values != [] {
      SizeTells(values[1..]);
      DistinctTail(values);
      assert values == [values[0]] + values[1..];
      assert AsSet(values) == AsSet(values[1..]) + {values[0]};
    }
  }

  lemma SetCategoriesKeeps(t: Tables, op: Op, owner: Result<Business, Denial>)
    requires op.SetCategories? && Integrity(t) && UniqueCategories(t)
    ensures Integrity(Handle(t, op, owner).0) && UniqueCategories(Handle(t, op, owner).0)
  {
    var categories := Trimmed(op.categories);
    SizeTells(IdList(categories));
    SizeTells(NameList(categories));
    var t' := Handle(t, op, owner).0;
    forall l | l in t'.shop.listings ensures CategoryExists(t', t'.shop.listings[l]) {
      assert CategoryExists(t, t.shop.listings[l]);
    }
  }

  /** A saved row keeps its category and business, or gets a category that was checked. */
  lemma SaveCategories(db: Listings.Db, biz: Id, cats: set<Id>, reference: Listings.Reference, req: Listings.SaveReq, newId: Id, now: int, l: Id)
    ensures var db' := Listings.Save(db, biz, cats, reference, req, newId, now).0;
            l in db'.listings ==>
              var row := db'.listings[l];
              || row.catalogCategoryId.None?
              || (row.businessId == biz && row.catalogCategoryId.value in cats)
              || (l in db.listings && row.businessId == db.listings[l].businessId && row.catalogCategoryId == db.listings[l].catalogCategoryId)
  {
    var op := ListingRuns.SaveOp(biz, cats, reference, req, newId, now);
    ListingRuns.ApplySave(db, op);
    if ListingRuns.Step(db, op).Some? {
      var (plan, link) := ListingRuns.Step(db, op).value;
      ListingRuns.PlanOwners(db, biz, req, Listings.IdentityKey(req, link), newId);
    }
  }

  lemma SaveKeeps(t: Tables, op: Op)
    requires op.SaveListing? && Integrity(t) && UniqueCategories(t)
    ensures var t' := Handle(t, op, Owned(t.businesses, op.user, op.id)).0;
            Integrity(t') && UniqueCategories(t')
  {
    var owner := Owned(t.businesses, op.user, op.id);
    var t' := Handle(t, op, owner).0;
    if owner.Ok? {
      forall l | l in t'.shop.listings ensures CategoryExists(t', t'.shop.listings[l]) {
        SaveCategories(t.shop, op.id, Ids(owner.value.customCategories), op.reference, op.req, op.newId, op.now, l);
        assert l in t.shop.listings ==> CategoryExists(t, t.shop.listings[l]);
      }
    }
  }

  lemma BulkKeeps(t: Tables, op: Op, owner: Result<Business, Denial>)
    requires op.BulkPrices? && Integrity(t) && UniqueCategories(t)
    ensures Integrity(Handle(t, op, owner).0) && UniqueCategories(Handle(t, op, owner).0)
  {
    if owner.Ok? {
      var t' := Handle(t, op, owner).0;
      forall l | l in t'.shop.listings ensures CategoryExists(t', t'.shop.listings[l]) {
        ListingRuns.BulkKeepsIdentity(t.shop, Listings.OwnRows(t.shop, op.id), op.items, op.now, l);
        assert CategoryExists(t, t.shop.listings[l]);
      }
    }
  }

  lemma PlainStepKeeps(t: Tables, op: Op)
    requires Integrity(t) && UniqueCategories(t)
    ensures Integrity(PlainStep(t, op).0) && UniqueCategories(PlainStep(t, op).0)
  {
    match op {
      case Open(_, _) =>
        OpenKeeps(t, op.id, op.row);
      case SetCategories(_, _, _, _) =>
        SetCategoriesKeeps(t, op, Owned(t.businesses, op.user, op.id));
      case EditBusiness(_, _, _, _) =>
        EditKeeps(t, op, Owned(t.businesses, op.user, op.id));
      case SaveListing(_, _, _, _, _, _) =>
        SaveKeeps(t, op);
      case BulkPrices(_, _, _, _) =>
        BulkKeeps(t, op, Owned(t.businesses, op.user, op.id));
    }
  }

  lemma OpenKeeps(t: Tables, id: Id, row: Business)
    requires Integrity(t) && UniqueCategories(t)
    ensures Integrity(Opened(t, id, row).0) && UniqueCategories(Opened(t, id, row).0)
  {
  }

  lemma EditKeeps(t: Tables, op: Op, owner: Result<Business, Denial>)
    requires op.EditBusiness? && Integrity(t) && UniqueCategories(t)
    ensures Integrity(Handle(t, op, owner).0) && UniqueCategories(Handle(t, op, owner).0)
  {
    var t' := Handle(t, op, owner).0;
    forall l | l in t'.shop.listings ensures CategoryExists(t', t'.shop.listings[l]) {
      assert CategoryExists(t, t.shop.listings[l]);
    }
  }

  /**
   * In every run, although saves check the cached row: each listing's category is one of its
   * business's current categories, and no business has two categories of one id or name.
   */
  lemma {:induction false} RunKeepsIntegrity(s: State, ops: seq<Op>)
    requires Fresh(s.cache, s.tables.businesses) && CacheOk(s.cache)
    requires Integrity(s.tables) && UniqueCategories(s.tables)
    ensures Integrity(Run(s, ops).0.tables) && UniqueCategories(Run(s, ops).0.tables)
    decreases |ops|
  {
    if ops != [] {
      StepAnswersPlainly(s, ops[0]);
      StepKeepsCache(s, ops[0]);
      PlainStepKeeps(s.tables, ops[0]);
      RunKeepsIntegrity(Step(s, ops[0]).0, ops[1..]);
    }
  }
}
