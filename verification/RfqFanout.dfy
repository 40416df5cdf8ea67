/** Who receives a price request: resolving, ranking and capping the sellers of a basket. */
module RfqFanout {
  import opened Wrappers
  import opened Sorting
  import opened Rfq

  /** A sell listing as the holder query returns it. */
  datatype ListingRow = ListingRow(id: Id, businessId: Id, goodId: Id, priceMinor: Option<nat>)

  /** A listing picked for one good; network matches carry no price. */
  datatype Found = Found(listingId: Id, price: Option<nat>)

  datatype Match = Match(sellerId: Id, listingId: Id)

  datatype Request = Request(
    items: seq<(Id, int)>,
    goodId: Option<Id>,
    volume: int,
    supplierIds: seq<Id>,
    includeNetwork: bool,
    expiresDays: Option<int>)

  datatype RequestError = EmptyBasket | DuplicateItem | GoodNotFound | NoRecipient

  function ClampInt(v: int, lo: int, hi: int): int { if v < lo then lo else if v > hi then hi else v }

  function Line(goodId: Id, qty: int): BasketLine {
    BasketLine(goodId, ClampInt(qty, 1, 1_000_000_000) as nat)
  }

  predicate Multi(req: Request) { req.items != [] }

  /** The basket: the item list, or the single good of an old client. */
  function Basket(req: Request): seq<BasketLine> {
    if Multi(req) then seq(|req.items|, i requires 0 <= i < |req.items| => Line(req.items[i].0, req.items[i].1))
    else if req.goodId.Some? && req.volume != 0 then [Line(req.goodId.value, req.volume)]
    else []
  }

  function Cap(req: Request): nat { if Multi(req) then 15 else 5 }

  predicate HasSelection(req: Request) { !Multi(req) && req.supplierIds != [] }

  predicate NoDuplicates(basket: seq<BasketLine>) {
    forall i, j | 0 <= i < j < |basket| :: basket[i].goodId != basket[j].goodId
  }

  function GoodsOf(basket: seq<BasketLine>): set<Id> {
    set i | 0 <= i < |basket| :: basket[i].goodId
  }

  /** What the request answers before anything is looked up. */
  function Refusal(req: Request, goods: set<Id>): Option<RequestError> {
    var basket := Basket(req);
    if basket == [] then Some(EmptyBasket)
    else if !NoDuplicates(basket) then Some(DuplicateItem)
    else if exists i | 0 <= i < |basket| :: basket[i].goodId !in goods then Some(GoodNotFound)
    else if !Multi(req) && !HasSelection(req) && !req.includeNetwork then Some(NoRecipient)
    else None
  }

  /** Missing prices come first in the database's ascending order. */
  predicate PriceLe(a: ListingRow, b: ListingRow) {
    a.priceMinor.None? || (b.priceMinor.Some? && a.priceMinor.value <= b.priceMinor.value)
  }

  /** The contract of the holder query. */
  ghost predicate IsHolderQuery(req: Request, buyer: Id, rows: seq<ListingRow>) {
    && SortedBy(PriceLe, rows)
    && forall r | r in rows ::
         r.goodId in GoodsOf(Basket(req)) && r.businessId != buyer && (HasSelection(req) ==> r.businessId in req.supplierIds)
  }

  // ---- Per seller, the first listing of each good ----

  type Holders = map<Id, map<Id, Found>>

  /** The first row, in price order, of this seller for this good. */
  function FirstListing(rows: seq<ListingRow>, seller: Id, good: Id): Option<Found> {
    if rows == [] then None
    else
      match FirstListing(rows[..|rows| - 1], seller, good)
      case Some(f) => Some(f)
      case None =>
        var r := rows[|rows| - 1];
        if r.businessId == seller && r.goodId == good then Some(Found(r.id, r.priceMinor)) else None
  }

  function Get(per: Holders, s: Id, g: Id): Option<Found> {
    if s in per && g in per[s] then Some(per[s][g]) else None
  }

  /** The sellers in order of appearance, each once. */
  ghost predicate Listed(order: seq<Id>, per: Holders) {
    && (forall s :: s in order <==> s in per)
    && (forall i, j | 0 <= i < j < |order| :: order[i] != order[j])
    && (forall s | s in per :: per[s] != map[])
  }

  /** Each seller's entry for a good is that seller's first listing of it. */
  ghost predicate Resolved(rows: seq<ListingRow>, per: Holders) {
    forall s, g :: FirstListing(rows, s, g) == Get(per, s, g)
  }

  /** Rows and first listings explain each other. */
  lemma {:induction false} FirstListingExists(rows: seq<ListingRow>, s: Id, g: Id)
    ensures FirstListing(rows, s, g).Some? <==> exists i | 0 <= i < |rows| :: rows[i].businessId == s && rows[i].goodId == g
  {
    if rows != [] {
      FirstListingExists(rows[..|rows| - 1], s, g);
    }
  }

  function WithRow(per: Holders, r: ListingRow): Holders {
    if Get(per, r.businessId, r.goodId).Some? then per
    else per[r.businessId := (if r.businessId in per then per[r.businessId] else map[])[r.goodId := Found(r.id, r.priceMinor)]]
  }

  lemma ResolveStep(rows: seq<ListingRow>, r: ListingRow, per: Holders)
    requires Resolved(rows, per)
    ensures Resolved(rows + [r], WithRow(per, r))
  {
  }

  method ResolveHolders(rows: seq<ListingRow>) returns (order: seq<Id>, per: Holders)
    ensures Listed(order, per) && Resolved(rows, per)
  {
    order, per := [], map[];
    for k := 0 to |rows|
      invariant Listed(order, per) && Resolved(rows[..k], per)
    {
      var r := rows[k];
      ResolveStep(rows[..k], r, per);
      assert rows[..k] + [r] == rows[..k + 1];
      ghost var next := WithRow(per, r);
      if r.businessId !in per {
        order := order + [r.businessId];
        per := per[r.businessId := map[]];
      }
      if r.goodId !in per[r.businessId] {
        per := per[r.businessId := per[r.businessId][r.goodId := Found(r.id, r.priceMinor)]];
      }
      assert per == next;
    }
    assert rows[..|rows|] == rows;
  }

  // ---- The first listing and the cheapest ----

  predicate Sells(r: ListingRow, seller: Id, good: Id) { r.businessId == seller && r.goodId == good }

  /** The found listing has the least known price of the seller's listings of the good, or none has a price. */
  predicate IsCheapest(rows: seq<ListingRow>, seller: Id, good: Id, f: Found) {
    match f.price
    case None => forall i | 0 <= i < |rows| && Sells(rows[i], seller, good) :: rows[i].priceMinor.None?
    case Some(p) => forall i | 0 <= i < |rows| && Sells(rows[i], seller, good) && rows[i].priceMinor.Some? :: p <= rows[i].priceMinor.value
  }

  predicate SomeUnpriced(rows: seq<ListingRow>, seller: Id, good: Id) {
    exists i | 0 <= i < |rows| :: Sells(rows[i], seller, good) && rows[i].priceMinor.None?
  }

  predicate SomePriced(rows: seq<ListingRow>, seller: Id, good: Id) {
    exists i | 0 <= i < |rows| :: Sells(rows[i], seller, good) && rows[i].priceMinor.Some?
  }

  /** The first listing is one of the seller's, and none of them comes before it. */
  lemma {:induction false} FirstListingAt(rows: seq<ListingRow>, seller: Id, good: Id) returns (k: nat)
    requires FirstListing(rows, seller, good).Some?
    ensures k < |rows| && Sells(rows[k], seller, good)
    ensures FirstListing(rows, seller, good) == Some(Found(rows[k].id, rows[k].priceMinor))
    ensures forall i | 0 <= i < k :: !Sells(rows[i], seller, good)
  {
    var init := rows[..|rows| - 1];
    FirstListingExists(init, seller, good);
    if FirstListing(init, seller, good).Some? {
      k := FirstListingAt(init, seller, good);
    } else {
      k := |rows| - 1;
      assert forall i | 0 <= i < |init| :: init[i] == rows[i];
    }
  }

  /**
   * The listing picked for a seller and good is its cheapest exactly when none of the seller's listings
   * of the good is without a price, or all are: one without a price is read, and picked, first.
   */
  lemma FirstIsCheapestIff(rows: seq<ListingRow>, seller: Id, good: Id)
    requires SortedBy(PriceLe, rows) && FirstListing(rows, seller, good).Some?
    ensures IsCheapest(rows, seller, good, FirstListing(rows, seller, good).value)
       <==> !SomeUnpriced(rows, seller, good) || !SomePriced(rows, seller, good)
    ensures SomeUnpriced(rows, seller, good) <==> FirstListing(rows, seller, good).value.price.None?
  {
    var k := FirstListingAt(rows, seller, good);
    forall i | 0 <= i < |rows| && Sells(rows[i], seller, good) ensures i == k || PriceLe(rows[k], rows[i]) {
    }
  }

  /** The same of what the pass over the listings resolved. */
  lemma ResolvedIsCheapestIff(rows: seq<ListingRow>, per: Holders, seller: Id, good: Id)
    requires SortedBy(PriceLe, rows) && Resolved(rows, per) && seller in per && good in per[seller]
    ensures IsCheapest(rows, seller, good, per[seller][good]) <==> !SomeUnpriced(rows, seller, good) || !SomePriced(rows, seller, good)
    ensures per[seller][good].price.None? <==> SomeUnpriced(rows, seller, good)
  {
    assert FirstListing(rows, seller, good) == Get(per, seller, good);
    FirstIsCheapestIff(rows, seller, good);
  }

  /** A seller at five with one more listing without a price ranks behind a seller at a hundred. */
  lemma UnpricedHidesPrice()
    ensures var rows := [ListingRow("u", "s", "g", None), ListingRow("l", "s", "g", Some(5)), ListingRow("m", "t", "g", Some(100))];
            && SortedBy(PriceLe, rows)
            && FirstListing(rows, "s", "g") == Some(Found("u", None)) && FirstListing(rows, "t", "g") == Some(Found("m", Some(100)))
            && var hidden := Candidate("s", map["g" := Found("u", None)], 1, MinPrice(map["g" := Found("u", None)], [BasketLine("g", 1)]));
               var shown := Candidate("t", map["g" := Found("m", Some(100))], 1, MinPrice(map["g" := Found("m", Some(100))], [BasketLine("g", 1)]));
               RanksBefore(shown, hidden) && !RanksBefore(hidden, shown)
  {
    var rows := [ListingRow("u", "s", "g", None), ListingRow("l", "s", "g", Some(5)), ListingRow("m", "t", "g", Some(100))];
    var one, two := [rows[0]], [rows[0], rows[1]];
    assert "s"[0] != "t"[0] && one[..0] == [] && two[..1] == one && rows[..2] == two;
    assert FirstListing(one, "s", "g") == Some(Found("u", None));
    assert FirstListing(two, "s", "g") == Some(Found("u", None));
    FirstListingExists(two, "t", "g");
    assert [BasketLine("g", 1)][1..] == [];
  }

  /** The seller's first match among the first `k`. */
  function FirstMatch(matches: seq<Match>, k: nat, seller: Id): Option<Match>
    requires k <= |matches|
  {
    if k == 0 then None
    else
      match FirstMatch(matches, k - 1, seller)
      case Some(m) => Some(m)
      case None => if matches[k - 1].sellerId == seller then Some(matches[k - 1]) else None
  }

  /** The sellers, and after them those of the first `k` matches, each once, until the cap is reached. */
  function Filled(order: seq<Id>, matches: seq<Match>, k: nat, cap: nat): seq<Id>
    requires k <= |matches|
  {
    if k == 0 then order
    else
      var before, s := Filled(order, matches, k - 1, cap), matches[k - 1].sellerId;
      if |before| >= cap || s in before then before else before + [s]
  }

  /** Either the cap is reached, or every match's seller is in. */
  lemma {:induction false} FilledOrFull(order: seq<Id>, matches: seq<Match>, k: nat, cap: nat)
    requires k <= |matches|
    ensures order <= Filled(order, matches, k, cap)
    ensures |order| <= cap ==> |Filled(order, matches, k, cap)| <= cap
    ensures |Filled(order, matches, k, cap)| >= cap || forall i | 0 <= i < k :: matches[i].sellerId in Filled(order, matches, k, cap)
  {
    if k > 0 {
      FilledOrFull(order, matches, k - 1, cap);
    }
  }

  lemma {:induction false} FilledStops(order: seq<Id>, matches: seq<Match>, j: nat, k: nat, cap: nat)
    requires j <= k <= |matches| && |Filled(order, matches, j, cap)| >= cap
    ensures Filled(order, matches, k, cap) == Filled(order, matches, j, cap)
  {
    if j < k {
      FilledStops(order, matches, j, k - 1, cap);
    }
  }

  lemma {:induction false} FirstMatchStays(matches: seq<Match>, j: nat, k: nat, seller: Id)
    requires j <= k <= |matches| && FirstMatch(matches, j, seller).Some?
    ensures FirstMatch(matches, k, seller) == FirstMatch(matches, j, seller)
  {
    if j < k {
      FirstMatchStays(matches, j, k - 1, seller);
    }
  }

  lemma {:induction false} UnseenHasNoMatch(matches: seq<Match>, k: nat, s: Id)
    requires k <= |matches| && forall i | 0 <= i < k :: matches[i].sellerId != s
    ensures FirstMatch(matches, k, s).None?
  {
    if k > 0 {
      UnseenHasNoMatch(matches, k - 1, s);
    }
  }

  /** The entry comes from the seller's first network match: one listing, no price. */
  predicate MatchedTo(matches: seq<Match>, k: nat, seller: Id, good: Id, found: map<Id, Found>)
    requires k <= |matches|
  {
    var m := FirstMatch(matches, k, seller);
    m.Some? && found == map[good := Found(m.value.listingId, None)]
  }

  /** The first `k` matches were worked in: known sellers stay as they are, new ones have their first match. */
  ghost predicate WorkedIn(order0: seq<Id>, per0: Holders, good: Id, ms: seq<Match>, k: nat, cap: nat, order: seq<Id>, per: Holders)
    requires k <= |ms|
  {
    && Listed(order, per) && order == Filled(order0, ms, k, cap)
    && (forall s | s in per0 :: s in per && per[s] == per0[s])
    && (forall s | s in per && s !in per0 :: MatchedTo(ms, k, s, good, per[s]))
    && (|order| < cap ==> forall i | 0 <= i < k :: ms[i].sellerId in per)
  }

  lemma KnownWorksIn(order0: seq<Id>, per0: Holders, good: Id, ms: seq<Match>, k: nat, cap: nat, order: seq<Id>, per: Holders)
    requires k < |ms| && |order| < cap && WorkedIn(order0, per0, good, ms, k, cap, order, per) && ms[k].sellerId in per
    ensures WorkedIn(order0, per0, good, ms, k + 1, cap, order, per)
  {
    assert ms[k].sellerId in order;
  }

  lemma ListedNext(order: seq<Id>, per: Holders, s: Id, entry: map<Id, Found>)
    requires Listed(order, per) && s !in per && entry != map[]
    ensures s !in order && Listed(order + [s], per[s := entry])
  {
  }

  lemma NewMatched(per0: Holders, good: Id, ms: seq<Match>, k: nat, per: Holders)
    requires k < |ms| && ms[k].sellerId !in per && forall i | 0 <= i < k :: ms[i].sellerId in per
    requires forall s | s in per && s !in per0 :: MatchedTo(ms, k, s, good, per[s])
    ensures var per' := per[ms[k].sellerId := map[good := Found(ms[k].listingId, None)]];
            forall s | s in per' && s !in per0 :: MatchedTo(ms, k + 1, s, good, per'[s])
  {
    UnseenHasNoMatch(ms, k, ms[k].sellerId);
  }

  lemma NewWorksIn(order0: seq<Id>, per0: Holders, good: Id, ms: seq<Match>, k: nat, cap: nat, order: seq<Id>, per: Holders)
    requires k < |ms| && |order| < cap && WorkedIn(order0, per0, good, ms, k, cap, order, per) && ms[k].sellerId !in per
    ensures WorkedIn(order0, per0, good, ms, k + 1, cap, order + [ms[k].sellerId], per[ms[k].sellerId := map[good := Found(ms[k].listingId, None)]])
  {
    var entry := map[good := Found(ms[k].listingId, None)];
    assert good in entry;
    ListedNext(order, per, ms[k].sellerId, entry);
    NewMatched(per0, good, ms, k, per);
  }

  lemma WorkedInFull(order0: seq<Id>, per0: Holders, good: Id, ms: seq<Match>, k: nat, cap: nat, order: seq<Id>, per: Holders)
    requires k <= |ms| && |order| >= cap && WorkedIn(order0, per0, good, ms, k, cap, order, per)
    ensures WorkedIn(order0, per0, good, ms, |ms|, cap, order, per)
  {
    FilledStops(order0, ms, k, |ms|, cap);
    forall s | s in per && s !in per0 ensures MatchedTo(ms, |ms|, s, good, per[s]) {
      FirstMatchStays(ms, k, |ms|, s);
    }
  }

  /** Filling up with network matches: sellers not found yet, in match order, until the cap is reached. */
  method AddMatches(order0: seq<Id>, per0: Holders, good: Id, matches: seq<Match>, cap: nat) returns (order: seq<Id>, per: Holders)
    requires Listed(order0, per0) && |order0| <= cap
    ensures Listed(order, per) && |order| <= cap && order == Filled(order0, matches, |matches|, cap)
    ensures forall s | s in per0 :: s in per && per[s] == per0[s]
    ensures forall s | s in per && s !in per0 :: MatchedTo(matches, |matches|, s, good, per[s])
    ensures |order| == cap || forall i | 0 <= i < |matches| :: matches[i].sellerId in per
  {
    order, per := order0, per0;
    FilledOrFull(order0, matches, |matches|, cap);
    for k := 0 to |matches|
      invariant WorkedIn(order0, per0, good, matches, k, cap, order, per)
    {
      if |order| >= cap {
        WorkedInFull(order0, per0, good, matches, k, cap, order, per);
        return;
      }
      var m := matches[k];
      if m.sellerId in per {
        KnownWorksIn(order0, per0, good, matches, k, cap, order, per);
      } else {
        NewWorksIn(order0, per0, good, matches, k, cap, order, per);
        order := order + [m.sellerId];
        per := per[m.sellerId := map[good := Found(m.listingId, None)]];
      }
    }
  }

  // ---- Ranking ----

  /** The lowest known price over the basket's goods. */
  function MinPrice(found: map<Id, Found>, basket: seq<BasketLine>): Option<nat> {
    if basket == [] then None
    else
      var rest := MinPrice(found, basket[1..]);
      var g := basket[0].goodId;
      if g !in found || found[g].price.None? then rest
      else if rest.None? || found[g].price.value <= rest.value then found[g].price
      else rest
  }

  /** It is the minimum of the seller's prices, and missing only if there are none. */
  lemma {:induction false} MinPriceIsMin(found: map<Id, Found>, basket: seq<BasketLine>)
    ensures match MinPrice(found, basket)
            case None => forall i | 0 <= i < |basket| :: basket[i].goodId in found ==> found[basket[i].goodId].price.None?
            case Some(p) =>
              && (exists i | 0 <= i < |basket| :: basket[i].goodId in found && found[basket[i].goodId].price == Some(p))
              && forall i | 0 <= i < |basket| && basket[i].goodId in found && found[basket[i].goodId].price.Some? ::
                   p <= found[basket[i].goodId].price.value
  {
    if basket != [] {
      MinPriceIsMin(found, basket[1..]);
      var rest := MinPrice(found, basket[1..]);
      assert forall i | 0 < i < |basket| :: basket[i] == basket[1..][i - 1];
      if MinPrice(found, basket) == rest && rest.Some? {
        var i :| 0 <= i < |basket[1..]| && basket[1..][i].goodId in found && found[basket[1..][i].goodId].price == rest;
        assert basket[i + 1].goodId in found && found[basket[i + 1].goodId].price == rest;
      }
    }
  }

  datatype Candidate = Candidate(sellerId: Id, found: map<Id, Found>, cover: nat, min: Option<nat>)

  predicate MinLe(a: Option<nat>, b: Option<nat>) {
    b.None? || (a.Some? && a.value <= b.value)
  }

  /** More of the basket first, then cheaper; no price at all counts as infinitely dear. */
  predicate RanksBefore(a: Candidate, b: Candidate) {
    a.cover > b.cover || (a.cover == b.cover && MinLe(a.min, b.min))
  }

  /** Sending a group again looks at coverage only. */
  predicate CoversMore(a: Candidate, b: Candidate) { a.cover >= b.cover }

  lemma RankingIsPreorder()
    ensures TotalPreorder(RanksBefore) && TotalPreorder(CoversMore)
  {
  }

  function Candidates(order: seq<Id>, per: Holders, basket: seq<BasketLine>): seq<Candidate>
    requires forall s | s in order :: s in per
  {
    seq(|order|, i requires 0 <= i < |order| =>
      Candidate(order[i], per[order[i]], |per[order[i]]|, MinPrice(per[order[i]], basket)))
  }

  function Least(a: nat, b: nat): nat { if a <= b then a else b }

  type Ranking = (Candidate, Candidate) -> bool

  /** The cap-many best candidates. */
  function Chosen(le: Ranking, cands: seq<Candidate>, cap: nat): seq<Candidate> {
    StableSort(le, cands)[..Least(cap, |cands|)]
  }

  predicate DistinctSellers(cands: seq<Candidate>) {
    forall i, j | 0 <= i < j < |cands| :: cands[i].sellerId != cands[j].sellerId
  }

  /** Choosing is a true top-k: no one left out ranks strictly before anyone chosen, and no one is chosen twice. */
  lemma ChosenIsTopK(le: Ranking, cands: seq<Candidate>, cap: nat)
    requires TotalPreorder(le) && DistinctSellers(cands)
    ensures var chosen := Chosen(le, cands, cap);
            && |chosen| == Least(cap, |cands|)
            && (forall c | c in chosen :: c in cands)
            && DistinctSellers(chosen) && SortedBy(le, chosen)
            && forall c, left | c in chosen && left in cands && left !in chosen :: le(c, left)
  {
    ChosenAreSome(le, cands, cap);
    SortSorts(le, cands);
    SortedSellersDiffer(le, cands);
    var chosen := Chosen(le, cands, cap);
    forall c, left | c in chosen && left in cands && left !in chosen ensures le(c, left) {
      ChosenBeforeLeft(le, cands, cap, c, left);
    }
  }

  lemma ChosenAreSome(le: Ranking, cands: seq<Candidate>, cap: nat)
    ensures |Chosen(le, cands, cap)| == Least(cap, |cands|) && forall c | c in Chosen(le, cands, cap) :: c in cands
  {
    SortPermutes(le, cands);
  }

  lemma ChosenBeforeLeft(le: Ranking, cands: seq<Candidate>, cap: nat, c: Candidate, left: Candidate)
    requires SortedBy(le, StableSort(le, cands)) && c in Chosen(le, cands, cap) && left in cands && left !in Chosen(le, cands, cap)
    ensures le(c, left)
  {
    var sorted, k := StableSort(le, cands), Least(cap, |cands|);
    SortPermutes(le, cands);
    var i :| 0 <= i < k && sorted[i] == c;
    var j :| 0 <= j < |sorted| && sorted[j] == left;
    assert sorted == sorted[..k] + sorted[k..];
  }

  /** Two places of the sorted list hold two different sellers. */
  lemma SortedSellersDiffer(le: Ranking, cands: seq<Candidate>)
    requires DistinctSellers(cands)
    ensures DistinctSellers(StableSort(le, cands))
  {
    var seller := (c: Candidate) => c.sellerId;
    assert DistinctBy(seller, cands);
    SortDistinct(le, seller, cands);
    var sorted := StableSort(le, cands);
    assert forall i, j | 0 <= i < j < |sorted| :: seller(sorted[i]) != seller(sorted[j]);
  }

  function RecipientOf(c: Candidate): Recipient {
    Recipient(c.sellerId, map g | g in c.found :: c.found[g].listingId)
  }

  function RecipientsOf(cands: seq<Candidate>): seq<Recipient> {
    seq(|cands|, i requires 0 <= i < |cands| => RecipientOf(cands[i]))
  }

  // ---- The snapshot each recipient gets ----

  function CoveredLines(items: seq<RfqItem>): nat {
    if items == [] then 0 else CoveredLines(items[..|items| - 1]) + if items[|items| - 1].listingId.Some? then 1 else 0
  }

  lemma {:induction false} CoveredInBasket(listings: map<Id, Id>, basket: seq<BasketLine>)
    requires NoDuplicates(basket)
    ensures |listings.Keys * GoodsOf(basket)| == CoveredLines(Snapshot(basket, listings))
  {
    if basket == [] {
      assert listings.Keys * GoodsOf(basket) == {};
    } else {
      var n := |basket| - 1;
      var init, last := basket[..n], basket[n].goodId;
      CoveredInBasket(listings, init);
      assert Snapshot(basket, listings)[..n] == Snapshot(init, listings);
      GoodsOfLast(basket);
      assert last !in GoodsOf(init);
      OneMore(listings.Keys, GoodsOf(init), last);
      assert Snapshot(basket, listings)[n].listingId.Some? <==> last in listings;
    }
  }

  lemma OneMore(keys: set<Id>, goods: set<Id>, g: Id)
    requires g !in goods
    ensures |keys * (goods + {g})| == |keys * goods| + if g in keys then 1 else 0
  {
    if g in keys {
      assert keys * (goods + {g}) == keys * goods + {g};
    } else {
      assert keys * (goods + {g}) == keys * goods;
    }
  }

  lemma GoodsOfLast(basket: seq<BasketLine>)
    requires basket != []
    ensures GoodsOf(basket) == GoodsOf(basket[..|basket| - 1]) + {basket[|basket| - 1].goodId}
  {
  }

  /** The coverage sellers are ranked by is the number of lines of the stored snapshot they can price. */
  lemma CoverageIsCovered(c: Candidate, basket: seq<BasketLine>)
    requires NoDuplicates(basket) && HoldsSome(c, basket)
    ensures c.cover == CoveredLines(Snapshot(basket, RecipientOf(c).listings))
  {
    var listings := RecipientOf(c).listings;
    CoveredInBasket(listings, basket);
    assert listings.Keys == c.found.Keys && c.found.Keys * GoodsOf(basket) == c.found.Keys;
    assert |c.found.Keys| == |c.found|;
  }

  /** A seller who holds some good of the basket always gets a row. */
  lemma {:induction false} HolderIsCovered(basket: seq<BasketLine>, listings: map<Id, Id>, i: nat)
    requires i < |basket| && basket[i].goodId in listings
    ensures FirstCovered(Snapshot(basket, listings)).Some?
  {
    var items := Snapshot(basket, listings);
    if items[0].listingId.None? {
      assert items[1..] == Snapshot(basket[1..], listings);
      HolderIsCovered(basket[1..], listings, i - 1);
    }
  }

  /** Every candidate holds at least one good of the basket and nothing outside it. */
  predicate HoldsSome(c: Candidate, basket: seq<BasketLine>) {
    c.found != map[] && c.cover == |c.found| && c.min == MinPrice(c.found, basket) && c.found.Keys <= GoodsOf(basket)
  }

  lemma HolderGetsRow(c: Candidate, buyer: Id, basket: seq<BasketLine>, group: Key, expiresAt: int, now: int)
    requires basket != [] && HoldsSome(c, basket)
    ensures NewRow(buyer, RecipientOf(c), basket, group, expiresAt, now).Some?
  {
    var g :| g in c.found;
    var i :| 0 <= i < |basket| && basket[i].goodId == g;
    HolderIsCovered(basket, RecipientOf(c).listings, i);
  }

  /** The candidate's listings are the query's first ones, or a network match on the single-good path. */
  ghost predicate Explained(req: Request, rows: seq<ListingRow>, matches: seq<Match>, c: Candidate) {
    || (forall g :: FirstListing(rows, c.sellerId, g) == if g in c.found then Some(c.found[g]) else None)
    || (!Multi(req) && req.includeNetwork && Basket(req) != [] && MatchedTo(matches, |matches|, c.sellerId, Basket(req)[0].goodId, c.found)
        && forall g :: FirstListing(rows, c.sellerId, g).None?)
  }

  ghost predicate Queried(rows: seq<ListingRow>, seller: Id) {
    exists g :: FirstListing(rows, seller, g).Some?
  }

  function SellersOf(cands: seq<Candidate>): seq<Id> { seq(|cands|, i requires 0 <= i < |cands| => cands[i].sellerId) }

  predicate UsesNetwork(req: Request) { !Multi(req) && req.includeNetwork }

  /** First the query's `n` holders, then, below the cap, the sellers of the network matches in order. */
  ghost predicate FilledUp(req: Request, rows: seq<ListingRow>, matches: seq<Match>, sellers: seq<Id>, n: nat) {
    && n <= |sellers|
    && (forall s :: s in sellers[..n] <==> Queried(rows, s))
    && sellers == if UsesNetwork(req) && n < Cap(req) then Filled(sellers[..n], matches, |matches|, Cap(req)) else sellers[..n]
  }

  /** The candidates of a request: every holder the query found, filled up from the network to the cap. */
  ghost predicate AreCandidates(req: Request, rows: seq<ListingRow>, matches: seq<Match>, cands: seq<Candidate>) {
    && DistinctSellers(cands)
    && (forall i | 0 <= i < |cands| :: HoldsSome(cands[i], Basket(req)) && Explained(req, rows, matches, cands[i]))
    && exists n: nat :: FilledUp(req, rows, matches, SellersOf(cands), n)
  }

  /** Every holder is a candidate, and with the network on, the cap is reached or every match's seller is one too. */
  lemma NetworkFillsUp(req: Request, rows: seq<ListingRow>, matches: seq<Match>, cands: seq<Candidate>)
    requires AreCandidates(req, rows, matches, cands)
    ensures forall s | Queried(rows, s) :: s in SellersOf(cands)
    ensures UsesNetwork(req) ==> |cands| >= Cap(req) || forall i | 0 <= i < |matches| :: matches[i].sellerId in SellersOf(cands)
    ensures |cands| > Cap(req) || !UsesNetwork(req) ==> forall i | 0 <= i < |cands| :: Queried(rows, cands[i].sellerId)
  {
    var sellers := SellersOf(cands);
    var n: nat :| FilledUp(req, rows, matches, sellers, n);
    FilledOrFull(sellers[..n], matches, |matches|, Cap(req));
    forall s | Queried(rows, s) ensures s in sellers {
      assert s in sellers[..n];
    }
    if |cands| > Cap(req) || !UsesNetwork(req) {
      forall i | 0 <= i < |cands| ensures Queried(rows, cands[i].sellerId) {
        assert sellers[..n][i] == sellers[i];
      }
    }
  }

  lemma QueriedGoods(goods: set<Id>, rows: seq<ListingRow>, per: Holders)
    requires Resolved(rows, per) && forall r | r in rows :: r.goodId in goods
    ensures forall s | s in per :: per[s].Keys <= goods
  {
    forall s, g | s in per && g in per[s] ensures g in goods {
      assert FirstListing(rows, s, g) == Get(per, s, g);
      FirstListingExists(rows, s, g);
      var i :| 0 <= i < |rows| && rows[i].businessId == s && rows[i].goodId == g;
      assert rows[i] in rows;
    }
  }

  lemma HoldersQueried(rows: seq<ListingRow>, order: seq<Id>, per: Holders)
    requires Resolved(rows, per) && Listed(order, per)
    ensures forall s :: s in order <==> Queried(rows, s)
  {
    forall s ensures s in order <==> Queried(rows, s) {
      if s in per {
        var g :| g in per[s];
        assert FirstListing(rows, s, g) == Get(per, s, g);
      }
      if Queried(rows, s) {
        var g :| FirstListing(rows, s, g).Some?;
        assert FirstListing(rows, s, g) == Get(per, s, g);
      }
    }
  }

  lemma CandidateIs(req: Request, rows: seq<ListingRow>, matches: seq<Match>, found: Holders, s: Id, entry: map<Id, Found>)
    requires Resolved(rows, found) && Basket(req) != []
    requires if s in found then entry == found[s] else UsesNetwork(req) && MatchedTo(matches, |matches|, s, Basket(req)[0].goodId, entry)
    requires entry != map[] && entry.Keys <= GoodsOf(Basket(req))
    ensures var c := Candidate(s, entry, |entry|, MinPrice(entry, Basket(req)));
            HoldsSome(c, Basket(req)) && Explained(req, rows, matches, c)
  {
    assert forall g :: FirstListing(rows, s, g) == Get(found, s, g);
  }

  lemma CandidatesAre(req: Request, rows: seq<ListingRow>, matches: seq<Match>, order0: seq<Id>, found: Holders, order: seq<Id>, per: Holders)
    requires Resolved(rows, found) && Listed(order0, found) && Listed(order, per)
    requires Basket(req) != [] && forall s | s in per :: per[s].Keys <= GoodsOf(Basket(req))
    requires if UsesNetwork(req) && |order0| < Cap(req) then order == Filled(order0, matches, |matches|, Cap(req)) else order == order0
    requires forall s | s in per ::
               if s in found then per[s] == found[s] else UsesNetwork(req) && MatchedTo(matches, |matches|, s, Basket(req)[0].goodId, per[s])
    ensures AreCandidates(req, rows, matches, Candidates(order, per, Basket(req)))
  {
    var cands := Candidates(order, per, Basket(req));
    forall i | 0 <= i < |cands| ensures HoldsSome(cands[i], Basket(req)) && Explained(req, rows, matches, cands[i]) {
      assert order[i] in order;
      CandidateIs(req, rows, matches, found, order[i], per[order[i]]);
    }
    assert SellersOf(cands) == order;
    FilledFrom(req, rows, matches, order0, found, order);
  }

  lemma FilledFrom(req: Request, rows: seq<ListingRow>, matches: seq<Match>, order0: seq<Id>, found: Holders, order: seq<Id>)
    requires Resolved(rows, found) && Listed(order0, found)
    requires if UsesNetwork(req) && |order0| < Cap(req) then order == Filled(order0, matches, |matches|, Cap(req)) else order == order0
    ensures FilledUp(req, rows, matches, order, |order0|)
  {
    HoldersQueried(rows, order0, found);
    FilledOrFull(order0, matches, |matches|, Cap(req));
    assert order[..|order0|] == order0;
  }

  method FindCandidates(req: Request, buyer: Id, rows: seq<ListingRow>, matches: seq<Match>) returns (cands: seq<Candidate>)
    requires Basket(req) != [] && IsHolderQuery(req, buyer, rows)
    ensures AreCandidates(req, rows, matches, cands)
  {
    var basket := Basket(req);
    var order, per := ResolveHolders(rows);
    ghost var order0, found := order, per;
    QueriedGoods(GoodsOf(basket), rows, per);
    if !Multi(req) && req.includeNetwork && |order| < Cap(req) {
      assert basket[0].goodId in GoodsOf(basket);
      order, per := AddMatches(order, per, basket[0].goodId, matches, Cap(req));
    }
    CandidatesAre(req, rows, matches, order0, found, order, per);
    cands := Candidates(order, per, basket);
  }

  lemma AllGetRows(chosen: seq<Candidate>, buyer: Id, basket: seq<BasketLine>, group: Key, expiresAt: int, now: int)
    requires basket != [] && forall c | c in chosen :: HoldsSome(c, basket)
    ensures forall x | x in RecipientsOf(chosen) :: NewRow(buyer, x, basket, group, expiresAt, now).Some?
  {
    var recipients := RecipientsOf(chosen);
    forall x | x in recipients ensures NewRow(buyer, x, basket, group, expiresAt, now).Some? {
      var i :| 0 <= i < |recipients| && recipients[i] == x;
      assert chosen[i] in chosen;
      HolderGetsRow(chosen[i], buyer, basket, group, expiresAt, now);
    }
  }

  function ExpiresAt(req: Request, now: int): int {
    now + ClampInt(req.expiresDays.GetOr(3), 1, 5) * DAY_MS
  }

  /**
   * The request: refused, or fanned out to exactly the cap-many best holders, one row each. The
   * branch that skips a recipient without any covered line never fires.
   */
  method RequestQuote(market: MarketController, req: Request, buyer: Id, goods: set<Id>, rows: seq<ListingRow>, matches: seq<Match>,
                      group: Key, ids: seq<Key>, now: int)
    returns (r: Result<seq<Key>, RequestError>, ghost cands: seq<Candidate>)
    requires IsHolderQuery(req, buyer, rows) && |ids| == Cap(req)
    modifies market`inquiries
    ensures r.Err? <==> Refusal(req, goods).Some?
    ensures r.Err? ==> Some(r.error) == Refusal(req, goods) && market.inquiries == old(market.inquiries)
    ensures r.Ok? ==>
              && AreCandidates(req, rows, matches, cands)
              && |r.value| == Least(Cap(req), |cands|)
              && (UsesNetwork(req) ==> |r.value| == Cap(req) || forall i | 0 <= i < |matches| :: matches[i].sellerId in SellersOf(cands))
              && r.value == ids[..|r.value|]
              && market.inquiries == WithRows(old(market.inquiries), r.value, buyer, RecipientsOf(Chosen(RanksBefore, cands, Cap(req))),
                                              Basket(req), group, ExpiresAt(req, now), now)
  {
    cands := [];
    var refused := Refusal(req, goods);
    if refused.Some? {
      return Err(refused.value), cands;
    }
    var basket := Basket(req);
    var found := FindCandidates(req, buyer, rows, matches);
    cands := found;
    NetworkFillsUp(req, rows, matches, found);
    RankingIsPreorder();
    ChosenIsTopK(RanksBefore, found, Cap(req));
    if found == [] {
      return Ok([]), cands;
    }
    var chosen := Chosen(RanksBefore, found, Cap(req));
    var recipients := RecipientsOf(chosen);
    var expiresAt := ExpiresAt(req, now);
    assert forall c | c in chosen :: HoldsSome(c, basket);
    AllGetRows(chosen, buyer, basket, group, expiresAt, now);
    var created := market.CreateRows(ids[..|chosen|], buyer, recipients, basket, group, expiresAt, now);
    r := Ok(created);
  }

  // ---- Sending a group again ----

  const REPEAT_CAP := 15

  /** The sell listings others have for the basket's goods. */
  function HolderRows(listings: seq<ListingRow>, goods: set<Id>, buyer: Id): seq<ListingRow> {
    Filter((r: ListingRow) => r.goodId in goods && r.businessId != buyer, listings)
  }

  /** Every holder of a good of the basket once, with its first listing of each. */
  ghost predicate AreHolders(rows: seq<ListingRow>, basket: seq<BasketLine>, cands: seq<Candidate>) {
    && DistinctSellers(cands)
    && (forall c | c in cands :: HoldsSome(c, basket) && forall g :: FirstListing(rows, c.sellerId, g) == if g in c.found then Some(c.found[g]) else None)
    && (forall s, g :: FirstListing(rows, s, g).Some? ==> exists c :: c in cands && c.sellerId == s)
  }

  lemma HoldersAre(rows: seq<ListingRow>, basket: seq<BasketLine>, order: seq<Id>, per: Holders)
    requires Resolved(rows, per) && Listed(order, per) && forall r | r in rows :: r.goodId in GoodsOf(basket)
    ensures AreHolders(rows, basket, Candidates(order, per, basket))
  {
    var cands := Candidates(order, per, basket);
    QueriedGoods(GoodsOf(basket), rows, per);
    forall c | c in cands
      ensures HoldsSome(c, basket) && forall g :: FirstListing(rows, c.sellerId, g) == if g in c.found then Some(c.found[g]) else None
    {
      var i :| 0 <= i < |cands| && cands[i] == c;
      assert order[i] in order;
      assert forall g :: FirstListing(rows, c.sellerId, g) == Get(per, c.sellerId, g);
    }
    forall s, g | FirstListing(rows, s, g).Some? ensures exists c :: c in cands && c.sellerId == s {
      assert Get(per, s, g).Some?;
      var i :| 0 <= i < |order| && order[i] == s;
      assert cands[i] in cands && cands[i].sellerId == s;
    }
  }

  method FindHolders(listings: seq<ListingRow>, basket: seq<BasketLine>, buyer: Id) returns (cands: seq<Candidate>)
    ensures AreHolders(HolderRows(listings, GoodsOf(basket), buyer), basket, cands)
  {
    var rows := HolderRows(listings, GoodsOf(basket), buyer);
    FilterMembers((r: ListingRow) => r.goodId in GoodsOf(basket) && r.businessId != buyer, listings);
    var order, per := ResolveHolders(rows);
    HoldersAre(rows, basket, order, per);
    cands := Candidates(order, per, basket);
  }

  /** One row each for the holders that cover most, as far as the cap goes. */
  method SendAgain(market: MarketController, biz: Id, basket: seq<BasketLine>, holders: seq<Candidate>, group: Key, ids: seq<Key>, now: int)
    returns (created: seq<Key>)
    requires basket != [] && |ids| == REPEAT_CAP && DistinctSellers(holders) && forall c | c in holders :: HoldsSome(c, basket)
    modifies market`inquiries
    ensures created == ids[..Least(REPEAT_CAP, |holders|)]
    ensures market.inquiries == WithRows(old(market.inquiries), created, biz, RecipientsOf(Chosen(CoversMore, holders, REPEAT_CAP)), basket, group, now + 3 * DAY_MS, now)
  {
    ChosenAreSome(CoversMore, holders, REPEAT_CAP);
    var sellers := Chosen(CoversMore, holders, REPEAT_CAP);
    AllGetRows(sellers, biz, basket, group, now + 3 * DAY_MS, now);
    created := market.CreateRows(ids[..|sellers|], biz, RecipientsOf(sellers), basket, group, now + 3 * DAY_MS, now);
  }

  /** What sending a group again to its holders leaves, given the row its basket was read from, found by a query of its own. */
  ghost predicate SentAgain(before: Db, after: Db, owned: set<Id>, biz: Id, g: Key, seen: Option<Key>, mine: Option<Key>,
                            src: Option<Key>, cands: seq<Candidate>, group: Key, ids: seq<Key>, now: int, r: Result<seq<Key>, Error>)
    requires |ids| == REPEAT_CAP
  {
    if cands == [] then r == Err(NoHolder) && after == before
    else
      && r == Ok(ids[..Least(REPEAT_CAP, |cands|)])
      && after == RepeatGroup(before, owned, biz, g, seen, mine, src, RecipientsOf(Chosen(CoversMore, cands, REPEAT_CAP)), group, r.value, now)
  }

  /**
   * The whole basket goes to the at most fifteen holders that cover most of it, in a new group, with
   * one row each; without holders the request is refused. `listings` are all sell listings, cheapest first.
   */
  method RepeatRfq(market: MarketController, owned: set<Id>, biz: Id, g: Key, listings: seq<ListingRow>, group: Key, ids: seq<Key>, now: int)
    returns (r: Result<seq<Key>, Error>, seen: Option<Key>, mine: Option<Key>, src: Option<Key>, ghost cands: seq<Candidate>)
    requires |ids| == REPEAT_CAP && SortedBy(PriceLe, listings)
    modifies market`inquiries
    ensures IsFirst(old(market.inquiries), g, seen) && IsMine(old(market.inquiries), biz, g, mine)
    ensures match GroupFor(old(market.inquiries), owned, biz, g, seen, mine)
            case Err(e) => r == Err(e) && market.State() == old(market.State())
            case Ok(_) =>
              && IsFirst(old(market.inquiries), g, src) && src.Some?
              && var basket := BasketOf(old(market.inquiries)[src.value]);
                 && AreHolders(HolderRows(listings, GoodsOf(basket), biz), basket, cands)
                 && SentAgain(old(market.State()), market.State(), owned, biz, g, seen, mine, src, cands, group, ids, now, r)
  {
    cands := [];
    var found;
    found, seen, mine := market.RfqGroupOf(owned, biz, g);
    if found.Err? {
      return Err(found.error), seen, mine, None, cands;
    }
    src := market.FindFirst(g);
    var basket := BasketOf(market.inquiries[src.value]);
    var holders := FindHolders(listings, basket, biz);
    cands := holders;
    if holders == [] {
      return Err(NoHolder), seen, mine, src, cands;
    }
    var created := SendAgain(market, biz, basket, holders, group, ids, now);
    r := Ok(created);
  }
}
