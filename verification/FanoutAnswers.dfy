/** Who is sent a price request, and with what, in terms of the request itself. */
module FanoutAnswers {
  import opened Wrappers
  import opened Sorting
  import opened Rfq
  import opened RfqAnswers
  import opened RfqFanout

  /** A sent quantity, between one and a thousand million. */
  function Quantity(v: int): nat { if v < 1 then 1 else if v <= 1_000_000_000 then v else 1_000_000_000 }

  /** The lines of a request: its items in order, or the one good of an old client. */
  predicate IsBasket(req: Request, basket: seq<BasketLine>) {
    if req.items != [] then
      && |basket| == |req.items|
      && forall i | 0 <= i < |basket| :: basket[i].goodId == req.items[i].0 && basket[i].qty == Quantity(req.items[i].1)
    else if req.goodId.Some? && req.volume != 0 then
      |basket| == 1 && basket[0].goodId == req.goodId.value && basket[0].qty == Quantity(req.volume)
    else basket == []
  }

  lemma BasketIs(req: Request)
    ensures IsBasket(req, Basket(req))
  {
  }

  /** Fifteen sellers for a list of items, five for a single good. */
  lemma CapIs(req: Request)
    ensures Cap(req) == if req.items == [] then 5 else 15
  {
  }

  /**
   * A request is refused without lines, for a good named twice, for an unknown good, and, for a single
   * good, with neither suppliers nor the network to ask; the first of these is the answer.
   */
  lemma RefusedIs(req: Request, goods: set<Id>)
    ensures var basket := Basket(req);
            var twice := exists i, j | 0 <= i < j < |basket| :: basket[i].goodId == basket[j].goodId;
            var unknown := exists i | 0 <= i < |basket| :: basket[i].goodId !in goods;
            var nobody := req.items == [] && req.supplierIds == [] && !req.includeNetwork;
            Refusal(req, goods) == if basket == [] then Some(EmptyBasket)
                                   else if twice then Some(DuplicateItem)
                                   else if unknown then Some(GoodNotFound)
                                   else if nobody then Some(NoRecipient)
                                   else None
  {
  }

  /** The answer is awaited for one to five days, three unless asked otherwise. */
  lemma ExpiryIs(req: Request, now: int)
    ensures var days := (match req.expiresDays case None => 3 case Some(d) => if d < 1 then 1 else if d > 5 then 5 else d);
            ExpiresAt(req, now) == now + days * 24 * 60 * 60 * 1000
  {
  }

  /** Who is looked up: other businesses selling something asked for, cheapest first, and for a single good only the suppliers named, if any are. */
  lemma HoldersAskedFor(req: Request, buyer: Id, rows: seq<ListingRow>)
    ensures IsHolderQuery(req, buyer, rows) <==>
              && SortedBy(PriceLe, rows)
              && forall r | r in rows ::
                   && r.businessId != buyer && (exists i | 0 <= i < |Basket(req)| :: Basket(req)[i].goodId == r.goodId)
                   && (req.items == [] && req.supplierIds != [] ==> r.businessId in req.supplierIds)
  {
  }

  /** `a` is to be asked before `b`: it covers more lines, or as many at a lower known price. */
  predicate Better(a: Candidate, b: Candidate) {
    || a.cover > b.cover
    || (a.cover == b.cover && a.min.Some? && (b.min.Some? ==> a.min.value < b.min.value))
  }

  /** No seller left out of a request is better than one asked. */
  lemma BestAreAsked(cands: seq<Candidate>, cap: nat)
    requires DistinctSellers(cands)
    ensures var chosen := Chosen(RanksBefore, cands, cap);
            && |chosen| == (if |cands| < cap then |cands| else cap) && DistinctSellers(chosen) && (forall c | c in chosen :: c in cands)
            && forall c, left | c in chosen && left in cands && left !in chosen :: !Better(left, c)
  {
    RankingIsPreorder();
    ChosenIsTopK(RanksBefore, cands, cap);
  }

  /** Nor does one left out of a repeated request cover more than one asked, of whom there are at most fifteen. */
  lemma MostCoveringAreAsked(cands: seq<Candidate>)
    requires DistinctSellers(cands)
    ensures var chosen := Chosen(CoversMore, cands, REPEAT_CAP);
            && |chosen| == (if |cands| < 15 then |cands| else 15) && DistinctSellers(chosen) && (forall c | c in chosen :: c in cands)
            && forall c, left | c in chosen && left in cands && left !in chosen :: left.cover <= c.cover
  {
    RankingIsPreorder();
    ChosenIsTopK(CoversMore, cands, REPEAT_CAP);
  }

  /** The network is asked for a single good only, and only if the request says so. */
  lemma NetworkIsOptional(req: Request, rows: seq<ListingRow>, matches: seq<Match>, cands: seq<Candidate>)
    requires AreCandidates(req, rows, matches, cands)
    ensures req.items != [] || !req.includeNetwork ==> forall c | c in cands :: exists r :: r in rows && r.businessId == c.sellerId
  {
    NetworkFillsUp(req, rows, matches, cands);
    if req.items != [] || !req.includeNetwork {
      forall c | c in cands ensures exists r :: r in rows && r.businessId == c.sellerId {
        var i :| 0 <= i < |cands| && cands[i] == c;
        assert Queried(rows, cands[i].sellerId);
        var g :| FirstListing(rows, c.sellerId, g).Some?;
        FirstListingExists(rows, c.sellerId, g);
        var k :| 0 <= k < |rows| && rows[k].businessId == c.sellerId && rows[k].goodId == g;
        assert rows[k] in rows;
      }
    }
  }

  /** Row `i` is the seller's first listing of the good, at its price. */
  predicate IsFirstOf(rows: seq<ListingRow>, seller: Id, good: Id, i: nat, f: Found) {
    && i < |rows| && rows[i].businessId == seller && rows[i].goodId == good && f.listingId == rows[i].id && f.price == rows[i].priceMinor
    && forall j | 0 <= j < i :: rows[j].businessId != seller || rows[j].goodId != good
  }

  /** What was found are the seller's first listings, one for each good it sells. */
  predicate AreFirsts(rows: seq<ListingRow>, seller: Id, found: map<Id, Found>) {
    && (forall i | 0 <= i < |rows| && rows[i].businessId == seller :: rows[i].goodId in found)
    && forall g | g in found :: exists i | 0 <= i < |rows| :: IsFirstOf(rows, seller, g, i, found[g])
  }

  lemma FirstsAre(rows: seq<ListingRow>, seller: Id, found: map<Id, Found>)
    requires forall g :: FirstListing(rows, seller, g) == if g in found then Some(found[g]) else None
    ensures AreFirsts(rows, seller, found)
  {
    forall i | 0 <= i < |rows| && rows[i].businessId == seller ensures rows[i].goodId in found {
      FirstListingExists(rows, seller, rows[i].goodId);
    }
    forall g | g in found ensures exists i | 0 <= i < |rows| :: IsFirstOf(rows, seller, g, i, found[g]) {
      var k := FirstListingAt(rows, seller, g);
      assert IsFirstOf(rows, seller, g, k, found[g]);
    }
  }

  /** Match `i` is the network's first for the seller. */
  predicate IsFirstMatch(matches: seq<Match>, seller: Id, i: nat) {
    i < |matches| && matches[i].sellerId == seller && forall j | 0 <= j < i :: matches[j].sellerId != seller
  }

  lemma {:induction false} FirstMatchIs(matches: seq<Match>, k: nat, seller: Id) returns (i: nat)
    requires k <= |matches| && FirstMatch(matches, k, seller).Some?
    ensures i < k && IsFirstMatch(matches, seller, i) && FirstMatch(matches, k, seller) == Some(matches[i])
  {
    if FirstMatch(matches, k - 1, seller).Some? {
      i := FirstMatchIs(matches, k - 1, seller);
    } else {
      i := k - 1;
      NoMatchBefore(matches, k - 1, seller);
    }
  }

  lemma {:induction false} NoMatchBefore(matches: seq<Match>, k: nat, seller: Id)
    requires k <= |matches| && FirstMatch(matches, k, seller).None?
    ensures forall j | 0 <= j < k :: matches[j].sellerId != seller
  {
    if k > 0 {
      NoMatchBefore(matches, k - 1, seller);
    }
  }

  /** A candidate has its first listings of the goods asked for, or, from the network, its first match for the single good, without a price. */
  lemma FoundIs(req: Request, rows: seq<ListingRow>, matches: seq<Match>, cands: seq<Candidate>, k: nat)
    requires AreCandidates(req, rows, matches, cands) && k < |cands|
    ensures var c := cands[k];
            || AreFirsts(rows, c.sellerId, c.found)
            || (req.items == [] && req.includeNetwork && req.goodId.Some? && exists i | 0 <= i < |matches| ::
                  IsFirstMatch(matches, c.sellerId, i) && c.found == map[req.goodId.value := Found(matches[i].listingId, None)])
    ensures cands[k].cover == |cands[k].found| > 0 && cands[k].min == MinPrice(cands[k].found, Basket(req))
  {
    var c := cands[k];
    assert HoldsSome(c, Basket(req)) && Explained(req, rows, matches, c);
    if forall g :: FirstListing(rows, c.sellerId, g) == if g in c.found then Some(c.found[g]) else None {
      FirstsAre(rows, c.sellerId, c.found);
    } else {
      var i := FirstMatchIs(matches, |matches|, c.sellerId);
    }
  }

  /** So has a holder asked again, and every seller of a good of the basket is one. */
  lemma HoldersFoundAre(rows: seq<ListingRow>, basket: seq<BasketLine>, cands: seq<Candidate>)
    requires AreHolders(rows, basket, cands)
    ensures forall c | c in cands :: AreFirsts(rows, c.sellerId, c.found) && c.cover == |c.found| > 0
    ensures forall r | r in rows :: exists c :: c in cands && c.sellerId == r.businessId
  {
    forall c | c in cands ensures AreFirsts(rows, c.sellerId, c.found) {
      FirstsAre(rows, c.sellerId, c.found);
    }
    forall r | r in rows ensures exists c :: c in cands && c.sellerId == r.businessId {
      var i :| 0 <= i < |rows| && rows[i] == r;
      FirstListingExists(rows, r.businessId, r.goodId);
    }
  }

  /** A recipient is the seller with the listings found for it. */
  predicate IsRecipient(c: Candidate, r: Recipient) {
    && r.sellerId == c.sellerId && r.listings.Keys == c.found.Keys
    && forall g | g in c.found :: r.listings[g] == c.found[g].listingId
  }

  lemma AskedRow(after: map<Key, Inquiry>, id: Key, buyer: Id, c: Candidate, basket: seq<BasketLine>, group: Key, expiresAt: int, now: int)
    requires basket != [] && HoldsSome(c, basket) && RowCame(after, id, buyer, RecipientOf(c), basket, group, expiresAt, now)
    ensures IsRecipient(c, RecipientOf(c)) && id in after && IsRowFor(RecipientOf(c), buyer, basket, group, expiresAt, now, after[id])
  {
    SomeLineHeld(c, basket);
  }

  /** Each seller asked has one row of the new group, with the whole basket and its own listings; nothing else comes or changes. */
  lemma AskedRowsAre(inquiries: map<Key, Inquiry>, ids: seq<Key>, buyer: Id, chosen: seq<Candidate>, basket: seq<BasketLine>, group: Key, expiresAt: int, now: int)
    requires basket != [] && |ids| == |chosen| && FreshKeys(inquiries, ids) && forall i | 0 <= i < |chosen| :: HoldsSome(chosen[i], basket)
    ensures var after, rs := WithRows(inquiries, ids, buyer, RecipientsOf(chosen), basket, group, expiresAt, now), RecipientsOf(chosen);
            && |rs| == |chosen| && (forall k :: k in after <==> k in inquiries || k in ids) && (forall k | k in inquiries :: after[k] == inquiries[k])
            && forall i | 0 <= i < |chosen| :: IsRecipient(chosen[i], rs[i]) && IsRowFor(rs[i], buyer, basket, group, expiresAt, now, after[ids[i]])
  {
    var after := WithRows(inquiries, ids, buyer, RecipientsOf(chosen), basket, group, expiresAt, now);
    RowsAre(inquiries, ids, buyer, RecipientsOf(chosen), basket, group, expiresAt, now);
    forall i | 0 <= i < |chosen|
      ensures IsRecipient(chosen[i], RecipientsOf(chosen)[i]) && ids[i] in after
      ensures IsRowFor(RecipientsOf(chosen)[i], buyer, basket, group, expiresAt, now, after[ids[i]])
    {
      assert RecipientsOf(chosen)[i] == RecipientOf(chosen[i]);
      AskedRow(after, ids[i], buyer, chosen[i], basket, group, expiresAt, now);
    }
  }

  lemma SomeLineHeld(c: Candidate, basket: seq<BasketLine>)
    requires HoldsSome(c, basket)
    ensures HoldsAny(RecipientOf(c), basket)
  {
    var g :| g in c.found;
    var i :| 0 <= i < |basket| && basket[i].goodId == g;
    assert basket[i].goodId in RecipientOf(c).listings;
  }

  /** What is looked up for a repeated request: the listings others have for its goods, in the same order. */
  lemma HolderRowsAre(listings: seq<ListingRow>, goods: set<Id>, buyer: Id)
    requires SortedBy(PriceLe, listings)
    ensures var rows := HolderRows(listings, goods, buyer);
            && (forall r :: r in rows <==> r in listings && r.goodId in goods && r.businessId != buyer) && SortedBy(PriceLe, rows)
  {
    var wanted := (r: ListingRow) => r.goodId in goods && r.businessId != buyer;
    FilterMembers(wanted, listings);
    FilterKeepsOrder(PriceLe, wanted, listings);
  }

  /** A repeated request asks for what the row it read asks for. */
  lemma RepeatedBasketIs(row: Inquiry)
    ensures |BasketOf(row)| == LineCount(row) && forall k | 0 <= k < |BasketOf(row)| :: Asks(row, k, BasketOf(row)[k].goodId, BasketOf(row)[k].qty)
  {
    ItemsAre(row);
  }

  /** It is open for three days; one without a row or a holder changes nothing. */
  lemma RepeatedIs(db: Db, owned: set<Id>, biz: Id, g: Key, seen: Option<Key>, mine: Option<Key>, src: Option<Key>, rs: seq<Recipient>,
                   group: Key, ids: seq<Key>, now: int)
    requires |ids| == |rs|
    ensures var db' := RepeatGroup(db, owned, biz, g, seen, mine, src, rs, group, ids, now);
            && db'.offers == db.offers && db'.orders == db.orders
            && db'.inquiries == if GroupFor(db.inquiries, owned, biz, g, seen, mine).Ok? && src.Some? && src.value in db.inquiries && rs != []
                                then WithRows(db.inquiries, ids, biz, rs, BasketOf(db.inquiries[src.value]), group, now + 3 * 24 * 60 * 60 * 1000, now)
                                else db.inquiries
  {
  }
}
