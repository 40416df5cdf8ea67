/** What a buyer reads in the list of inquiry groups, column by column. */
module ViewAnswers {
  import opened Wrappers
  import opened Rfq
  import RfqRuns
  import opened RfqAnswers
  import opened RfqView
  import Orders

  // ---- A recipient ----

  /** The lines of a row the seller has a listing for. */
  function CoveredAt(items: seq<RfqItem>): set<nat> { set i: nat | i < |items| && items[i].listingId != None }

  lemma {:induction false} CoverageIs(items: seq<RfqItem>)
    ensures Coverage(items) == |CoveredAt(items)|
  {
    if items != [] {
      var n := |items| - 1;
      CoverageIs(items[..n]);
      assert CoveredAt(items) == CoveredAt(items[..n]) + if items[n].listingId != None then {n} else {};
    }
  }

  /** One line for each inquiry: its seller, its state, and how many of its lines the seller covers. */
  predicate IsRecipientLine(r: Row, line: RecipientLine) {
    && line.inquiryId == r.id && line.sellerId == r.inq.sellerId && line.status == r.inq.status
    && line.answered == (r.inq.status == RowAnswered) && line.coverage == |CoveredAt(ItemsOf(r.inq))|
  }

  lemma LineIs(r: Row)
    ensures IsRecipientLine(r, LineOf(r))
  {
    CoverageIs(ItemsOf(r.inq));
  }

  // ---- An offer ----

  function PricedOf(offer: Offer, n: nat): set<nat> { set k: nat | k < n && OwnPrice(offer, k).Some? }

  lemma {:induction false} PricedIs(prices: seq<Option<nat>>)
    ensures Priced(prices) == |set k: nat | k < |prices| && prices[k].Some?|
  {
    if prices != [] {
      var n := |prices| - 1;
      PricedIs(prices[..n]);
      assert (set k: nat | k < |prices| && prices[k].Some?)
          == (set k: nat | k < n && prices[..n][k].Some?) + if prices[n].Some? then {n} else {};
    }
  }

  /** An offer's line shows its price for each line of the group, how many there are, and their total. */
  predicate IsOfferLine(o: OfferRow, row: Inquiry, line: OfferLine) {
    && line.id == o.id && line.sellerId == o.offer.sellerId && line.priceMinor == o.offer.priceMinor
    && |line.prices| == LineCount(row) && (forall k | 0 <= k < |line.prices| :: line.prices[k] == OwnPrice(o.offer, k))
    && line.cover == |PricedOf(o.offer, LineCount(row))|
  }

  lemma OfferLineIs(o: OfferRow, row: Inquiry)
    ensures IsOfferLine(o, row, OfferLineOf(o, ItemsOf(row)))
  {
    ItemsAre(row);
    var n := LineCount(row);
    PricesAre(o.offer, n);
    PricedIs(PricesFor(o.offer, n));
    assert PricedOf(o.offer, n) == set k: nat | k < n && PricesFor(o.offer, n)[k].Some?;
  }

  /** Its total is that of the lines an order would freeze; the only line of a group, if the offer leaves it out, counts at the offer's price. */
  lemma OfferTotalIs(o: OfferRow, row: Inquiry) returns (at: seq<nat>, lines: seq<Orders.Item>)
    ensures AreDealLines(o.offer, row, at, lines)
    ensures var total := OfferLineOf(o, ItemsOf(row)).totalMinor;
            if LineCount(row) == 1 && OwnPrice(o.offer, 0) == None then total == o.offer.priceMinor * ItemsOf(row)[0].qty
            else total == Orders.Total(lines)
  {
    var items, prices := ItemsOf(row), PricesFor(o.offer, |ItemsOf(row)|);
    ItemsAre(row);
    PricesAre(o.offer, |items|);
    at := DealLines(o.offer, row);
    lines := Frozen(items, prices);
    RfqRuns.SumIsFrozenTotal(items, prices);
    if |items| == 1 {
      assert SumPriced(items[..0], prices[..0]) == 0;
    }
  }

  // ---- A group ----

  function MarkedAt(os: seq<OfferRow>): set<nat> { set i: nat | i < |os| && os[i].marked }

  lemma MarkedLast(os: seq<OfferRow>)
    requires os != []
    ensures |MarkedAt(os)| == |MarkedAt(os[..|os| - 1])| + if os[|os| - 1].marked then 1 else 0
  {
    var n := |os| - 1;
    assert MarkedAt(os) == MarkedAt(os[..n]) + if os[n].marked then {n} else {};
  }

  lemma {:induction false} MarkedIs(g: Group, os: seq<OfferRow>)
    ensures ReceiveAll(g, os).markedCount == g.markedCount + |MarkedAt(os)|
  {
    if os != [] {
      MarkedIs(g, os[..|os| - 1]);
      MarkedLast(os);
    }
  }

  /** The head of a group of inquiries is that of its first row, its date that of its newest. */
  predicate IsHead(mine: seq<Row>, group: Group)
    requires mine != []
  {
    var first := mine[0].inq;
    && group.items == ItemsOf(first) && group.expiresAt == first.expiresAt && group.stoppedAt == first.stoppedAt && group.closedAt == first.closedAt
    && (forall i | 0 <= i < |mine| :: mine[i].inq.createdAt <= group.createdAt) && (exists i | 0 <= i < |mine| :: mine[i].inq.createdAt == group.createdAt)
    && (group.archived <==> forall i | 0 <= i < |mine| :: mine[i].inq.status == RowArchived)
  }

  /** One line for each of the rows, and one for each of the offers, in the order they came. */
  predicate ShowsLines(mine: seq<Row>, received: seq<OfferRow>, group: Group)
    requires mine != []
  {
    && |group.recipients| == |mine| && (forall i | 0 <= i < |mine| :: IsRecipientLine(mine[i], group.recipients[i]))
    && |group.offers| == |received| && (forall i | 0 <= i < |received| :: IsOfferLine(received[i], mine[0].inq, group.offers[i]))
  }

  lemma RecipientLinesAre(mine: seq<Row>)
    ensures forall i | 0 <= i < |mine| :: IsRecipientLine(mine[i], RecipientLines(mine)[i])
  {
    forall i | 0 <= i < |mine| ensures IsRecipientLine(mine[i], RecipientLines(mine)[i]) {
      LineIs(mine[i]);
    }
  }

  lemma OfferLinesAre(received: seq<OfferRow>, row: Inquiry)
    ensures forall i | 0 <= i < |received| :: IsOfferLine(received[i], row, OfferLines(received, ItemsOf(row))[i])
  {
    forall i | 0 <= i < |received| ensures IsOfferLine(received[i], row, OfferLines(received, ItemsOf(row))[i]) {
      OfferLineIs(received[i], row);
    }
  }

  lemma ShownLines(mine: seq<Row>, received: seq<OfferRow>)
    requires mine != []
    ensures ReceiveAll(GroupOf(mine), received).recipients == RecipientLines(mine)
    ensures ReceiveAll(GroupOf(mine), received).offers == OfferLines(received, ItemsOf(mine[0].inq))
  {
    GroupHead(mine);
    GroupLines(mine);
    ReceivedRest(GroupOf(mine), received);
    ReceivedOffers(GroupOf(mine), received);
  }

  lemma LinesAre(mine: seq<Row>, received: seq<OfferRow>)
    requires mine != []
    ensures ShowsLines(mine, received, ReceiveAll(GroupOf(mine), received))
  {
    ShownLines(mine, received);
    RecipientLinesAre(mine);
    OfferLinesAre(received, mine[0].inq);
  }

  lemma HeadIs(mine: seq<Row>, received: seq<OfferRow>)
    requires mine != []
    ensures IsHead(mine, ReceiveAll(GroupOf(mine), received))
  {
    GroupSums(mine);
    ReceivedRest(GroupOf(mine), received);
    ReceivedHead(GroupOf(mine), received);
  }

  /** A group of inquiries shows its own rows and offers, line by line, and counts the offers and the marks on them. */
  lemma GroupIs(rows: seq<Row>, offers: seq<OfferRow>, groups: Groups, g: GroupId)
    requires Complete(rows, offers, groups) && RowsOf(rows, g) != []
    ensures var mine, received := RowsOf(rows, g), OffersOf(rows, offers, g);
            && g in groups && IsHead(mine, groups[g]) && ShowsLines(mine, received, groups[g])
            && groups[g].offerCount == |received| && groups[g].markedCount == |MarkedAt(received)|
  {
    var mine, received := RowsOf(rows, g), OffersOf(rows, offers, g);
    assert CompleteAt(rows, offers, groups, g);
    HeadIs(mine, received);
    LinesAre(mine, received);
    GroupHead(mine);
    GroupUnmarked(mine);
    ReceivedRest(GroupOf(mine), received);
    MarkedIs(GroupOf(mine), received);
  }

  lemma {:induction false} GroupUnmarked(mine: seq<Row>)
    requires mine != []
    ensures GroupOf(mine).markedCount == 0
  {
    if |mine| > 1 {
      GroupUnmarked(mine[..|mine| - 1]);
    }
  }

  lemma {:induction false} ReceivedHead(g: Group, os: seq<OfferRow>)
    ensures var r := ReceiveAll(g, os); r.expiresAt == g.expiresAt && r.stoppedAt == g.stoppedAt && r.closedAt == g.closedAt
  {
    if os != [] {
      ReceivedHead(g, os[..|os| - 1]);
    }
  }

  /** An offer nobody asked for stands alone, at its own price, open, for no quantity of its listing's good. */
  lemma ColdIs(o: OfferRow)
    ensures var g := ColdGroupOf(o);
            && g.createdAt == o.offer.createdAt && g.items == [RfqItem(o.listingGoodId, 0, Some(o.offer.listingId))]
            && g.expiresAt == None && g.stoppedAt == None && g.closedAt == None && !g.archived && g.recipients == []
            && g.offers == [OfferLine(o.id, o.offer.sellerId, o.offer.priceMinor, [Some(o.offer.priceMinor)], 1, o.offer.priceMinor)]
            && g.offerCount == 1 && g.markedCount == (if o.marked then 1 else 0) && g.minPriceMinor == Some(o.offer.priceMinor)
  {
  }

  /** And the group of such an offer holds it and no other. */
  lemma ColdHasOne(rows: seq<Row>, offers: seq<OfferRow>, groups: Groups, k: nat)
    requires Complete(rows, offers, groups) && UniqueIds(offers) && k < |offers| && Home(rows, offers[k]) == ColdGroup(offers[k].id)
    ensures ColdGroup(offers[k].id) in groups && groups[ColdGroup(offers[k].id)] == ColdGroupOf(offers[k])
  {
    var g, o := ColdGroup(offers[k].id), offers[k];
    assert CompleteAt(rows, offers, groups, g);
    ColdHasNoRows(rows, o.id);
    OffersOfIds(rows, offers, g);
    OnlyOne(rows, offers, k);
    assert [o][1..] == [];
  }

  lemma {:induction false} OnlyOne(rows: seq<Row>, offers: seq<OfferRow>, k: nat)
    requires UniqueIds(offers) && k < |offers| && Home(rows, offers[k]) == ColdGroup(offers[k].id)
    ensures OffersOf(rows, offers, ColdGroup(offers[k].id)) == [offers[k]]
  {
    var n := |offers| - 1;
    HomeExists(rows, offers[n]);
    if k < n {
      OnlyOne(rows, offers[..n], k);
      assert offers[n].id != offers[k].id;
    } else {
      ColdIsUnused(rows, offers, k);
    }
  }
}
