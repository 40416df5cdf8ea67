/** Which offers of an inquiry group can be ordered from, over any run. */
module RfqOrdering {
  import opened Wrappers
  import opened Rfq
  import opened RfqRuns
  import opened RfqClosing
  import Orders

  /** The request is an acceptance that goes through and resolves to the group. */
  predicate Accepts(db: Db, op: Op, g: Key) {
    && op.AcceptOp? && Valid(db, op)
    && AcceptOffer(db, op.owned, op.biz, op.offerId, op.legacy, op.seen, op.now).1.Ok?
    && OfferGroup(db.inquiries, db.offers[op.offerId], op.legacy) == Some(g)
  }

  // ---- One step, one row ----

  /** What a request does to the standing of a row of the group `g`. */
  predicate Follows(db: Db, op: Op, g: Key, a: Inquiry, b: Inquiry) {
    && b.rfqGroupId == a.rfqGroupId
    && (b.closedAt.Some? <==> Accepts(db, op, g) || (a.closedAt.Some? && !Stops(db, op, g)))
    && b.acceptedOfferId == if Accepts(db, op, g) then Some(op.offerId) else a.acceptedOfferId
  }

  lemma GroupRequestHits(db: Db, op: Op, k: Key)
    requires WellFormed(db) && Valid(db, op) && (op.StopOp? || op.RestartOp? || op.ArchiveOp?) && k in db.inquiries
    requires GroupFor(db.inquiries, op.owned, op.biz, op.g, op.seen, op.mine).Ok?
    ensures var key := GroupFor(db.inquiries, op.owned, op.biz, op.g, op.seen, op.mine).value.0;
            Matches(key, k, db.inquiries[k]) <==> GroupKey(k, db.inquiries[k]) == key
    ensures db.inquiries[op.seen.value].closedAt.Some? && op.RestartOp? ==> Apply(db, op) == db
  {
    GroupForIsWhole(db, op.owned, op.biz, op.g, op.seen, op.mine);
    KeySelectsGroup(db.inquiries, GroupKey(op.seen.value, db.inquiries[op.seen.value]));
  }

  lemma GroupRequestFollows(db: Db, op: Op, k: Key)
    requires WellFormed(db) && Valid(db, op) && (op.StopOp? || op.RestartOp? || op.ArchiveOp?) && k in db.inquiries
    ensures k in Apply(db, op).inquiries
    ensures Follows(db, op, GroupKey(k, db.inquiries[k]), db.inquiries[k], Apply(db, op).inquiries[k])
  {
    var found := GroupFor(db.inquiries, op.owned, op.biz, op.g, op.seen, op.mine);
    if found.Ok? {
      GroupRequestHits(db, op, k);
      GroupForIsWhole(db, op.owned, op.biz, op.g, op.seen, op.mine);
    }
  }

  lemma AcceptsWhen(db: Db, op: Op, key: Key) returns (u: Update)
    requires WellFormed(db) && Accepts(db, op, key)
    ensures u.Close? && u.offerId == op.offerId && Apply(db, op).inquiries == UpdateMany(db.inquiries, key, u)
    ensures forall j | j in db.inquiries :: Matches(key, j, db.inquiries[j]) <==> GroupKey(j, db.inquiries[j]) == key
  {
    assert Linked(db.inquiries, db.offers[op.offerId]);
    OfferRow(db, db.offers[op.offerId], op.legacy, op.seen);
    KeySelectsGroup(db.inquiries, key);
    AcceptCloses(db, op.owned, op.biz, op.offerId, op.legacy, op.seen, op.now);
    u := Close(op.now, AcceptOffer(db, op.owned, op.biz, op.offerId, op.legacy, op.seen, op.now).1.value.resultText, op.offerId);
  }

  /** An acceptance that is refused, or whose offer has no group, changes nothing. */
  lemma AcceptsNone(db: Db, op: Op)
    requires op.AcceptOp? && forall key :: !Accepts(db, op, key)
    ensures Apply(db, op) == db
  {
    if Valid(db, op) && AcceptOffer(db, op.owned, op.biz, op.offerId, op.legacy, op.seen, op.now).1.Ok? {
      var group := OfferGroup(db.inquiries, db.offers[op.offerId], op.legacy);
      assert group.Some? ==> Accepts(db, op, group.value);
    }
  }

  predicate Hits(key: Key, offerId: Id, k: Key, a: Inquiry, b: Inquiry) {
    if GroupKey(k, a) == key then b.rfqGroupId == a.rfqGroupId && b.closedAt.Some? && b.acceptedOfferId == Some(offerId) else b == a
  }

  lemma CloseHits(inquiries: map<Key, Inquiry>, key: Key, u: Update, k: Key)
    requires u.Close? && k in inquiries && (Matches(key, k, inquiries[k]) <==> GroupKey(k, inquiries[k]) == key)
    ensures Hits(key, u.offerId, k, inquiries[k], UpdateMany(inquiries, key, u)[k])
  {
  }

  lemma AcceptHits(db: Db, op: Op, key: Key, k: Key, db': Db)
    requires WellFormed(db) && Accepts(db, op, key) && k in db.inquiries && db' == Apply(db, op)
    ensures k in db'.inquiries && Hits(key, op.offerId, k, db.inquiries[k], db'.inquiries[k])
  {
    var u := AcceptsWhen(db, op, key);
    CloseHits(db.inquiries, key, u, k);
  }

  lemma AcceptsOne(db: Db, op: Op, key: Key, g: Key)
    requires Accepts(db, op, key)
    ensures Accepts(db, op, g) <==> g == key
    ensures !Stops(db, op, g)
  {
  }

  lemma AcceptFollows(db: Db, op: Op, k: Key, db': Db)
    requires WellFormed(db) && op.AcceptOp? && k in db.inquiries && db' == Apply(db, op)
    ensures k in db'.inquiries && Follows(db, op, GroupKey(k, db.inquiries[k]), db.inquiries[k], db'.inquiries[k])
  {
    if key :| Accepts(db, op, key) {
      AcceptHits(db, op, key, k, db');
      AcceptsOne(db, op, key, GroupKey(k, db.inquiries[k]));
    } else {
      AcceptsNone(db, op);
    }
  }

  lemma RequestKeepsRow(db: Db, op: Op, k: Key)
    requires Valid(db, op) && (op.RequestOp? || op.RepeatOp?) && k in db.inquiries
    ensures k in Apply(db, op).inquiries && Apply(db, op).inquiries[k] == db.inquiries[k]
  {
    if op.RequestOp? {
      CreatedRows(db.inquiries, op.ids, op.buyer, op.rs, op.basket, op.group, op.expiresAt, op.now);
    } else if Apply(db, op) != db {
      RepeatMakes(db, op);
      CreatedRows(db.inquiries, op.ids, op.biz, op.rs, BasketOf(db.inquiries[op.src.value]), op.group, op.now + 3 * DAY_MS, op.now);
    }
  }

  /** Only an acceptance names a winner or closes, and only a stop opens. */
  lemma StepFollows(db: Db, op: Op, k: Key)
    requires WellFormed(db) && k in db.inquiries
    ensures k in Apply(db, op).inquiries
    ensures Follows(db, op, GroupKey(k, db.inquiries[k]), db.inquiries[k], Apply(db, op).inquiries[k])
  {
    if Valid(db, op) {
      if op.StopOp? || op.RestartOp? || op.ArchiveOp? {
        GroupRequestFollows(db, op, k);
      } else if op.AcceptOp? {
        AcceptFollows(db, op, k, Apply(db, op));
      } else if op.ColdOp? || op.OrderOp? {
        DealKeepsRows(db, op);
      } else if op.SendOp? {
        if Apply(db, op) != db {
          SendMakes(db, op);
        }
      } else if op.RequestOp? || op.RepeatOp? {
        RequestKeepsRow(db, op, k);
      }
    }
  }

  // ---- Every run ----

  predicate AcceptedAt(db: Db, ops: seq<Op>, n: nat, g: Key)
    requires n < |ops|
  {
    Accepts(Run(db, ops[..n]), ops[n], g)
  }

  /** The offer of the group's last acceptance among the first `n` requests, or `w` without one. */
  function LastWinner(db: Db, ops: seq<Op>, n: nat, g: Key, w: Option<Id>): Option<Id>
    requires n <= |ops|
  {
    if n == 0 then w
    else if AcceptedAt(db, ops, n - 1, g) then Some(ops[n - 1].offerId)
    else LastWinner(db, ops, n - 1, g, w)
  }

  /** Of the acceptances and stops that reached the group, the last was an acceptance; `closed` without any. */
  predicate ClosedLast(db: Db, ops: seq<Op>, n: nat, g: Key, closed: bool)
    requires n <= |ops|
  {
    if n == 0 then closed
    else AcceptedAt(db, ops, n - 1, g) || (!StoppedAt(db, ops, n - 1, g) && ClosedLast(db, ops, n - 1, g, closed))
  }

  lemma FollowsAt(db: Db, ops: seq<Op>, n: nat, k: Key)
    requires WellFormed(db) && n < |ops| && k in Run(db, ops[..n]).inquiries
    ensures k in Run(db, ops[..n + 1]).inquiries
    ensures var before, after := Run(db, ops[..n]), Run(db, ops[..n + 1]);
            Follows(before, ops[n], GroupKey(k, before.inquiries[k]), before.inquiries[k], after.inquiries[k])
  {
    RunOk(db, ops[..n]);
    RunSnoc(db, ops, n);
    StepFollows(Run(db, ops[..n]), ops[n], k);
  }

  /** After any run a group is closed if it was accepted after it was last stopped, and its winner is the offer accepted last. */
  lemma {:induction false} RunStanding(db: Db, ops: seq<Op>, n: nat, k: Key)
    requires WellFormed(db) && k in db.inquiries && n <= |ops|
    ensures k in Run(db, ops[..n]).inquiries
    ensures var row, g := Run(db, ops[..n]).inquiries[k], GroupKey(k, db.inquiries[k]);
            && GroupKey(k, row) == g
            && row.acceptedOfferId == LastWinner(db, ops, n, g, db.inquiries[k].acceptedOfferId)
            && (row.closedAt.Some? <==> ClosedLast(db, ops, n, g, db.inquiries[k].closedAt.Some?))
  {
    if n == 0 {
      assert ops[..0] == [];
    } else {
      RunStanding(db, ops, n - 1, k);
      FollowsAt(db, ops, n - 1, k);
    }
  }

  // ---- Ordering ----

  /** The checks of an order that do not ask who won. */
  predicate Orderable(db: Db, orderId: Id, biz: Id, offerId: Id, row: Inquiry) {
    && offerId in db.offers && db.offers[offerId].buyerId == biz && !Ordered(db, offerId)
    && FrozenFor(db.offers[offerId], row) != [] && orderId !in db.orders
  }

  /** Closed before winners were recorded, with the seller's name in the result. */
  predicate WonByText(row: Inquiry, offer: Offer) {
    row.closedAt.Some? && row.resultText.Some? && row.resultText.value != "" && Includes(row.resultText.value, offer.sellerName)
  }

  predicate GoesThrough(db: Db, orderId: Id, biz: Id, offerId: Id, legacy: Option<Key>, seen: Option<Key>, now: int) {
    OrderFromOffer(db, orderId, biz, offerId, legacy, seen, now).1.None?
  }

  lemma GoesThroughIff(db: Db, orderId: Id, biz: Id, offerId: Id, legacy: Option<Key>, seen: Option<Key>, now: int)
    requires offerId in db.offers && OfferGroup(db.inquiries, db.offers[offerId], legacy).Some? && seen.Some? && seen.value in db.inquiries
    ensures var row := db.inquiries[seen.value];
            GoesThrough(db, orderId, biz, offerId, legacy, seen, now)
            <==> && Orderable(db, orderId, biz, offerId, row)
                 && (row.acceptedOfferId == Some(offerId) || (row.acceptedOfferId.None? && WonByText(row, db.offers[offerId])))
  {
  }

  /** The queries of an order after the run find a row of the group `k` was in. */
  predicate Reads(later: Db, offerId: Id, legacy: Option<Key>, seen: Option<Key>, g: Key) {
    && offerId in later.offers && AcceptAnswers(later, later.offers[offerId], legacy, seen)
    && OfferGroup(later.inquiries, later.offers[offerId], legacy) == Some(g)
  }

  lemma ReadRow(db: Db, ops: seq<Op>, k: Key, offerId: Id, legacy: Option<Key>, seen: Option<Key>)
    requires WellFormed(db) && k in db.inquiries && Reads(Run(db, ops), offerId, legacy, seen, GroupKey(k, db.inquiries[k]))
    ensures seen.Some? && seen.value in Run(db, ops).inquiries
    ensures var row, g := Run(db, ops).inquiries[seen.value], GroupKey(k, db.inquiries[k]);
            && row.acceptedOfferId == LastWinner(db, ops, |ops|, g, db.inquiries[k].acceptedOfferId)
            && (row.closedAt.Some? <==> ClosedLast(db, ops, |ops|, g, db.inquiries[k].closedAt.Some?))
  {
    assert ops[..|ops|] == ops;
    var later := Run(db, ops);
    RunOk(db, ops);
    RunStanding(db, ops, |ops|, k);
    assert Linked(later.inquiries, later.offers[offerId]);
    OfferRow(later, later.offers[offerId], legacy, seen);
    assert SharedOf(later.inquiries[seen.value]) == SharedOf(later.inquiries[k]);
  }

  /**
   * After any run an order from an offer goes through exactly when its other checks pass and the offer
   * is the one its group accepted last, or the group was never accepted and its old result names the seller.
   */
  lemma OrderedIff(db: Db, ops: seq<Op>, k: Key, orderId: Id, biz: Id, offerId: Id, legacy: Option<Key>, seen: Option<Key>, now: int)
    requires WellFormed(db) && k in db.inquiries && Reads(Run(db, ops), offerId, legacy, seen, GroupKey(k, db.inquiries[k]))
    ensures seen.Some? && seen.value in Run(db, ops).inquiries
    ensures var later := Run(db, ops);
            var last := LastWinner(db, ops, |ops|, GroupKey(k, db.inquiries[k]), db.inquiries[k].acceptedOfferId);
            var row := later.inquiries[seen.value];
            GoesThrough(later, orderId, biz, offerId, legacy, seen, now)
            <==> Orderable(later, orderId, biz, offerId, row) && (last == Some(offerId) || (last.None? && WonByText(row, later.offers[offerId])))
  {
    ReadRow(db, ops, k, offerId, legacy, seen);
    GoesThroughIff(Run(db, ops), orderId, biz, offerId, legacy, seen, now);
  }

  /**
   * And it goes through although its group is open exactly when those checks pass, the offer is the one
   * accepted last, and a stop reached the group after that acceptance.
   */
  lemma OpenOrderIff(db: Db, ops: seq<Op>, k: Key, orderId: Id, biz: Id, offerId: Id, legacy: Option<Key>, seen: Option<Key>, now: int)
    requires WellFormed(db) && k in db.inquiries && Reads(Run(db, ops), offerId, legacy, seen, GroupKey(k, db.inquiries[k]))
    ensures seen.Some? && seen.value in Run(db, ops).inquiries
    ensures var later, g := Run(db, ops), GroupKey(k, db.inquiries[k]);
            var row := later.inquiries[seen.value];
            GoesThrough(later, orderId, biz, offerId, legacy, seen, now) && row.closedAt.None?
            <==> && Orderable(later, orderId, biz, offerId, row)
                 && LastWinner(db, ops, |ops|, g, db.inquiries[k].acceptedOfferId) == Some(offerId)
                 && !ClosedLast(db, ops, |ops|, g, db.inquiries[k].closedAt.Some?)
  {
    ReadRow(db, ops, k, offerId, legacy, seen);
    GoesThroughIff(Run(db, ops), orderId, biz, offerId, legacy, seen, now);
  }

  /** For each request of the run, the offer it accepts for the group, if it does. */
  function Acceptances(db: Db, ops: seq<Op>, g: Key): seq<Option<Id>> {
    seq(|ops|, i requires 0 <= i < |ops| => if AcceptedAt(db, ops, i, g) then Some(ops[i].offerId) else None)
  }

  function Last(accepted: seq<Option<Id>>, w: Option<Id>): Option<Id> {
    if accepted == [] then w
    else if accepted[|accepted| - 1].Some? then accepted[|accepted| - 1]
    else Last(accepted[..|accepted| - 1], w)
  }

  /** The offer is accepted, and no acceptance follows. */
  predicate AcceptedLast(accepted: seq<Option<Id>>, offerId: Id) {
    exists i | 0 <= i < |accepted| :: accepted[i] == Some(offerId) && forall j | i < j < |accepted| :: accepted[j].None?
  }

  lemma {:induction false} LastIs(accepted: seq<Option<Id>>, w: Option<Id>, x: Id)
    requires w != Some(x)
    ensures Last(accepted, w) == Some(x) <==> AcceptedLast(accepted, x)
  {
    if accepted != [] {
      LastIs(accepted[..|accepted| - 1], w, x);
    }
  }

  lemma {:induction false} LastWinnerIsLast(db: Db, ops: seq<Op>, n: nat, g: Key, w: Option<Id>)
    requires n <= |ops|
    ensures LastWinner(db, ops, n, g, w) == Last(Acceptances(db, ops, g)[..n], w)
  {
    if n > 0 {
      LastWinnerIsLast(db, ops, n - 1, g, w);
      assert Acceptances(db, ops, g)[..n][..n - 1] == Acceptances(db, ops, g)[..n - 1];
    }
  }

  /**
   * Once a group has an order, it gets one from another of its offers exactly when, besides the other
   * checks, that offer is accepted later and no acceptance of the group follows.
   */
  lemma SecondOrderIff(db: Db, ops: seq<Op>, k: Key, first: Id, orderId: Id, biz: Id, offerId: Id, legacy: Option<Key>, seen: Option<Key>, now: int)
    requires WellFormed(db) && k in db.inquiries && Reads(Run(db, ops), offerId, legacy, seen, GroupKey(k, db.inquiries[k]))
    requires db.inquiries[k].acceptedOfferId == Some(first) && Ordered(db, first) && offerId != first
    ensures seen.Some? && seen.value in Run(db, ops).inquiries
    ensures var later, g := Run(db, ops), GroupKey(k, db.inquiries[k]);
            GoesThrough(later, orderId, biz, offerId, legacy, seen, now)
            <==> && Orderable(later, orderId, biz, offerId, later.inquiries[seen.value])
                 && AcceptedLast(Acceptances(db, ops, g), offerId)
  {
    var g := GroupKey(k, db.inquiries[k]);
    OrderedIff(db, ops, k, orderId, biz, offerId, legacy, seen, now);
    LastWinnerIsLast(db, ops, |ops|, g, Some(first));
    LastIs(Acceptances(db, ops, g), Some(first), offerId);
    assert Acceptances(db, ops, g)[..|ops|] == Acceptances(db, ops, g);
    WinnerStays(db, ops, |ops|, g, Some(first));
  }

  lemma {:induction false} WinnerStays(db: Db, ops: seq<Op>, n: nat, g: Key, w: Option<Id>)
    requires n <= |ops| && w.Some?
    ensures LastWinner(db, ops, n, g, w).Some?
  {
    if n > 0 {
      WinnerStays(db, ops, n - 1, g, w);
    }
  }

  // ---- Runs in which that happens ----

  const ORDER := OrderOp("x", "b", "o", Some(Oid(1)), Some(Oid(1)), 5)
  const STOPPED := WON.(stoppedAt := Some(4), closedAt := None, resultText := None)

  lemma OrderOf(offer: Offer, row: Inquiry)
    requires row.items == Some([RfqItem("g", 1, Some("l"))]) && offer.prices.None?
    ensures FrozenFor(offer, row) == [Orders.Item("g", 1, offer.priceMinor)]
  {
    var items := ItemsOf(row);
    assert items == [RfqItem("g", 1, Some("l"))];
    var prices := PricesFor(offer, 1);
    assert prices == [Some(offer.priceMinor)] && items[..0] == [] && prices[..0] == [];
    assert Frozen(items[..0], prices[..0]) == [];
  }

  /** Accept, stop, order: the order goes through although the group is open. */
  lemma OrderedWhileStopped()
    ensures var won := Db(map[Oid(1) := WON], map["o" := OFFERED], map[]);
            var stopped := Apply(won, STOP);
            && Run(Db(map[], map[], map[]), [REQUEST, ANSWER, ACCEPT]) == won
            && stopped.inquiries == map[Oid(1) := STOPPED] && Valid(stopped, ORDER)
            && GoesThrough(stopped, "x", "b", "o", Some(Oid(1)), Some(Oid(1)), 5)
  {
    Asked();
    Offered();
    Won();
    RunOfThree(Db(map[], map[], map[]), REQUEST, ANSWER, ACCEPT);
    StoppedWon();
    OrderableStopped();
  }

  lemma StoppedWon()
    ensures Apply(Db(map[Oid(1) := WON], map["o" := OFFERED], map[]), STOP) == Db(map[Oid(1) := STOPPED], map["o" := OFFERED], map[])
  {
    assert Matches(Uuid(1), Oid(1), WON);
    assert Valid(Db(map[Oid(1) := WON], map["o" := OFFERED], map[]), STOP);
  }

  lemma OrderableStopped()
    ensures var stopped := Db(map[Oid(1) := STOPPED], map["o" := OFFERED], map[]);
            Valid(stopped, ORDER) && GoesThrough(stopped, "x", "b", "o", Some(Oid(1)), Some(Oid(1)), 5)
  {
    assert Matches(Uuid(1), Oid(1), STOPPED);
    OrderOf(OFFERED, STOPPED);
  }

  const OTHER := OFFERED.(priceMinor := 6, createdAt := 2)
  const ANSWER_OTHER := SendOp({"s"}, "p", Oid(1), "S", [], Some(6), 2)
  const ACCEPT_OTHER := AcceptOp({"b"}, "b", "p", Some(Oid(1)), Some(Oid(1)), 6)
  const ORDER_OTHER := OrderOp("y", "b", "p", Some(Oid(1)), Some(Oid(1)), 7)

  const BOTH := map["o" := OFFERED, "p" := OTHER]
  const FIRST := Orders.NewOrder("b", "s", Orders.RfqOffer("o"), [Orders.Item("g", 1, 5)], 5)
  const WON_AGAIN := WON.(closedAt := Some(6), resultText := Some(ResultText(OTHER, true, 6)), acceptedOfferId := Some("p"))

  lemma AnsweredTwice()
    ensures Run(Db(map[], map[], map[]), [REQUEST, ANSWER, ANSWER_OTHER]) == Db(map[Oid(1) := ASKED.(status := RowAnswered)], BOTH, map[])
  {
    Asked();
    Offered();
    assert OfferFor(ASKED.(status := RowAnswered), "S", [], Some(6), 2) == Ok(OTHER);
    RunOfThree(Db(map[], map[], map[]), REQUEST, ANSWER, ANSWER_OTHER);
  }

  lemma WonFirst()
    ensures Apply(Db(map[Oid(1) := ASKED.(status := RowAnswered)], BOTH, map[]), ACCEPT) == Db(map[Oid(1) := WON], BOTH, map[])
  {
    var db := Db(map[Oid(1) := ASKED.(status := RowAnswered)], BOTH, map[]);
    assert Matches(Uuid(1), Oid(1), db.inquiries[Oid(1)]);
    assert Valid(db, ACCEPT);
    assert |ItemsOf(db.inquiries[Oid(1)])| == 1;
  }

  lemma OrderedFirst()
    ensures Apply(Db(map[Oid(1) := WON], BOTH, map[]), ORDER) == Db(map[Oid(1) := WON], BOTH, map["x" := FIRST])
  {
    OrderOf(OFFERED, WON);
    assert Matches(Uuid(1), Oid(1), WON);
    assert Valid(Db(map[Oid(1) := WON], BOTH, map[]), ORDER);
  }

  lemma WonSecond()
    ensures Apply(Db(map[Oid(1) := WON], BOTH, map["x" := FIRST]), ACCEPT_OTHER) == Db(map[Oid(1) := WON_AGAIN], BOTH, map["x" := FIRST])
  {
    var db := Db(map[Oid(1) := WON], BOTH, map["x" := FIRST]);
    assert Matches(Uuid(1), Oid(1), WON);
    assert Valid(db, ACCEPT_OTHER);
    assert |ItemsOf(WON)| == 1;
  }

  /** Two answers to one inquiry: accept one and order, accept the other and order, and the group has two orders. */
  lemma TwoOrders()
    ensures var won := Apply(Run(Db(map[], map[], map[]), [REQUEST, ANSWER, ANSWER_OTHER]), ACCEPT);
            var end := Run(won, [ORDER, ACCEPT_OTHER, ORDER_OTHER]);
            Ordered(end, "o") && Ordered(end, "p") && OFFERED.rfqGroupId == OTHER.rfqGroupId && end.offers == BOTH
  {
    AnsweredTwice();
    WonFirst();
    OrderedFirst();
    WonSecond();
    RunOfThree(Db(map[Oid(1) := WON], BOTH, map[]), ORDER, ACCEPT_OTHER, ORDER_OTHER);
    OrderedSecond();
  }

  lemma OrderedSecond()
    ensures var end := Apply(Db(map[Oid(1) := WON_AGAIN], BOTH, map["x" := FIRST]), ORDER_OTHER);
            Ordered(end, "o") && Ordered(end, "p") && end.offers == BOTH
  {
    var db := Db(map[Oid(1) := WON_AGAIN], BOTH, map["x" := FIRST]);
    OrderOf(OTHER, WON_AGAIN);
    assert Matches(Uuid(1), Oid(1), WON_AGAIN);
    assert Valid(db, ORDER_OTHER) && !Ordered(db, "p");
    var end := Apply(db, ORDER_OTHER);
    assert "x" in end.orders && "y" in end.orders;
    assert end.orders["x"].origin == Orders.RfqOffer("o") && end.orders["y"].origin == Orders.RfqOffer("p");
  }

  // ---- A merge that moves an accepted offer to another group ----

  const ELSEWHERE := ASKED.(listingId := "m", rfqGroupId := Some(Uuid(2)), items := Some([RfqItem("g", 1, Some("m"))]), createdAt := 2)
  const DIRECT := Offer("b", "s", "S", "l", 5, None, None, 3)

  const ASK_ELSEWHERE := RequestOp("b", [Recipient("s", map["g" := "m"])], [BasketLine("g", 1)], Uuid(2), [Oid(2)], 100, 2)
  const OFFER_DIRECT := ColdOp("o", DIRECT)
  const ACCEPT_DIRECT := AcceptOp({"b"}, "b", "o", Some(Oid(1)), Some(Oid(1)), 4)

  const WON_DIRECT := ASKED.(closedAt := Some(4), resultText := Some(ResultText(DIRECT, true, 5)), acceptedOfferId := Some("o"))
  const SOLD: map<Id, Offer> := map["o" := DIRECT]
  /** The rows of two groups that asked one seller under two listings, the first one accepted. */
  const APART := Db(map[Oid(1) := WON_DIRECT, Oid(2) := ELSEWHERE], SOLD, map[])
  const MERGED := Db(map[Oid(1) := WON_DIRECT.(listingId := "m"), Oid(2) := ELSEWHERE], map["o" := DIRECT.(listingId := "m")], map[])

  lemma AskedElsewhere()
    ensures Apply(Db(map[Oid(1) := ASKED], map[], map[]), ASK_ELSEWHERE) == Db(map[Oid(1) := ASKED, Oid(2) := ELSEWHERE], map[], map[])
  {
    var rs, basket, before := ASK_ELSEWHERE.rs, ASK_ELSEWHERE.basket, map[Oid(1) := ASKED];
    assert rs[..0] == [] && ASK_ELSEWHERE.ids[..0] == [];
    assert Snapshot(basket, rs[0].listings) == [RfqItem("g", 1, Some("m"))];
    assert WithRows(before, [], "b", [], basket, Uuid(2), 100, 2) == before;
    assert NewRow("b", rs[0], basket, Uuid(2), 100, 2) == Some(ELSEWHERE);
  }

  lemma DirectWon()
    ensures Apply(Db(map[Oid(1) := ASKED, Oid(2) := ELSEWHERE], SOLD, map[]), ACCEPT_DIRECT) == APART
  {
    var db := Db(map[Oid(1) := ASKED, Oid(2) := ELSEWHERE], SOLD, map[]);
    assert Matches(Uuid(1), Oid(1), ASKED) && !Matches(Uuid(1), Oid(2), ELSEWHERE);
    assert Valid(db, ACCEPT_DIRECT);
    assert |ItemsOf(ASKED)| == 1;
  }

  lemma OrderableApart()
    ensures AcceptAnswers(APART, DIRECT, Some(Oid(1)), Some(Oid(1))) && GoesThrough(APART, "x", "b", "o", Some(Oid(1)), Some(Oid(1)), 5)
  {
    assert Matches(Uuid(1), Oid(1), WON_DIRECT) && !Matches(Uuid(1), Oid(2), ELSEWHERE);
    OrderOf(DIRECT, WON_DIRECT);
  }

  lemma Merged()
    ensures Apply(APART, MergeOp("l", "m")) == MERGED
  {
  }

  lemma RefusedMerged()
    ensures AcceptAnswers(MERGED, MERGED.offers["o"], Some(Oid(2)), Some(Oid(2)))
    ensures OrderFromOffer(MERGED, "x", "b", "o", Some(Oid(2)), Some(Oid(2)), 5).1 == Some(OfferNotAccepted)
  {
    assert Matches(Uuid(2), Oid(2), ELSEWHERE) && !Matches(Uuid(2), Oid(1), MERGED.inquiries[Oid(1)]);
  }

  lemma AskedApart()
    ensures Run(Db(map[], map[], map[]), [REQUEST, ASK_ELSEWHERE, OFFER_DIRECT]) == Db(map[Oid(1) := ASKED, Oid(2) := ELSEWHERE], SOLD, map[])
  {
    RunOfThree(Db(map[], map[], map[]), REQUEST, ASK_ELSEWHERE, OFFER_DIRECT);
    Asked();
    AskedElsewhere();
  }

  /** An accepted offer can be ordered from; after a merge of its listing it is looked up in another group and refused. */
  lemma MergedAway()
    ensures Apply(Run(Db(map[], map[], map[]), [REQUEST, ASK_ELSEWHERE, OFFER_DIRECT]), ACCEPT_DIRECT) == APART
    ensures AcceptAnswers(APART, DIRECT, Some(Oid(1)), Some(Oid(1))) && GoesThrough(APART, "x", "b", "o", Some(Oid(1)), Some(Oid(1)), 5)
    ensures Apply(APART, MergeOp("l", "m")) == MERGED && AcceptAnswers(MERGED, MERGED.offers["o"], Some(Oid(2)), Some(Oid(2)))
    ensures OrderFromOffer(MERGED, "x", "b", "o", Some(Oid(2)), Some(Oid(2)), 5).1 == Some(OfferNotAccepted)
  {
    AskedApart();
    DirectWon();
    OrderableApart();
    Merged();
    RefusedMerged();
  }
}
