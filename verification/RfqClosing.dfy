/** How long an accepted inquiry group stays closed. */
module RfqClosing {
  import opened Wrappers
  import opened Rfq
  import opened RfqRuns

  predicate InGroup(k: Key, row: Inquiry, g: Key) { GroupKey(k, row) == g }

  /** The group has rows, and all of them are closed. */
  predicate Closed(db: Db, g: Key) {
    && (exists k | k in db.inquiries :: InGroup(k, db.inquiries[k], g))
    && forall k | k in db.inquiries && InGroup(k, db.inquiries[k], g) :: db.inquiries[k].closedAt.Some?
  }

  /** The request is a stop that passes its checks and resolves to the group. */
  predicate Stops(db: Db, op: Op, g: Key) {
    && op.StopOp? && Valid(db, op)
    && match GroupFor(db.inquiries, op.owned, op.biz, op.g, op.seen, op.mine)
       case Ok((key, _)) => key == g
       case Err(_) => false
  }

  // ---- One step ----

  predicate HasGroup(db: Db, key: Key) { key.Uuid? || exists k | k in db.inquiries :: GroupKey(k, db.inquiries[k]) == key }

  lemma UpdateMisses(db: Db, key: Key, u: Update, g: Key)
    requires RowsOk(db.inquiries) && HasGroup(db, key) && key != g && Closed(db, g)
    ensures Closed(db.(inquiries := UpdateMany(db.inquiries, key, u)), g)
  {
    KeySelectsGroup(db.inquiries, key);
    var after := UpdateMany(db.inquiries, key, u);
    var w :| w in db.inquiries && InGroup(w, db.inquiries[w], g);
    assert InGroup(w, after[w], g);
    forall k | k in after && InGroup(k, after[k], g) ensures after[k].closedAt.Some? {
      assert InGroup(k, db.inquiries[k], g);
    }
  }

  /** An update of a group closes it or opens it, as the update says. */
  lemma UpdateHits(db: Db, u: Update, g: Key, w: Key)
    requires RowsOk(db.inquiries) && w in db.inquiries && InGroup(w, db.inquiries[w], g)
    ensures u.Close? ==> Closed(db.(inquiries := UpdateMany(db.inquiries, g, u)), g)
    ensures u.Stop? || u.Restart? ==> !Closed(db.(inquiries := UpdateMany(db.inquiries, g, u)), g)
    ensures u.ArchiveAll? && Closed(db, g) ==> Closed(db.(inquiries := UpdateMany(db.inquiries, g, u)), g)
  {
    assert GroupKey(w, db.inquiries[w]) == g;
    KeySelectsGroup(db.inquiries, g);
    var after := UpdateMany(db.inquiries, g, u);
    assert InGroup(w, after[w], g);
    forall k | k in after && InGroup(k, after[k], g) ensures after[k] == Updated(u, db.inquiries[k]) && InGroup(k, db.inquiries[k], g) {
      assert GroupKey(k, db.inquiries[k]) == GroupKey(k, after[k]);
    }
  }

  lemma GroupRequestCloses(db: Db, op: Op, g: Key)
    requires WellFormed(db) && Valid(db, op) && (op.StopOp? || op.RestartOp? || op.ArchiveOp?) && Closed(db, g)
    ensures Closed(Apply(db, op), g) <==> !Stops(db, op, g)
  {
    var found := GroupFor(db.inquiries, op.owned, op.biz, op.g, op.seen, op.mine);
    if found.Ok? {
      GroupForIsWhole(db, op.owned, op.biz, op.g, op.seen, op.mine);
      var key := GroupKey(op.seen.value, db.inquiries[op.seen.value]);
      var u := if op.StopOp? then Stop(op.now) else if op.RestartOp? then Restart else ArchiveAll;
      if key == g {
        assert InGroup(op.seen.value, db.inquiries[op.seen.value], g);
        UpdateHits(db, u, g, op.seen.value);
      } else {
        UpdateMisses(db, key, u, g);
      }
    }
  }

  lemma AcceptStaysClosed(db: Db, op: Op, g: Key)
    requires WellFormed(db) && Valid(db, op) && op.AcceptOp? && Closed(db, g)
    ensures Closed(Apply(db, op), g)
  {
    var r := AcceptOffer(db, op.owned, op.biz, op.offerId, op.legacy, op.seen, op.now);
    if r.1.Ok? && OfferGroup(db.inquiries, db.offers[op.offerId], op.legacy).Some? {
      var offer := db.offers[op.offerId];
      var key := OfferGroup(db.inquiries, offer, op.legacy).value;
      var u := Close(op.now, r.1.value.resultText, op.offerId);
      assert Linked(db.inquiries, offer);
      OfferRow(db, offer, op.legacy, op.seen);
      AcceptCloses(db, op.owned, op.biz, op.offerId, op.legacy, op.seen, op.now);
      if key == g {
        UpdateHits(db, u, g, op.seen.value);
      } else {
        UpdateMisses(db, key, u, g);
      }
      assert Apply(db, op).inquiries == UpdateMany(db.inquiries, key, u);
    }
  }

  /** Rows that stay, with their group and closing, and new rows of no old group. */
  predicate RowsStay(db: Db, db': Db) {
    && (forall k | k in db.inquiries ::
          k in db'.inquiries && db'.inquiries[k].rfqGroupId == db.inquiries[k].rfqGroupId && db'.inquiries[k].closedAt == db.inquiries[k].closedAt)
    && forall j, k | j in db'.inquiries && j !in db.inquiries && k in db.inquiries ::
         GroupKey(j, db'.inquiries[j]) != GroupKey(k, db.inquiries[k])
  }

  lemma StaysClosed(db: Db, db': Db, g: Key)
    requires RowsStay(db, db') && Closed(db, g)
    ensures Closed(db', g)
  {
    var w :| w in db.inquiries && InGroup(w, db.inquiries[w], g);
    assert InGroup(w, db'.inquiries[w], g);
  }

  lemma CreatedApart(db: Db, ids: seq<Key>, buyer: Id, rs: seq<Recipient>, basket: seq<BasketLine>, group: Key, expiresAt: int, now: int)
    requires WellFormed(db) && basket != [] && |ids| == |rs| && Fresh(db.inquiries, group, ids)
    ensures RowsStay(db, db.(inquiries := WithRows(db.inquiries, ids, buyer, rs, basket, group, expiresAt, now)))
  {
    CreatedRows(db.inquiries, ids, buyer, rs, basket, group, expiresAt, now);
    forall k | k in db.inquiries ensures GroupKey(k, db.inquiries[k]) != group {
      assert RowOk(k, db.inquiries[k]);
    }
  }

  lemma RequestStays(db: Db, op: Op)
    requires WellFormed(db) && Valid(db, op) && (op.RequestOp? || op.RepeatOp?)
    ensures RowsStay(db, Apply(db, op))
  {
    if op.RequestOp? {
      CreatedApart(db, op.ids, op.buyer, op.rs, op.basket, op.group, op.expiresAt, op.now);
    } else if Apply(db, op) != db {
      RepeatMakes(db, op);
      CreatedApart(db, op.ids, op.biz, op.rs, BasketOf(db.inquiries[op.src.value]), op.group, op.now + 3 * DAY_MS, op.now);
    }
  }

  lemma SendStays(db: Db, op: Op)
    requires op.SendOp?
    ensures RowsStay(db, Apply(db, op))
  {
    if Apply(db, op) != db {
      SendMakes(db, op);
    }
  }

  /** Of all requests, only a stop that reaches the group opens it. */
  lemma StepClosedIff(db: Db, op: Op, g: Key)
    requires WellFormed(db) && Closed(db, g)
    ensures Closed(Apply(db, op), g) <==> !Stops(db, op, g)
  {
    if Valid(db, op) {
      if op.StopOp? || op.RestartOp? || op.ArchiveOp? {
        GroupRequestCloses(db, op, g);
      } else if op.AcceptOp? {
        AcceptStaysClosed(db, op, g);
      } else if op.ColdOp? || op.OrderOp? {
        DealKeepsRows(db, op);
      } else if op.SendOp? {
        SendStays(db, op);
        StaysClosed(db, Apply(db, op), g);
      } else if op.MergeOp? {
        assert RowsStay(db, Apply(db, op));
        StaysClosed(db, Apply(db, op), g);
      } else {
        RequestStays(db, op);
        StaysClosed(db, Apply(db, op), g);
      }
    }
  }

  // ---- Every run ----

  lemma {:induction false} RunSnoc(db: Db, ops: seq<Op>, n: nat)
    requires n < |ops|
    ensures Run(db, ops[..n + 1]) == Apply(Run(db, ops[..n]), ops[n])
    decreases n
  {
    if n == 0 {
      assert ops[..1] == [ops[0]] && ops[..0] == [] && ops[..1][1..] == [];
    } else {
      RunSnoc(Apply(db, ops[0]), ops[1..], n - 1);
      assert ops[..n + 1][1..] == ops[1..][..n] && ops[..n][1..] == ops[1..][..n - 1];
    }
  }

  predicate ClosedAt(db: Db, ops: seq<Op>, n: nat, g: Key)
    requires n <= |ops|
  {
    Closed(Run(db, ops[..n]), g)
  }

  predicate StoppedAt(db: Db, ops: seq<Op>, n: nat, g: Key)
    requires n < |ops|
  {
    Stops(Run(db, ops[..n]), ops[n], g)
  }

  lemma ClosedNext(db: Db, ops: seq<Op>, n: nat, g: Key)
    requires WellFormed(db) && n < |ops| && ClosedAt(db, ops, n, g)
    ensures ClosedAt(db, ops, n + 1, g) <==> !StoppedAt(db, ops, n, g)
  {
    RunOk(db, ops[..n]);
    RunSnoc(db, ops, n);
    StepClosedIff(Run(db, ops[..n]), ops[n], g);
  }

  lemma {:induction false} ClosedWhileUnstopped(db: Db, ops: seq<Op>, n: nat, g: Key)
    requires WellFormed(db) && Closed(db, g) && n <= |ops| && forall i | 0 <= i < |ops| :: !StoppedAt(db, ops, i, g)
    ensures ClosedAt(db, ops, n, g)
  {
    if n == 0 {
      assert ops[..0] == [];
    } else {
      ClosedWhileUnstopped(db, ops, n - 1, g);
      ClosedNext(db, ops, n - 1, g);
    }
  }

  /**
   * A closed group stays closed throughout a run exactly when no request of the run is a stop that
   * passes its checks and resolves to the group: neither restarts, repeats, answers, further
   * acceptances nor anything else reopens it.
   */
  lemma StaysClosedIff(db: Db, ops: seq<Op>, g: Key)
    requires WellFormed(db) && Closed(db, g)
    ensures (forall n | 0 <= n <= |ops| :: ClosedAt(db, ops, n, g)) <==> (forall n | 0 <= n < |ops| :: !StoppedAt(db, ops, n, g))
  {
    if forall n | 0 <= n <= |ops| :: ClosedAt(db, ops, n, g) {
      forall n | 0 <= n < |ops| ensures !StoppedAt(db, ops, n, g) {
        assert ClosedAt(db, ops, n, g) && ClosedAt(db, ops, n + 1, g);
        ClosedNext(db, ops, n, g);
      }
    }
    if forall n | 0 <= n < |ops| :: !StoppedAt(db, ops, n, g) {
      forall n | 0 <= n <= |ops| ensures ClosedAt(db, ops, n, g) {
        ClosedWhileUnstopped(db, ops, n, g);
      }
    }
  }

  /** Right after an acceptance the offer's group is closed. */
  lemma AcceptedIsClosed(db: Db, owned: set<Id>, biz: Id, offerId: Id, legacy: Option<Key>, seen: Option<Key>, now: int)
    requires WellFormed(db) && offerId in db.offers && AcceptAnswers(db, db.offers[offerId], legacy, seen)
    requires AcceptOffer(db, owned, biz, offerId, legacy, seen, now).1.Ok?
    requires OfferGroup(db.inquiries, db.offers[offerId], legacy).Some?
    ensures Closed(AcceptOffer(db, owned, biz, offerId, legacy, seen, now).0, OfferGroup(db.inquiries, db.offers[offerId], legacy).value)
  {
    var g := OfferGroup(db.inquiries, db.offers[offerId], legacy).value;
    var r := AcceptOffer(db, owned, biz, offerId, legacy, seen, now);
    assert Linked(db.inquiries, db.offers[offerId]);
    OfferRow(db, db.offers[offerId], legacy, seen);
    AcceptCloses(db, owned, biz, offerId, legacy, seen, now);
    UpdateHits(db, Close(now, r.1.value.resultText, offerId), g, seen.value);
    assert r.0.inquiries == UpdateMany(db.inquiries, g, Close(now, r.1.value.resultText, offerId));
  }

  // ---- A run that reopens an accepted group ----

  const REQUEST := RequestOp("b", [Recipient("s", map["g" := "l"])], [BasketLine("g", 1)], Uuid(1), [Oid(1)], 100, 1)
  const ANSWER := SendOp({"s"}, "o", Oid(1), "S", [], Some(5), 2)
  const ACCEPT := AcceptOp({"b"}, "b", "o", Some(Oid(1)), Some(Oid(1)), 3)
  const STOP := StopOp({"b"}, "b", Uuid(1), Some(Oid(1)), Some(Oid(1)), 4)
  const RESTART := RestartOp({"b"}, "b", Uuid(1), Some(Oid(1)), Some(Oid(1)))

  const ASKED := Inquiry("b", "s", "l", "g", 1, Some(Uuid(1)), Some([RfqItem("g", 1, Some("l"))]), Some(100), None, None, None, None, RowNew, 1)
  const OFFERED := Offer("b", "s", "S", "l", 5, None, Some(Uuid(1)), 2)

  lemma Asked()
    ensures Apply(Db(map[], map[], map[]), REQUEST) == Db(map[Oid(1) := ASKED], map[], map[])
  {
    var rs, basket := REQUEST.rs, REQUEST.basket;
    assert rs[..0] == [] && REQUEST.ids[..0] == [];
    assert Snapshot(basket, rs[0].listings) == [RfqItem("g", 1, Some("l"))];
    assert WithRows(map[], [], "b", [], basket, Uuid(1), 100, 1) == map[];
    assert NewRow("b", rs[0], basket, Uuid(1), 100, 1) == Some(ASKED);
  }

  lemma Offered()
    ensures Apply(Db(map[Oid(1) := ASKED], map[], map[]), ANSWER) == Db(map[Oid(1) := ASKED.(status := RowAnswered)], map["o" := OFFERED], map[])
  {
    assert OfferFor(ASKED, "S", [], Some(5), 2) == Ok(OFFERED);
  }

  const WON := ASKED.(status := RowAnswered, closedAt := Some(3), resultText := Some(ResultText(OFFERED, true, 5)), acceptedOfferId := Some("o"))

  lemma Won()
    ensures Apply(Db(map[Oid(1) := ASKED.(status := RowAnswered)], map["o" := OFFERED], map[]), ACCEPT)
            == Db(map[Oid(1) := WON], map["o" := OFFERED], map[])
  {
    var db := Db(map[Oid(1) := ASKED.(status := RowAnswered)], map["o" := OFFERED], map[]);
    assert Valid(db, ACCEPT);
    assert Matches(Uuid(1), Oid(1), db.inquiries[Oid(1)]);
    assert |ItemsOf(db.inquiries[Oid(1)])| == 1;
  }

  lemma Reopened()
    ensures var db := Db(map[Oid(1) := WON], map["o" := OFFERED], map[]);
            && Stops(db, STOP, Uuid(1))
            && Apply(Apply(db, STOP), RESTART) == Db(map[Oid(1) := WON.(closedAt := None, resultText := None)], map["o" := OFFERED], map[])
  {
    var db := Db(map[Oid(1) := WON], map["o" := OFFERED], map[]);
    assert Matches(Uuid(1), Oid(1), WON);
    assert Valid(db, STOP);
    var stopped := Apply(db, STOP);
    assert stopped == Db(map[Oid(1) := WON.(stoppedAt := Some(4), closedAt := None, resultText := None)], map["o" := OFFERED], map[]);
    assert Valid(stopped, RESTART);
  }

  /** Request, answer, accept, stop, restart: the accepted group is open again, its winner still on record. */
  lemma AcceptedThenReopened()
    ensures var accepted := Run(Db(map[], map[], map[]), [REQUEST, ANSWER, ACCEPT]);
            var reopened := Run(accepted, [STOP, RESTART]);
            && accepted.inquiries == map[Oid(1) := WON] && Closed(accepted, Uuid(1)) && Stops(accepted, STOP, Uuid(1))
            && reopened.inquiries == map[Oid(1) := WON.(closedAt := None, resultText := None)]
  {
    Asked();
    Offered();
    Won();
    Reopened();
    RunOfThree(Db(map[], map[], map[]), REQUEST, ANSWER, ACCEPT);
    RunOfTwo(Db(map[Oid(1) := WON], map["o" := OFFERED], map[]), STOP, RESTART);
    assert InGroup(Oid(1), WON, Uuid(1));
  }

  lemma RunOfTwo(db: Db, a: Op, b: Op)
    ensures Run(db, [a, b]) == Apply(Apply(db, a), b)
  {
    assert [a, b][1..] == [b] && [b][1..] == [];
    assert Run(Apply(db, a), [b]) == Apply(Apply(db, a), b);
  }

  lemma RunOfThree(db: Db, a: Op, b: Op, c: Op)
    ensures Run(db, [a, b, c]) == Apply(Apply(Apply(db, a), b), c)
  {
    assert [a, b, c][1..] == [b, c];
    RunOfTwo(Apply(db, a), b, c);
  }
}
