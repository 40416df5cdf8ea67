/**
 * The order protocol with every handler split where it awaits the database: the read and check,
 * the re-read of the timeline, the draw of a document number, and the write are separate steps, and
 * the steps of any number of handlers and sweeps interleave freely.
 */
module OrdersInterleaved {
  import opened Wrappers
  import opened Orders

  type Tid = nat

  /** Where an in-flight handler stands, with what it has read so far. */
  datatype Pc =
    | AcceptChecked(id: Id, seen: Order, edits: seq<Edit>)
    | AcceptNumbered(id: Id, seen: Order, edits: seq<Edit>, docNo: nat)
    | MoveChecked(id: Id, to: Status, who: Party, deadline: Option<int>)
    | MoveRead(id: Id, to: Status, who: Party, deadline: Option<int>, history: seq<Entry>)
    | ArchiveChecked(id: Id)
    | SweepListed(due: seq<Id>)
    | SweepRead(due: seq<Id>, history: seq<Entry>)

  datatype St = St(db: Db, threads: map<Tid, Pc>)

  datatype Action =
    | Place(id: Id, buyerId: Id, sellerId: Id, origin: Origin, items: seq<Item>, now: int)
    | Begin(t: Tid, id: Id, biz: Id, act: Act, now: int)
    | BeginSweep(t: Tid, due: seq<Id>, now: int)
    | Step(t: Tid, now: int)

  /** Where a handler stands after its read and its checks. */
  function Checked(id: Id, o: Order, act: Act, now: int): Pc {
    match act
    case Accept(edits) => AcceptChecked(id, o, edits)
    case Reject => MoveChecked(id, REJECTED, Seller, None)
    case Send => MoveChecked(id, SENT, Seller, Some(now + GRACE))
    case Deliver => MoveChecked(id, DELIVERED, Buyer, None)
    case Cancel => MoveChecked(id, CANCELLED, Buyer, None)
    case Archive => ArchiveChecked(id)
  }

  /** The row an in-flight write leaves: only the columns it sets, computed from what it read. */
  function WriteRow(pc: Pc, row: Order, now: int): Order
    requires pc.AcceptNumbered? || pc.MoveRead? || pc.ArchiveChecked? || pc.SweepRead?
  {
    match pc
    case AcceptNumbered(_, seen, edits, docNo) =>
      var items := EditItems(seen.items, edits);
      row.(status := ACCEPTED, items := items, totalMinor := Total(items), docNo := Some(docNo),
           history := seen.history + [Entry(ACCEPTED, now, Seller)])
    case MoveRead(_, to, _, deadline, history) =>
      row.(status := to, history := history, deliverDeadline := if deadline.Some? then deadline else row.deliverDeadline)
    case ArchiveChecked(_) => row.(archivedAt := Some(now))
    case SweepRead(_, history) => row.(status := DELIVERED, history := history)
  }

  predicate Present(db: Db, pc: Pc) {
    match pc
    case SweepListed(due) => forall id | id in due :: id in db.orders
    case SweepRead(due, _) => due != [] && forall id | id in due :: id in db.orders
    case _ => pc.id in db.orders
  }

  /** The next step of one handler: its effect on the tables, and where it stands afterwards. */
  function StepOf(db: Db, pc: Pc, now: int): (Db, Option<Pc>)
    requires Present(db, pc)
  {
    match pc
    case AcceptChecked(id, seen, edits) =>
      (Draw(db, seen.sellerId), Some(AcceptNumbered(id, seen, edits, SeqOf(db, seen.sellerId) + 1)))
    case MoveChecked(id, to, who, deadline) =>
      (db, Some(MoveRead(id, to, who, deadline, db.orders[id].history + [Entry(to, now, who)])))
    case SweepListed(due) =>
      if due == [] then (db, None)
      else (db, Some(SweepRead(due, db.orders[due[0]].history + [Entry(DELIVERED, now, System)])))
    case SweepRead(due, _) =>
      (Put(db, due[0], WriteRow(pc, db.orders[due[0]], now)), Some(SweepListed(due[1..])))
    case AcceptNumbered(id, _, _, _) => (Put(db, id, WriteRow(pc, db.orders[id], now)), None)
    case MoveRead(id, _, _, _, _) => (Put(db, id, WriteRow(pc, db.orders[id], now)), None)
    case ArchiveChecked(id) => (Put(db, id, WriteRow(pc, db.orders[id], now)), None)
  }

  function Next(s: St, a: Action): St {
    match a
    case Place(id, buyerId, sellerId, origin, items, now) =>
      s.(db := Apply(s.db, Create(id, buyerId, sellerId, origin, items, now)).0)
    case Begin(t, id, biz, act, now) =>
      if t in s.threads || Load(s.db, id, biz).Err? || Guard(act, Load(s.db, id, biz).value.0, Load(s.db, id, biz).value.1).Some? then s
      else s.(threads := s.threads[t := Checked(id, s.db.orders[id], act, now)])
    case BeginSweep(t, due, now) =>
      if t in s.threads || !IsSweep(s.db, due, now) then s else s.(threads := s.threads[t := SweepListed(due)])
    case Step(t, now) =>
      if t !in s.threads || !Present(s.db, s.threads[t]) then s
      else
        var (db', pc') := StepOf(s.db, s.threads[t], now);
        St(db', match pc' case Some(pc) => s.threads[t := pc] case None => s.threads - {t})
  }

  function Run(s: St, actions: seq<Action>): St
    decreases |actions|
  {
    if actions == [] then s else Run(Next(s, actions[0]), actions[1..])
  }

  // ---- What survives every interleaving ----

  /** The status is the last entry's and the total belongs to the lines. */
  predicate Coherent(o: Order) {
    |o.history| > 0 && o.status == o.history[|o.history| - 1].st && o.totalMinor == Total(o.items)
  }

  predicate PcOk(db: Db, pc: Pc) {
    && Present(db, pc)
    && match pc
       case AcceptChecked(id, seen, _) => seen.sellerId == db.orders[id].sellerId
       case AcceptNumbered(id, seen, _, docNo) => seen.sellerId == db.orders[id].sellerId && docNo <= SeqOf(db, seen.sellerId)
       case MoveRead(_, to, _, _, history) => |history| > 0 && history[|history| - 1].st == to
       case SweepRead(_, history) => |history| > 0 && history[|history| - 1].st == DELIVERED
       case _ => true
  }

  /** The document number on an order, with the seller who issued it. */
  function Tag(o: Order): Option<(Id, nat)> {
    if o.docNo.Some? then Some((o.sellerId, o.docNo.value)) else None
  }

  /** The document number an accept has drawn and not yet written. */
  function DrawnTag(pc: Pc): Option<(Id, nat)> {
    if pc.AcceptNumbered? then Some((pc.seen.sellerId, pc.docNo)) else None
  }

  predicate AllCoherent(db: Db) { forall id | id in db.orders :: Coherent(db.orders[id]) }

  predicate UniqueNumbers(db: Db) {
    && (forall id | id in db.orders && Tag(db.orders[id]).Some? :: Tag(db.orders[id]).value.1 <= SeqOf(db, db.orders[id].sellerId))
    && (forall a, b | a in db.orders && b in db.orders && a != b :: Tag(db.orders[a]).Some? ==> Tag(db.orders[a]) != Tag(db.orders[b]))
  }

  predicate UniqueDrawn(s: St) {
    && (forall t, id | t in s.threads && id in s.db.orders :: DrawnTag(s.threads[t]).Some? ==> DrawnTag(s.threads[t]) != Tag(s.db.orders[id]))
    && (forall t, u | t in s.threads && u in s.threads && t != u :: DrawnTag(s.threads[t]).Some? ==> DrawnTag(s.threads[t]) != DrawnTag(s.threads[u]))
  }

  predicate ThreadsOk(s: St) { forall t | t in s.threads :: PcOk(s.db, s.threads[t]) }

  predicate Inv(s: St) {
    AllCoherent(s.db) && ThreadsOk(s) && UniqueNumbers(s.db) && UniqueDrawn(s)
  }

  /** A row that keeps its seller, and a counter that only rises, disturb no other handler. */
  lemma OthersOk(db: Db, db': Db, pc: Pc)
    requires PcOk(db, pc) && db.orders.Keys <= db'.orders.Keys
    requires forall id | id in db.orders :: db'.orders[id].sellerId == db.orders[id].sellerId
    requires forall seller :: SeqOf(db, seller) <= SeqOf(db', seller)
    ensures PcOk(db', pc)
  {
  }

  /** The threads of `s'` are those of `s`, except that `t` may have moved on. */
  predicate OnlyMoved(s: St, s': St, t: Tid) {
    s'.threads.Keys <= s.threads.Keys + {t} && forall u | u in s'.threads && u != t :: s'.threads[u] == s.threads[u]
  }

  lemma OthersStayOk(s: St, s': St, t: Tid)
    requires ThreadsOk(s) && OnlyMoved(s, s', t) && s.db.orders.Keys <= s'.db.orders.Keys
    requires forall id | id in s.db.orders :: s'.db.orders[id].sellerId == s.db.orders[id].sellerId
    requires forall seller :: SeqOf(s.db, seller) <= SeqOf(s'.db, seller)
    requires t in s'.threads ==> PcOk(s'.db, s'.threads[t])
    ensures ThreadsOk(s')
  {
    forall u | u in s'.threads ensures PcOk(s'.db, s'.threads[u]) {
      if u != t {
        OthersOk(s.db, s'.db, s.threads[u]);
      }
    }
  }

  lemma WriteKeepsUnique(s: St, t: Tid, id: Id, row: Order)
    requires UniqueNumbers(s.db) && UniqueDrawn(s) && id in s.db.orders && t in s.threads && PcOk(s.db, s.threads[t])
    requires row.sellerId == s.db.orders[id].sellerId
    requires Tag(row) == Tag(s.db.orders[id]) || Tag(row) == DrawnTag(s.threads[t])
    ensures UniqueNumbers(Put(s.db, id, row))
  {
  }

  lemma WriteKeepsDrawn(s: St, s': St, t: Tid, id: Id, row: Order)
    requires UniqueDrawn(s) && id in s.db.orders && t in s.threads
    requires s'.db == Put(s.db, id, row) && OnlyMoved(s, s', t)
    requires Tag(row) == Tag(s.db.orders[id]) || Tag(row) == DrawnTag(s.threads[t])
    requires t in s'.threads ==> DrawnTag(s'.threads[t]).None?
    ensures UniqueDrawn(s')
  {
  }

  /** One handler writing one row: the number on it is the old one or the one the handler drew. */
  lemma WriteKeepsInv(s: St, s': St, t: Tid, id: Id, row: Order)
    requires Inv(s) && id in s.db.orders && t in s.threads
    requires s'.db == Put(s.db, id, row) && OnlyMoved(s, s', t)
    requires Coherent(row) && row.sellerId == s.db.orders[id].sellerId
    requires Tag(row) == Tag(s.db.orders[id]) || Tag(row) == DrawnTag(s.threads[t])
    requires t in s'.threads ==> PcOk(s'.db, s'.threads[t]) && DrawnTag(s'.threads[t]).None?
    ensures Inv(s')
  {
    OthersStayOk(s, s', t);
    WriteKeepsUnique(s, t, id, row);
    WriteKeepsDrawn(s, s', t, id, row);
  }

  lemma DrawKeepsDrawn(s: St, s': St, t: Tid, seller: Id)
    requires ThreadsOk(s) && UniqueNumbers(s.db) && UniqueDrawn(s)
    requires s'.db == Draw(s.db, seller) && OnlyMoved(s, s', t) && t in s'.threads
    requires DrawnTag(s'.threads[t]) == Some((seller, SeqOf(s.db, seller) + 1))
    ensures UniqueDrawn(s')
  {
    forall u | u in s'.threads && u != t ensures DrawnTag(s'.threads[u]) != DrawnTag(s'.threads[t]) {
      assert PcOk(s.db, s.threads[u]);
    }
  }

  /** One handler drawing the seller's next number. */
  lemma DrawKeepsInv(s: St, s': St, t: Tid, seller: Id)
    requires Inv(s)
    requires s'.db == Draw(s.db, seller) && OnlyMoved(s, s', t) && t in s'.threads
    requires PcOk(s'.db, s'.threads[t]) && DrawnTag(s'.threads[t]) == Some((seller, SeqOf(s.db, seller) + 1))
    ensures Inv(s')
  {
    OthersStayOk(s, s', t);
    DrawKeepsDrawn(s, s', t, seller);
  }

  lemma ReadKeepsDrawn(s: St, s': St, t: Tid)
    requires UniqueDrawn(s) && s'.db == s.db && OnlyMoved(s, s', t)
    requires t in s'.threads ==> DrawnTag(s'.threads[t]).None?
    ensures UniqueDrawn(s')
  {
  }

  /** A handler starting, re-reading, or finishing without a write. */
  lemma ReadKeepsInv(s: St, s': St, t: Tid)
    requires Inv(s) && s'.db == s.db && OnlyMoved(s, s', t)
    requires t in s'.threads ==> PcOk(s'.db, s'.threads[t]) && DrawnTag(s'.threads[t]).None?
    ensures Inv(s')
  {
    ReadKeepsDrawn(s, s', t);
    forall u | u in s'.threads ensures PcOk(s'.db, s'.threads[u]) {
      if u != t {
        assert PcOk(s.db, s.threads[u]);
      }
    }
  }

  lemma PlaceKeepsNumbers(s: St, id: Id, o: Order)
    requires UniqueNumbers(s.db) && UniqueDrawn(s) && id !in s.db.orders && o.docNo.None?
    ensures UniqueNumbers(Put(s.db, id, o)) && UniqueDrawn(St(Put(s.db, id, o), s.threads))
  {
  }

  lemma PlaceKeepsInv(s: St, id: Id, o: Order)
    requires Inv(s) && id !in s.db.orders && Coherent(o) && o.docNo.None?
    ensures Inv(St(Put(s.db, id, o), s.threads))
  {
    var s' := St(Put(s.db, id, o), s.threads);
    PlaceKeepsNumbers(s, id, o);
    forall u | u in s'.threads ensures PcOk(s'.db, s'.threads[u]) {
      OthersOk(s.db, s'.db, s.threads[u]);
    }
  }

  predicate Writing(pc: Pc) { pc.AcceptNumbered? || pc.MoveRead? || pc.ArchiveChecked? || pc.SweepRead? }

  /** The order the next write goes to. */
  function Row(pc: Pc): Id
    requires Writing(pc) && (pc.SweepRead? ==> pc.due != [])
  {
    if pc.SweepRead? then pc.due[0] else pc.id
  }

  lemma WrittenRow(db: Db, pc: Pc, now: int)
    requires PcOk(db, pc) && Writing(pc) && Coherent(db.orders[Row(pc)])
    ensures var o := db.orders[Row(pc)];
            var row := WriteRow(pc, o, now);
            && Coherent(row) && row.sellerId == o.sellerId
            && (Tag(row) == Tag(o) || Tag(row) == DrawnTag(pc))
            && StepOf(db, pc, now) == (Put(db, Row(pc), row), if pc.SweepRead? then Some(SweepListed(pc.due[1..])) else None)
  {
  }

  /** A step is that of its thread, and no other thread moves. */
  lemma StepShape(s: St, t: Tid, now: int)
    requires t in s.threads && Present(s.db, s.threads[t])
    ensures var s' := Next(s, Step(t, now));
            && OnlyMoved(s, s', t)
            && (s'.db, if t in s'.threads then Some(s'.threads[t]) else None) == StepOf(s.db, s.threads[t], now)
  {
  }

  lemma ReadStepOk(db: Db, pc: Pc, now: int)
    requires PcOk(db, pc) && !Writing(pc)
    ensures var (db', pc') := StepOf(db, pc, now);
            && (pc'.Some? ==> PcOk(db', pc'.value))
            && if pc.AcceptChecked? then db' == Draw(db, pc.seen.sellerId) && pc'.Some?
                 && DrawnTag(pc'.value) == Some((pc.seen.sellerId, SeqOf(db, pc.seen.sellerId) + 1))
               else db' == db && (pc'.Some? ==> DrawnTag(pc'.value).None?)
  {
  }

  lemma StepKeepsInv(s: St, t: Tid, now: int)
    requires Inv(s) && t in s.threads
    ensures Inv(Next(s, Step(t, now)))
  {
    var s', pc := Next(s, Step(t, now)), s.threads[t];
    assert PcOk(s.db, pc);
    StepShape(s, t, now);
    if Writing(pc) {
      assert Coherent(s.db.orders[Row(pc)]);
      WrittenRow(s.db, pc, now);
      WriteKeepsInv(s, s', t, Row(pc), WriteRow(pc, s.db.orders[Row(pc)], now));
    } else {
      ReadStepOk(s.db, pc, now);
      if pc.AcceptChecked? {
        DrawKeepsInv(s, s', t, pc.seen.sellerId);
      } else {
        ReadKeepsInv(s, s', t);
      }
    }
  }

  /** A started handler has read its rows and drawn no number. */
  lemma BegunOk(s: St, a: Action)
    requires (a.Begin? || a.BeginSweep?) && Next(s, a) != s
    ensures var s' := Next(s, a);
            && s'.db == s.db && OnlyMoved(s, s', a.t) && a.t !in s.threads && a.t in s'.threads
            && PcOk(s.db, s'.threads[a.t]) && DrawnTag(s'.threads[a.t]).None?
  {
  }

  lemma NextKeepsInv(s: St, a: Action)
    requires Inv(s)
    ensures Inv(Next(s, a))
  {
    match a
    case Place(id, buyerId, sellerId, origin, items, now) =>
      if id !in s.db.orders {
        PlaceKeepsInv(s, id, NewOrder(buyerId, sellerId, origin, items, now));
      }
    case Step(t, now) =>
      if t in s.threads {
        StepKeepsInv(s, t, now);
      }
    case _ =>
      if Next(s, a) != s {
        BegunOk(s, a);
        ReadKeepsInv(s, Next(s, a), a.t);
      }
  }

  /**
   * Under every interleaving of any number of handlers and sweeps, each order's status is its last
   * entry's, its total is the sum over its lines, and no two orders of a seller share a document
   * number, each at most the seller's counter.
   */
  lemma {:induction false} EveryInterleaving(s: St, actions: seq<Action>)
    requires Inv(s)
    ensures var db := Run(s, actions).db;
            && Inv(Run(s, actions))
            && (forall id | id in db.orders :: Coherent(db.orders[id]))
            && (forall a, b | a in db.orders && b in db.orders && a != b && db.orders[a].sellerId == db.orders[b].sellerId
                  && db.orders[a].docNo.Some? :: db.orders[a].docNo != db.orders[b].docNo)
            && (forall a | a in db.orders && db.orders[a].docNo.Some? :: db.orders[a].docNo.value <= SeqOf(db, db.orders[a].sellerId))
    decreases |actions|
  {
    if actions != [] {
      NextKeepsInv(s, actions[0]);
      EveryInterleaving(Next(s, actions[0]), actions[1..]);
    } else {
      var db := s.db;
      forall a, b | a in db.orders && b in db.orders && a != b && db.orders[a].sellerId == db.orders[b].sellerId && db.orders[a].docNo.Some?
        ensures db.orders[a].docNo != db.orders[b].docNo
      {
        assert Tag(db.orders[a]) != Tag(db.orders[b]);
      }
    }
  }

  // ---- What does not survive ----

  /** A buyer's cancel that re-read the timeline before a seller's accept was written, and wrote after it. */
  const LOST: seq<Action> := [
    Place("o", "b", "s", CatalogBasket, [], 0),
    Begin(1, "o", "s", Accept([]), 1),
    Begin(2, "o", "b", Cancel, 2),
    Step(2, 3),
    Step(1, 4),
    Step(1, 5),
    Step(2, 6)]

  /** The interleaving erases the acceptance from the timeline while the document number stays. */
  lemma AcceptanceIsLost()
    ensures var o := Run(St(Db(map[], map[]), map[]), LOST).db.orders;
            && "o" in o && o["o"].history == [Entry(NEW, 0, Buyer), Entry(CANCELLED, 3, Buyer)]
            && o["o"].docNo == Some(1) && !GoodOrder(o["o"])
  {
    var s0 := St(Db(map[], map[]), map[]);
    BothChecked();
    BothWritten();
    RunSplit(s0, LOST, 0);
    RunSplit(Next(s0, LOST[0]), LOST, 1);
    RunSplit(Next(Next(s0, LOST[0]), LOST[1]), LOST, 2);
    RunSplit(BOTH_CHECKED, LOST, 3);
    RunSplit(Next(BOTH_CHECKED, LOST[3]), LOST, 4);
    RunSplit(Next(Next(BOTH_CHECKED, LOST[3]), LOST[4]), LOST, 5);
    RunSplit(Next(Next(Next(BOTH_CHECKED, LOST[3]), LOST[4]), LOST[5]), LOST, 6);
    assert LOST[0..] == LOST && LOST[7..] == [];
  }

  const PLACED := NewOrder("b", "s", CatalogBasket, [], 0)

  const BOTH_CHECKED := St(Db(map["o" := PLACED], map[]), map[1 := AcceptChecked("o", PLACED, []), 2 := MoveChecked("o", CANCELLED, Buyer, None)])

  lemma BothChecked()
    ensures Next(Next(Next(St(Db(map[], map[]), map[]), LOST[0]), LOST[1]), LOST[2]) == BOTH_CHECKED
  {
    var s1 := Next(St(Db(map[], map[]), map[]), LOST[0]);
    assert s1 == St(Db(map["o" := PLACED], map[]), map[]);
    var s2 := Next(s1, LOST[1]);
    assert s2 == St(Db(map["o" := PLACED], map[]), map[1 := AcceptChecked("o", PLACED, [])]);
  }

  const STALE := MoveRead("o", CANCELLED, Buyer, None, [Entry(NEW, 0, Buyer), Entry(CANCELLED, 3, Buyer)])
  const ACCEPTED_ROW := PLACED.(status := ACCEPTED, totalMinor := 0, docNo := Some(1), history := [Entry(NEW, 0, Buyer), Entry(ACCEPTED, 5, Seller)])

  lemma StaleRead()
    ensures Next(BOTH_CHECKED, LOST[3]) == St(BOTH_CHECKED.db, map[1 := AcceptChecked("o", PLACED, []), 2 := STALE])
  {
    assert PLACED.history + [Entry(CANCELLED, 3, Buyer)] == [Entry(NEW, 0, Buyer), Entry(CANCELLED, 3, Buyer)];
    assert LOST[3] == Step(2, 3);
  }

  lemma Drawn()
    ensures Next(St(BOTH_CHECKED.db, map[1 := AcceptChecked("o", PLACED, []), 2 := STALE]), LOST[4])
            == St(Db(map["o" := PLACED], map["s" := 1]), map[1 := AcceptNumbered("o", PLACED, [], 1), 2 := STALE])
  {
  }

  lemma AcceptWritten()
    ensures Next(St(Db(map["o" := PLACED], map["s" := 1]), map[1 := AcceptNumbered("o", PLACED, [], 1), 2 := STALE]), LOST[5])
            == St(Db(map["o" := ACCEPTED_ROW], map["s" := 1]), map[2 := STALE])
  {
    assert EditItems([], []) == [];
    assert PLACED.history + [Entry(ACCEPTED, 5, Seller)] == [Entry(NEW, 0, Buyer), Entry(ACCEPTED, 5, Seller)];
    assert LOST[5] == Step(1, 5);
  }

  lemma BothWritten()
    ensures var o := Next(Next(Next(Next(BOTH_CHECKED, LOST[3]), LOST[4]), LOST[5]), LOST[6]).db.orders;
            && "o" in o && o["o"].history == [Entry(NEW, 0, Buyer), Entry(CANCELLED, 3, Buyer)]
            && o["o"].docNo == Some(1) && !GoodOrder(o["o"])
  {
    StaleRead();
    Drawn();
    AcceptWritten();
  }

  lemma RunSplit(s: St, a: seq<Action>, k: nat)
    requires k < |a|
    ensures Run(s, a[k..]) == Run(Next(s, a[k]), a[k + 1..])
  {
  }

  // ---- One handler at a time on each order ----

  /** The orders a handler may still write. */
  function Holds(pc: Pc): set<Id> {
    match pc
    case SweepListed(due) => set id | id in due
    case SweepRead(due, _) => set id | id in due
    case _ => {pc.id}
  }

  predicate Free(s: St, id: Id) {
    forall t | t in s.threads :: id !in Holds(s.threads[t])
  }

  /** The action starts no handler on an order that another one is still working on. */
  predicate Exclusive(s: St, a: Action) {
    match a
    case Begin(_, id, _, _, _) => Free(s, id)
    case BeginSweep(_, due, _) => forall id | id in due :: Free(s, id)
    case _ => true
  }

  predicate ExclusiveRun(s: St, actions: seq<Action>)
    decreases |actions|
  {
    actions == [] || (Exclusive(s, actions[0]) && ExclusiveRun(Next(s, actions[0]), actions[1..]))
  }

  predicate Distinct(due: seq<Id>) {
    forall i, j | 0 <= i < j < |due| :: due[i] != due[j]
  }

  /** What a handler read and checked is still what the row says. */
  predicate Current(db: Db, pc: Pc)
    requires Present(db, pc)
  {
    match pc
    case AcceptChecked(id, seen, _) => seen == db.orders[id] && seen.status == NEW
    case AcceptNumbered(id, seen, _, _) => seen == db.orders[id] && seen.status == NEW
    case MoveChecked(id, to, who, deadline) =>
      Edge(db.orders[id].status, to) && MayRecord(Entry(to, 0, who)) && to != ACCEPTED && (deadline.Some? <==> to == SENT)
    case MoveRead(id, to, who, deadline, history) =>
      && Edge(db.orders[id].status, to) && to != ACCEPTED && (deadline.Some? <==> to == SENT)
      && |history| > 0 && history == db.orders[id].history + [history[|history| - 1]]
      && history[|history| - 1].st == to && MayRecord(history[|history| - 1])
    case ArchiveChecked(id) => Terminal(db.orders[id].status)
    case SweepListed(due) => Distinct(due) && forall id | id in due :: db.orders[id].status == SENT
    case SweepRead(due, history) =>
      && Distinct(due) && (forall id | id in due :: db.orders[id].status == SENT)
      && |history| > 0 && history == db.orders[due[0]].history + [history[|history| - 1]]
      && history[|history| - 1].st == DELIVERED && history[|history| - 1].who == System
  }

  predicate AllCurrent(s: St) { forall t | t in s.threads :: Present(s.db, s.threads[t]) && Current(s.db, s.threads[t]) }

  predicate AllApart(s: St) {
    forall t, u | t in s.threads && u in s.threads && t != u :: Holds(s.threads[t]) !! Holds(s.threads[u])
  }

  predicate InvX(s: St) { Inv(s) && AllGood(s.db) && AllCurrent(s) && AllApart(s) }

  /** A handler is only concerned with the rows it holds. */
  lemma StaysCurrent(db: Db, db': Db, pc: Pc)
    requires Present(db, pc) && Current(db, pc) && Present(db', pc)
    requires forall id | id in Holds(pc) :: id in db.orders && id in db'.orders && db'.orders[id] == db.orders[id]
    ensures Current(db', pc)
  {
  }

  /** Written from current data, the row stays good and only moves forward. */
  lemma CurrentWriteIsGood(db: Db, pc: Pc, now: int)
    requires PcOk(db, pc) && Current(db, pc) && Writing(pc) && GoodOrder(db.orders[Row(pc)])
    ensures var o := db.orders[Row(pc)]; GoodOrder(WriteRow(pc, o, now)) && Later(o, WriteRow(pc, o, now))
  {
    var o := db.orders[Row(pc)];
    var w := WriteRow(pc, o, now);
    RankFalls(o.history, |o.history| - 1);
    if !pc.ArchiveChecked? {
      var e := w.history[|w.history| - 1];
      assert w.history == o.history + [e];
      MoveKeepsGood(o, w, e);
    }
  }

  /** One handler changing only an order it holds leaves the others' data current. */
  lemma HeldWriteKeepsX(s: St, s': St, t: Tid)
    requires InvX(s) && Inv(s') && AllGood(s'.db) && OnlyMoved(s, s', t)
    requires s.db.orders.Keys <= s'.db.orders.Keys
    requires forall id | id in s.db.orders && (t in s.threads ==> id !in Holds(s.threads[t])) :: s'.db.orders[id] == s.db.orders[id]
    requires t in s'.threads ==> Current(s'.db, s'.threads[t])
    requires t in s'.threads ==> Apart(s, t, Holds(s'.threads[t]))
    ensures InvX(s')
  {
    StayApart(s, s', t);
    forall u | u in s'.threads ensures Present(s'.db, s'.threads[u]) && Current(s'.db, s'.threads[u]) {
      assert PcOk(s'.db, s'.threads[u]);
      if u != t {
        assert Present(s.db, s.threads[u]) && Current(s.db, s.threads[u]);
        OtherStaysCurrent(s, s', t, u);
      }
    }
  }

  lemma StayApart(s: St, s': St, t: Tid)
    requires AllApart(s) && OnlyMoved(s, s', t) && (t in s'.threads ==> Apart(s, t, Holds(s'.threads[t])))
    ensures AllApart(s')
  {
  }

  lemma OtherStaysCurrent(s: St, s': St, t: Tid, u: Tid)
    requires u in s.threads && u in s'.threads && s'.threads[u] == s.threads[u]
    requires Present(s.db, s.threads[u]) && Current(s.db, s.threads[u]) && Present(s'.db, s.threads[u])
    requires s.db.orders.Keys <= s'.db.orders.Keys
    requires t in s.threads ==> Holds(s.threads[t]) !! Holds(s.threads[u])
    requires forall id | id in s.db.orders && (t in s.threads ==> id !in Holds(s.threads[t])) :: s'.db.orders[id] == s.db.orders[id]
    ensures Current(s'.db, s'.threads[u])
  {
    HeldPresent(s.db, s.threads[u]);
    StaysCurrent(s.db, s'.db, s.threads[u]);
  }

  lemma HeldPresent(db: Db, pc: Pc)
    requires Present(db, pc)
    ensures forall id | id in Holds(pc) :: id in db.orders
  {
  }

  predicate StaysMine(db: Db, pc: Pc, now: int)
    requires Present(db, pc)
  {
    var (db', pc') := StepOf(db, pc, now);
    pc'.Some? ==> Holds(pc'.value) <= Holds(pc) && Present(db', pc'.value) && Current(db', pc'.value)
  }

  lemma SweepStaysMine(db: Db, pc: Pc, now: int)
    requires PcOk(db, pc) && Current(db, pc) && pc.SweepRead?
    ensures StaysMine(db, pc, now)
  {
    assert forall id | id in pc.due[1..] :: id in pc.due && id != pc.due[0];
  }

  lemma ListStaysMine(db: Db, pc: Pc, now: int)
    requires PcOk(db, pc) && Current(db, pc) && pc.SweepListed?
    ensures StaysMine(db, pc, now)
  {
    if pc.due != [] {
      var h := db.orders[pc.due[0]].history + [Entry(DELIVERED, now, System)];
      assert h[|h| - 1] == Entry(DELIVERED, now, System);
      assert pc.due[0] in pc.due;
    }
  }

  /** A handler's own step keeps its data current and takes up no new order. */
  lemma StepStaysMine(db: Db, pc: Pc, now: int)
    requires PcOk(db, pc) && Current(db, pc)
    ensures StaysMine(db, pc, now)
  {
    match pc
    case MoveChecked(id, to, who, deadline) =>
      var h := db.orders[id].history + [Entry(to, now, who)];
      assert h[|h| - 1] == Entry(to, now, who);
    case SweepListed(_) => ListStaysMine(db, pc, now);
    case SweepRead(_, _) => SweepStaysMine(db, pc, now);
    case _ =>
  }

  predicate MovesForward(db: Db, db': Db) {
    forall id | id in db.orders :: id in db'.orders && Later(db.orders[id], db'.orders[id])
  }

  lemma PutForward(db: Db, id: Id, w: Order)
    requires AllGood(db) && id in db.orders && GoodOrder(w) && Later(db.orders[id], w)
    ensures AllGood(Put(db, id, w)) && MovesForward(db, Put(db, id, w))
  {
    forall x | x in db.orders ensures Later(db.orders[x], Put(db, id, w).orders[x]) {
    }
  }

  lemma SameRows(db: Db, db': Db)
    requires AllGood(db) && db'.orders == db.orders
    ensures AllGood(db') && MovesForward(db, db')
  {
  }

  /** A step changes only a row the handler holds, and that row moves forward. */
  lemma StepEffect(db: Db, pc: Pc, now: int)
    requires PcOk(db, pc) && Current(db, pc) && AllGood(db)
    ensures var db' := StepOf(db, pc, now).0;
            && AllGood(db') && MovesForward(db, db')
            && forall id | id in db.orders && id !in Holds(pc) :: db'.orders[id] == db.orders[id]
  {
    if Writing(pc) {
      var id := Row(pc);
      assert GoodOrder(db.orders[id]);
      WrittenRow(db, pc, now);
      CurrentWriteIsGood(db, pc, now);
      PutForward(db, id, WriteRow(pc, db.orders[id], now));
      assert id in Holds(pc);
    } else {
      ReadStepOk(db, pc, now);
      SameRows(db, StepOf(db, pc, now).0);
    }
  }

  lemma StepMovesForward(s: St, t: Tid, now: int)
    requires InvX(s) && t in s.threads
    ensures MovesForward(s.db, Next(s, Step(t, now)).db)
  {
    assert PcOk(s.db, s.threads[t]);
    StepShape(s, t, now);
    StepEffect(s.db, s.threads[t], now);
  }

  predicate Apart(s: St, t: Tid, held: set<Id>) {
    forall u | u in s.threads && u != t :: held !! Holds(s.threads[u])
  }

  lemma StillApart(s: St, t: Tid, held: set<Id>)
    requires InvX(s) && t in s.threads && held <= Holds(s.threads[t])
    ensures Apart(s, t, held)
  {
  }

  lemma StepKeepsX(s: St, t: Tid, now: int)
    requires InvX(s) && t in s.threads
    ensures InvX(Next(s, Step(t, now)))
  {
    var s', pc := Next(s, Step(t, now)), s.threads[t];
    assert PcOk(s.db, pc) && Current(s.db, pc);
    StepKeepsInv(s, t, now);
    StepStaysMine(s.db, pc, now);
    StepEffect(s.db, pc, now);
    StepShape(s, t, now);
    if t in s'.threads {
      StillApart(s, t, Holds(s'.threads[t]));
    }
    HeldWriteKeepsX(s, s', t);
  }

  lemma BeginKeepsX(s: St, a: Action)
    requires InvX(s) && Exclusive(s, a) && (a.Begin? || a.BeginSweep?)
    ensures InvX(Next(s, a)) && Next(s, a).db == s.db
  {
    NextKeepsInv(s, a);
    var s' := Next(s, a);
    if s' != s {
      CheckedIsCurrent(s, a);
      HeldWriteKeepsX(s, s', a.t);
    }
  }

  lemma CheckedIsCurrent(s: St, a: Action)
    requires AllGood(s.db) && Exclusive(s, a) && (a.Begin? || a.BeginSweep?) && Next(s, a) != s
    ensures var s' := Next(s, a);
            && s'.db == s.db && OnlyMoved(s, s', a.t) && a.t !in s.threads && a.t in s'.threads
            && Present(s.db, s'.threads[a.t]) && Current(s.db, s'.threads[a.t])
            && Apart(s, a.t, Holds(s'.threads[a.t]))
  {
    BegunOk(s, a);
    if a.Begin? {
      BegunCurrent(s.db, a.id, a.biz, a.act, a.now);
    } else {
      SweepApart(s, a);
    }
  }

  /** Being past the check, the move is allowed. */
  lemma CheckedMove(o: Order, act: Act, side: Party)
    requires GoodOrder(o) && Guard(act, o, side).None?
    ensures match act
            case Accept(_) => o.status == NEW
            case Reject => Edge(o.status, REJECTED)
            case Send => Edge(o.status, SENT)
            case Deliver => Edge(o.status, DELIVERED)
            case Cancel => Edge(o.status, CANCELLED)
            case Archive => Terminal(o.status)
  {
  }

  lemma CheckedCurrent(db: Db, id: Id, act: Act, side: Party, now: int)
    requires id in db.orders && GoodOrder(db.orders[id]) && Guard(act, db.orders[id], side).None?
    ensures var pc := Checked(id, db.orders[id], act, now);
            Present(db, pc) && Current(db, pc) && Holds(pc) == {id}
  {
    CheckedMove(db.orders[id], act, side);
  }

  lemma BegunCurrent(db: Db, id: Id, biz: Id, act: Act, now: int)
    requires AllGood(db) && Load(db, id, biz).Ok? && Guard(act, Load(db, id, biz).value.0, Load(db, id, biz).value.1).None?
    ensures var pc := Checked(id, db.orders[id], act, now);
            Present(db, pc) && Current(db, pc) && Holds(pc) == {id}
  {
    assert id in db.orders && Load(db, id, biz).value.0 == db.orders[id];
    CheckedCurrent(db, id, act, Load(db, id, biz).value.1, now);
  }

  lemma SweepApart(s: St, a: Action)
    requires a.BeginSweep? && Exclusive(s, a)
    ensures Apart(s, a.t, Holds(SweepListed(a.due)))
  {
  }

  /** A new row disturbs no handler. */
  lemma NewRowKeepsX(s: St, s': St)
    requires InvX(s) && Inv(s') && AllGood(s'.db) && s'.threads == s.threads
    requires forall id | id in s.db.orders :: id in s'.db.orders && s'.db.orders[id] == s.db.orders[id]
    ensures InvX(s')
  {
    forall u | u in s'.threads ensures Current(s'.db, s'.threads[u]) {
      assert PcOk(s.db, s.threads[u]) && PcOk(s'.db, s'.threads[u]);
      HeldPresent(s.db, s.threads[u]);
      StaysCurrent(s.db, s'.db, s.threads[u]);
    }
  }

  lemma Placed(s: St, a: Action)
    requires a.Place? && AllGood(s.db)
    ensures var s' := Next(s, a);
            && s'.threads == s.threads && AllGood(s'.db)
            && forall id | id in s.db.orders :: id in s'.db.orders && s'.db.orders[id] == s.db.orders[id]
  {
  }

  lemma PlaceKeepsX(s: St, a: Action)
    requires InvX(s) && a.Place?
    ensures InvX(Next(s, a)) && MovesForward(s.db, Next(s, a).db)
  {
    NextKeepsInv(s, a);
    Placed(s, a);
    NewRowKeepsX(s, Next(s, a));
  }

  /**
   * When no handler starts on an order another is still working on, every interleaving keeps what
   * the one-at-a-time protocol keeps: good timelines, and orders that only move forward.
   */
  lemma {:induction false} ExclusiveRunsAreGood(s: St, actions: seq<Action>)
    requires InvX(s) && ExclusiveRun(s, actions)
    ensures AllGood(Run(s, actions).db) && InvX(Run(s, actions))
    ensures MovesForward(s.db, Run(s, actions).db)
    decreases |actions|
  {
    if actions != [] {
      var a := actions[0];
      match a {
        case Place(_, _, _, _, _, _) => PlaceKeepsX(s, a);
        case Begin(_, _, _, _, _) => BeginKeepsX(s, a);
        case BeginSweep(_, _, _) => BeginKeepsX(s, a);
        case Step(t, now) =>
          if t in s.threads {
            StepKeepsX(s, t, now);
            StepMovesForward(s, t, now);
          }
      }
      ExclusiveRunsAreGood(Next(s, a), actions[1..]);
      ForwardTrans(s.db, Next(s, a).db, Run(s, actions).db);
    }
  }

  lemma ForwardTrans(a: Db, b: Db, c: Db)
    requires MovesForward(a, b) && MovesForward(b, c)
    ensures MovesForward(a, c)
  {
  }

  /** Left alone, the steps of a handler amount to the one-step handler. */
  lemma AloneIsAtomic(s: St, t: Tid, id: Id, biz: Id, act: Act, now: int)
    requires t !in s.threads
    ensures var (db', refused) := HandleOrder(s.db, id, biz, act, now);
            var s1 := Next(s, Begin(t, id, biz, act, now));
            if refused.Some? then s1 == s
            else if act.Archive? then Next(s1, Step(t, now)) == s.(db := db')
            else Next(Next(s1, Step(t, now)), Step(t, now)) == s.(db := db')
  {
    var s1 := Next(s, Begin(t, id, biz, act, now));
    if HandleOrder(s.db, id, biz, act, now).1.None? {
      assert s1.threads - {t} == s.threads;
      var s2 := Next(s1, Step(t, now));
      assert s2.threads - {t} == s.threads;
    }
  }

  function Steps(t: Tid, n: nat, now: int): seq<Action> { seq(n, i requires 0 <= i < n => Step(t, now)) }

  lemma {:induction false} CloseAllFront(db: Db, due: seq<Id>, now: int)
    requires due != []
    ensures CloseAll(db, due, now) == CloseAll(CloseOne(db, due[0], now), due[1..], now)
  {
    var init, last := due[..|due| - 1], due[|due| - 1];
    if |due| > 1 {
      CloseAllFront(db, init, now);
      assert init[1..] == due[1..][..|due| - 2] && init[0] == due[0];
    } else {
      assert init == [] && due[1..] == [];
    }
  }

  lemma RunTwo(s: St, t: Tid, n: nat, now: int)
    ensures Run(s, Steps(t, n + 2, now)) == Run(Next(Next(s, Step(t, now)), Step(t, now)), Steps(t, n, now))
  {
    assert Steps(t, n + 2, now)[1..] == Steps(t, n + 1, now) && Steps(t, n + 1, now)[1..] == Steps(t, n, now);
  }

  lemma SweepOne(s: St, t: Tid, due: seq<Id>, now: int)
    requires t in s.threads && s.threads[t] == SweepListed(due) && due != [] && forall id | id in due :: id in s.db.orders
    ensures Next(Next(s, Step(t, now)), Step(t, now)) == St(CloseOne(s.db, due[0], now), s.threads[t := SweepListed(due[1..])])
  {
    var s1 := Next(s, Step(t, now));
    assert s1 == St(s.db, s.threads[t := SweepRead(due, s.db.orders[due[0]].history + [Entry(DELIVERED, now, System)])]);
    assert Present(s1.db, s1.threads[t]);
  }

  lemma {:induction false} SweepSteps(s: St, t: Tid, due: seq<Id>, now: int)
    requires t in s.threads && s.threads[t] == SweepListed(due) && forall id | id in due :: id in s.db.orders
    ensures Run(s, Steps(t, 2 * |due| + 1, now)) == St(CloseAll(s.db, due, now), s.threads - {t})
    decreases |due|
  {
    if due == [] {
      assert Steps(t, 1, now) == [Step(t, now)] && [Step(t, now)][1..] == [];
    } else {
      var s2 := St(CloseOne(s.db, due[0], now), s.threads[t := SweepListed(due[1..])]);
      SweepOne(s, t, due, now);
      RunTwo(s, t, 2 * |due[1..]| + 1, now);
      SweepSteps(s2, t, due[1..], now);
      CloseAllFront(s.db, due, now);
      assert s2.threads - {t} == s.threads - {t};
    }
  }

  /** The steps of an undisturbed sweep add up to the sweep in one step. */
  lemma SweepAloneIsAtomic(s: St, t: Tid, due: seq<Id>, now: int)
    requires t !in s.threads && IsSweep(s.db, due, now)
    ensures Run(Next(s, BeginSweep(t, due, now)), Steps(t, 2 * |due| + 1, now)) == s.(db := Orders.Apply(s.db, LazyClose(due, now)).0)
  {
    SweepSteps(Next(s, BeginSweep(t, due, now)), t, due, now);
    assert s.threads[t := SweepListed(due)] - {t} == s.threads;
  }
}
