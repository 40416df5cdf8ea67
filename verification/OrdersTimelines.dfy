/** When the interleaved handlers keep every order's timeline append-only. */
module OrdersTimelines {
  import opened Wrappers
  import opened Orders
  import opened Split = OrdersInterleaved

  /** A write of a status and of a timeline read earlier. */
  predicate WritesStatus(pc: Pc) { pc.AcceptNumbered? || pc.MoveRead? || pc.SweepRead? }

  /** The timeline a write is based on, before its own entry. */
  function Base(pc: Pc): seq<Entry>
    requires pc.AcceptNumbered? || ((pc.MoveRead? || pc.SweepRead?) && |pc.history| > 0)
  {
    if pc.AcceptNumbered? then pc.seen.history else pc.history[..|pc.history| - 1]
  }

  function Target(pc: Pc): Status
    requires WritesStatus(pc)
  {
    if pc.AcceptNumbered? then ACCEPTED else if pc.MoveRead? then pc.to else DELIVERED
  }

  /**
   * What a handler could check before its status write: the row still carries the timeline it read
   * and may move on, or it already carries the very timeline that is to be written.
   */
  predicate Fresh(db: Db, pc: Pc, now: int)
    requires PcOk(db, pc) && WritesStatus(pc)
  {
    var o := db.orders[Row(pc)];
    (o.history == Base(pc) && Edge(o.status, Target(pc))) || o.history == WriteRow(pc, o, now).history
  }

  /** Timelines are legal and end in the status. */
  predicate LegalRow(o: Order) { LegalHistory(o.history) && o.status == o.history[|o.history| - 1].st }

  predicate AllLegal(db: Db) { forall id | id in db.orders :: LegalRow(db.orders[id]) }

  /** No order disappears and no timeline loses an entry. */
  predicate Grows(db: Db, db': Db) {
    forall id | id in db.orders :: id in db'.orders && db.orders[id].history <= db'.orders[id].history
  }

  predicate FreshStep(s: St, a: Action) {
    a.Step? && a.t in s.threads && PcOk(s.db, s.threads[a.t]) && WritesStatus(s.threads[a.t]) ==> Fresh(s.db, s.threads[a.t], a.now)
  }

  // ---- What handlers carry while timelines only grow ----

  /** What the handler read is a timeline the row had, and its entry is one its party may record. */
  predicate ReadFrom(db: Db, pc: Pc)
    requires PcOk(db, pc)
  {
    match pc
    case AcceptChecked(id, seen, _) => seen.history <= db.orders[id].history
    case AcceptNumbered(id, seen, _, _) => seen.history <= db.orders[id].history
    case MoveChecked(_, to, who, _) => MayRecord(Entry(to, 0, who))
    case MoveRead(id, _, _, _, history) => history[..|history| - 1] <= db.orders[id].history && MayRecord(history[|history| - 1])
    case SweepRead(due, history) => history[..|history| - 1] <= db.orders[due[0]].history && MayRecord(history[|history| - 1])
    case _ => true
  }

  predicate ThreadsRead(s: St) { forall t | t in s.threads :: PcOk(s.db, s.threads[t]) && ReadFrom(s.db, s.threads[t]) }

  predicate InvT(s: St) { Inv(s) && AllLegal(s.db) && ThreadsRead(s) }

  lemma ReadStays(db: Db, db': Db, pc: Pc)
    requires PcOk(db, pc) && PcOk(db', pc) && ReadFrom(db, pc) && Grows(db, db')
    ensures ReadFrom(db', pc)
  {
  }

  lemma ThreadsStayRead(s: St, s': St, t: Tid)
    requires ThreadsRead(s) && Inv(s') && OnlyMoved(s, s', t) && Grows(s.db, s'.db)
    requires t in s'.threads ==> PcOk(s'.db, s'.threads[t]) && ReadFrom(s'.db, s'.threads[t])
    ensures ThreadsRead(s')
  {
    forall u | u in s'.threads ensures PcOk(s'.db, s'.threads[u]) && ReadFrom(s'.db, s'.threads[u]) {
      if u != t {
        assert PcOk(s.db, s.threads[u]);
        ReadStays(s.db, s'.db, s.threads[u]);
      }
    }
  }

  // ---- One write ----

  lemma WrittenHistory(db: Db, pc: Pc, now: int)
    requires PcOk(db, pc) && WritesStatus(pc) && ReadFrom(db, pc)
    ensures var w := WriteRow(pc, db.orders[Row(pc)], now);
            && |w.history| == |Base(pc)| + 1 && w.history == Base(pc) + [w.history[|Base(pc)|]]
            && w.history[|Base(pc)|].st == Target(pc) == w.status && MayRecord(w.history[|Base(pc)|])
            && Base(pc) <= db.orders[Row(pc)].history
  {
  }

  lemma LegalAppend(h: seq<Entry>, e: Entry)
    requires LegalHistory(h)
    ensures LegalHistory(h + [e]) <==> Edge(h[|h| - 1].st, e.st) && MayRecord(e)
  {
    var w := h + [e];
    if LegalHistory(w) {
      assert Edge(w[|h| - 1].st, w[|h|].st) && MayRecord(w[|h|]);
    }
  }

  /** A status write leaves a legal timeline that extends the old one exactly when it is fresh. */
  lemma WriteIsFreshIff(db: Db, pc: Pc, now: int)
    requires PcOk(db, pc) && WritesStatus(pc) && ReadFrom(db, pc) && LegalRow(db.orders[Row(pc)])
    ensures var o := db.orders[Row(pc)];
            var w := WriteRow(pc, o, now);
            LegalRow(w) && o.history <= w.history <==> Fresh(db, pc, now)
  {
    var o := db.orders[Row(pc)];
    var w := WriteRow(pc, o, now);
    WrittenHistory(db, pc, now);
    if o.history == Base(pc) {
      LegalAppend(o.history, w.history[|Base(pc)|]);
    } else if o.history <= w.history {
      assert |o.history| == |w.history|;
      assert o.history == w.history;
    }
  }

  // ---- One step ----

  lemma PutGrows(db: Db, id: Id, row: Order)
    requires AllLegal(db) && id in db.orders
    ensures AllLegal(Put(db, id, row)) && Grows(db, Put(db, id, row)) <==> LegalRow(row) && db.orders[id].history <= row.history
  {
    var db' := Put(db, id, row);
    assert db'.orders[id] == row;
  }

  /** A handler's step keeps timelines legal and growing exactly when any status write in it is fresh. */
  lemma StepGrowsIff(s: St, t: Tid, now: int)
    requires InvT(s) && t in s.threads
    ensures var s' := Next(s, Step(t, now));
            AllLegal(s'.db) && Grows(s.db, s'.db) <==> FreshStep(s, Step(t, now))
  {
    var pc := s.threads[t];
    assert PcOk(s.db, pc) && ReadFrom(s.db, pc);
    StepShape(s, t, now);
    if Writing(pc) {
      var id := Row(pc);
      assert LegalRow(s.db.orders[id]) && Coherent(s.db.orders[id]);
      WrittenRow(s.db, pc, now);
      PutGrows(s.db, id, WriteRow(pc, s.db.orders[id], now));
      if WritesStatus(pc) {
        WriteIsFreshIff(s.db, pc, now);
      }
    } else {
      ReadStepOk(s.db, pc, now);
    }
  }

  lemma ReadOn(db: Db, pc: Pc, now: int)
    requires PcOk(db, pc) && ReadFrom(db, pc) && !Writing(pc)
    requires var (db', pc') := StepOf(db, pc, now); pc'.Some? && PcOk(db', pc'.value)
    ensures var (db', pc') := StepOf(db, pc, now); ReadFrom(db', pc'.value)
  {
    match pc
    case MoveChecked(id, to, who, deadline) =>
      var h := db.orders[id].history + [Entry(to, now, who)];
      assert h[..|h| - 1] == db.orders[id].history;
    case SweepListed(due) =>
      if due != [] {
        var h := db.orders[due[0]].history + [Entry(DELIVERED, now, System)];
        assert h[..|h| - 1] == db.orders[due[0]].history;
      }
    case _ =>
  }

  lemma StepKeepsT(s: St, t: Tid, now: int)
    requires InvT(s) && t in s.threads && FreshStep(s, Step(t, now))
    ensures InvT(Next(s, Step(t, now)))
  {
    var s', pc := Next(s, Step(t, now)), s.threads[t];
    assert PcOk(s.db, pc) && ReadFrom(s.db, pc);
    StepKeepsInv(s, t, now);
    StepGrowsIff(s, t, now);
    StepShape(s, t, now);
    if t in s'.threads {
      assert PcOk(s'.db, s'.threads[t]);
      if !Writing(pc) {
        ReadOn(s.db, pc, now);
      }
    }
    ThreadsStayRead(s, s', t);
  }

  lemma PlaceKeepsT(s: St, a: Action)
    requires InvT(s) && a.Place?
    ensures InvT(Next(s, a)) && Grows(s.db, Next(s, a).db)
  {
    NextKeepsInv(s, a);
    var s' := Next(s, a);
    PlacedLegal(s, a);
    forall u | u in s'.threads ensures PcOk(s'.db, s'.threads[u]) && ReadFrom(s'.db, s'.threads[u]) {
      assert PcOk(s.db, s.threads[u]);
      ReadStays(s.db, s'.db, s.threads[u]);
    }
  }

  lemma PlacedLegal(s: St, a: Action)
    requires AllLegal(s.db) && a.Place?
    ensures AllLegal(Next(s, a).db) && Grows(s.db, Next(s, a).db) && Next(s, a).threads == s.threads
  {
  }

  lemma BeginKeepsT(s: St, a: Action)
    requires InvT(s) && (a.Begin? || a.BeginSweep?)
    ensures InvT(Next(s, a)) && Next(s, a).db == s.db
  {
    NextKeepsInv(s, a);
    var s' := Next(s, a);
    if s' != s {
      BegunReads(s, a);
      ThreadsStayRead(s, s', a.t);
    }
  }

  lemma BegunReads(s: St, a: Action)
    requires (a.Begin? || a.BeginSweep?) && Next(s, a) != s
    ensures var s' := Next(s, a);
            && s'.db == s.db && OnlyMoved(s, s', a.t) && a.t in s'.threads
            && PcOk(s.db, s'.threads[a.t]) && ReadFrom(s.db, s'.threads[a.t])
  {
    BegunOk(s, a);
  }

  lemma NextGrowsIff(s: St, a: Action)
    requires InvT(s)
    ensures AllLegal(Next(s, a).db) && Grows(s.db, Next(s, a).db) <==> FreshStep(s, a)
    ensures FreshStep(s, a) ==> InvT(Next(s, a))
  {
    match a
    case Place(_, _, _, _, _, _) => PlaceKeepsT(s, a);
    case Begin(_, _, _, _, _) => BeginKeepsT(s, a);
    case BeginSweep(_, _, _) => BeginKeepsT(s, a);
    case Step(t, now) =>
      if t in s.threads {
        StepGrowsIff(s, t, now);
        if FreshStep(s, a) {
          StepKeepsT(s, t, now);
        }
      }
  }

  // ---- Every interleaving ----

  lemma {:induction false} RunSnoc(s: St, actions: seq<Action>, n: nat)
    requires n < |actions|
    ensures Split.Run(s, actions[..n + 1]) == Next(Split.Run(s, actions[..n]), actions[n])
    decreases n
  {
    if n == 0 {
      assert actions[..1] == [actions[0]] && actions[..0] == [] && actions[..1][1..] == [];
    } else {
      RunSnoc(Next(s, actions[0]), actions[1..], n - 1);
      assert actions[..n + 1][1..] == actions[1..][..n] && actions[..n][1..] == actions[1..][..n - 1];
    }
  }

  /** The action after the first `n` leaves all timelines legal and none shorter. */
  predicate GrowsAt(s: St, actions: seq<Action>, n: nat)
    requires n < |actions|
  {
    AllLegal(Split.Run(s, actions[..n + 1]).db) && Grows(Split.Run(s, actions[..n]).db, Split.Run(s, actions[..n + 1]).db)
  }

  predicate FreshAt(s: St, actions: seq<Action>, n: nat)
    requires n < |actions|
  {
    FreshStep(Split.Run(s, actions[..n]), actions[n])
  }

  lemma GrowsNext(s: St, actions: seq<Action>, n: nat)
    requires n < |actions| && InvT(Split.Run(s, actions[..n]))
    ensures GrowsAt(s, actions, n) <==> FreshAt(s, actions, n)
    ensures FreshAt(s, actions, n) ==> InvT(Split.Run(s, actions[..n + 1]))
  {
    RunSnoc(s, actions, n);
    NextGrowsIff(Split.Run(s, actions[..n]), actions[n]);
  }

  lemma {:induction false} InvWhileFresh(s: St, actions: seq<Action>, n: nat)
    requires InvT(s) && n <= |actions| && forall i | 0 <= i < n :: FreshAt(s, actions, i)
    ensures InvT(Split.Run(s, actions[..n]))
  {
    if n == 0 {
      assert actions[..0] == [];
    } else {
      InvWhileFresh(s, actions, n - 1);
      GrowsNext(s, actions, n - 1);
    }
  }

  lemma {:induction false} InvWhileGrowing(s: St, actions: seq<Action>, n: nat)
    requires InvT(s) && n <= |actions| && forall i | 0 <= i < n :: GrowsAt(s, actions, i)
    ensures InvT(Split.Run(s, actions[..n]))
  {
    if n == 0 {
      assert actions[..0] == [];
    } else {
      InvWhileGrowing(s, actions, n - 1);
      GrowsNext(s, actions, n - 1);
    }
  }

  /**
   * For every interleaving from a sound start: all timelines stay legal, end in the status and only
   * grow, at every action, exactly when every status write is fresh at the moment it is made.
   */
  lemma AppendOnlyIff(s: St, actions: seq<Action>)
    requires Inv(s) && AllLegal(s.db) && s.threads == map[]
    ensures (forall n | 0 <= n < |actions| :: GrowsAt(s, actions, n)) <==> (forall n | 0 <= n < |actions| :: FreshAt(s, actions, n))
  {
    if forall n | 0 <= n < |actions| :: GrowsAt(s, actions, n) {
      forall n | 0 <= n < |actions| ensures FreshAt(s, actions, n) {
        InvWhileGrowing(s, actions, n);
        GrowsNext(s, actions, n);
      }
    }
    if forall n | 0 <= n < |actions| :: FreshAt(s, actions, n) {
      forall n | 0 <= n < |actions| ensures GrowsAt(s, actions, n) {
        InvWhileFresh(s, actions, n);
        GrowsNext(s, actions, n);
      }
    }
  }
}
