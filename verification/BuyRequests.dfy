/** The ranked list of buy requests a business sees. */
module BuyRequests {
  import opened Wrappers
  import opened Sorting

  type Id = string

  datatype Proximity = Far | SameProvince | SameCity

  /** A buyer's request; `near` is where its place lies from the reader's. */
  datatype Request = Request(id: Id, goodId: Id, volume: int, near: Proximity, updatedAt: int)

  datatype SellRow = SellRow(goodId: Id, minOrder: Option<int>, stock: Option<int>)
  datatype BuyRow = BuyRow(goodId: Id, volume: int)

  /** A seller's working band for one good. */
  datatype Cap = Cap(min: int, cap: int)

  datatype Ranked = Ranked(row: Request, score: int)

  // ---- Points ----

  function RecencyScore(updatedAt: int, now: int): int {
    var hours := (now - updatedAt) as real / 3_600_000.0;
    if hours <= 48.0 then 6 else if hours <= 168.0 then 3 else 0
  }

  function VolumeFit(c: Cap, volume: int): int {
    if c.min > 0 && volume < c.min then 4
    else if c.cap > 0 && volume > c.cap * 2 then 2
    else 30
  }

  function ProxPoints(near: Proximity, same: int, province: int, far: int): int {
    match near
    case SameCity => same
    case SameProvince => province
    case Far => far
  }

  predicate Similar(mine: int, volume: int) { volume as real >= mine as real / 5.0 && volume <= mine * 5 }

  function SellerScore(c: Cap, r: Request, now: int): int {
    VolumeFit(c, r.volume) + ProxPoints(r.near, 24, 14, 4) + RecencyScore(r.updatedAt, now)
  }

  function BuyerScore(mine: int, r: Request, now: int): int {
    (if Similar(mine, r.volume) then 30 else 0) + ProxPoints(r.near, 18, 11, 4) + RecencyScore(r.updatedAt, now)
  }

  function GuestScore(r: Request, now: int): int { ProxPoints(r.near, 20, 12, 4) + RecencyScore(r.updatedAt, now) }

  // ---- The list ----

  /** The band of a good is that of the last own row for it. */
  function CapOf(mySell: seq<SellRow>, good: Id): Option<Cap> {
    if mySell == [] then None
    else
      var last := mySell[|mySell| - 1];
      if last.goodId == good then Some(Cap(last.minOrder.GetOr(0), last.stock.GetOr(0))) else CapOf(mySell[..|mySell| - 1], good)
  }

  function VolumeOf(myBuy: seq<BuyRow>, good: Id): Option<int> {
    if myBuy == [] then None
    else
      var last := myBuy[|myBuy| - 1];
      if last.goodId == good then Some(last.volume) else VolumeOf(myBuy[..|myBuy| - 1], good)
  }

  /** The score of a request for this reader, if it is listed at all. */
  function ScoreOf(mySell: seq<SellRow>, myBuy: seq<BuyRow>, r: Request, now: int): Option<int> {
    if mySell != [] then
      match CapOf(mySell, r.goodId) { case None => None case Some(c) => Some(SellerScore(c, r, now)) }
    else if myBuy != [] then
      match VolumeOf(myBuy, r.goodId) { case None => None case Some(v) => Some(BuyerScore(v, r, now)) }
    else Some(GuestScore(r, now))
  }

  function Candidates(mySell: seq<SellRow>, myBuy: seq<BuyRow>, rows: seq<Request>, now: int): seq<Ranked> {
    if rows == [] then []
    else
      var last := rows[|rows| - 1];
      Candidates(mySell, myBuy, rows[..|rows| - 1], now)
      + match ScoreOf(mySell, myBuy, last, now) { case None => [] case Some(s) => [Ranked(last, s)] }
  }

  predicate Higher(a: Ranked, b: Ranked) { a.score >= b.score }

  function AllRanked(mySell: seq<SellRow>, myBuy: seq<BuyRow>, rows: seq<Request>, now: int): seq<Ranked> {
    StableSort(Higher, Candidates(mySell, myBuy, rows, now))
  }

  function Take(xs: seq<Ranked>, limit: nat): seq<Ranked> { if |xs| > limit then xs[..limit] else xs }

  method CapByGood(mySell: seq<SellRow>) returns (caps: map<Id, Cap>)
    ensures forall good :: CapOf(mySell, good) == if good in caps then Some(caps[good]) else None
  {
    caps := map[];
    for k := 0 to |mySell|
      invariant forall good :: CapOf(mySell[..k], good) == if good in caps then Some(caps[good]) else None
    {
      assert mySell[..k + 1][..k] == mySell[..k];
      caps := caps[mySell[k].goodId := Cap(mySell[k].minOrder.GetOr(0), mySell[k].stock.GetOr(0))];
    }
    assert mySell[..|mySell|] == mySell;
  }

  method VolumeByGood(myBuy: seq<BuyRow>) returns (volumes: map<Id, int>)
    ensures forall good :: VolumeOf(myBuy, good) == if good in volumes then Some(volumes[good]) else None
  {
    volumes := map[];
    for k := 0 to |myBuy|
      invariant forall good :: VolumeOf(myBuy[..k], good) == if good in volumes then Some(volumes[good]) else None
    {
      assert myBuy[..k + 1][..k] == myBuy[..k];
      volumes := volumes[myBuy[k].goodId := myBuy[k].volume];
    }
    assert myBuy[..|myBuy|] == myBuy;
  }

  method BuyRequestsFor(mySell: seq<SellRow>, myBuy: seq<BuyRow>, rows: seq<Request>, now: int, limit: nat) returns (list: seq<Ranked>)
    ensures list == Take(AllRanked(mySell, myBuy, rows, now), limit)
  {
    var caps := CapByGood(mySell);
    var volumes := VolumeByGood(myBuy);
    var ranked: seq<Ranked> := [];
    for k := 0 to |rows|
      invariant ranked == Candidates(mySell, myBuy, rows[..k], now)
    {
      var r := rows[k];
      assert rows[..k + 1][..k] == rows[..k];
      if mySell != [] {
        if r.goodId in caps {
          ranked := ranked + [Ranked(r, SellerScore(caps[r.goodId], r, now))];
        }
      } else if myBuy != [] {
        if r.goodId in volumes {
          ranked := ranked + [Ranked(r, BuyerScore(volumes[r.goodId], r, now))];
        }
      } else {
        ranked := ranked + [Ranked(r, GuestScore(r, now))];
      }
    }
    assert rows[..|rows|] == rows;
    list := StableSort(Higher, ranked);
    if |list| > limit {
      list := list[..limit];
    }
  }

  // ---- What the list keeps ----

  lemma HigherIsPreorder()
    ensures TotalPreorder(Higher)
  {
  }

  /** The list holds the best-scored requests, as many as there are up to the limit. */
  lemma ListIsTop(mySell: seq<SellRow>, myBuy: seq<BuyRow>, rows: seq<Request>, now: int, limit: nat) returns (rest: seq<Ranked>)
    ensures var list, all := Take(AllRanked(mySell, myBuy, rows, now), limit), Candidates(mySell, myBuy, rows, now);
            && |list| == (if |all| > limit then limit else |all|)
            && multiset(list) + multiset(rest) == multiset(all)
            && SortedBy(Higher, list)
            && forall a, b | a in list && b in rest :: a.score >= b.score
  {
    var all, sorted := Candidates(mySell, myBuy, rows, now), AllRanked(mySell, myBuy, rows, now);
    HigherIsPreorder();
    SortSorts(Higher, all);
    SortPermutes(Higher, all);
    var list := Take(sorted, limit);
    rest := sorted[|list|..];
    assert sorted == list + rest;
    forall a, b | a in list && b in rest ensures a.score >= b.score {
      var i :| 0 <= i < |list| && list[i] == a;
      var j :| 0 <= j < |rest| && rest[j] == b;
      assert Higher(sorted[i], sorted[|list| + j]);
    }
  }

  lemma {:induction false} CandidatesAre(mySell: seq<SellRow>, myBuy: seq<BuyRow>, rows: seq<Request>, now: int, x: Ranked)
    ensures x in Candidates(mySell, myBuy, rows, now) <==> x.row in rows && ScoreOf(mySell, myBuy, x.row, now) == Some(x.score)
  {
    if rows != [] {
      var init, last := rows[..|rows| - 1], rows[|rows| - 1];
      CandidatesAre(mySell, myBuy, init, now, x);
      assert rows == init + [last];
    }
  }

  // ---- The points of a request ----

  /** Two days, and a week. */
  function Fresh(updatedAt: int, now: int): int {
    var age := now - updatedAt;
    if age <= 2 * 24 * 60 * 60 * 1000 then 6 else if age <= 7 * 24 * 60 * 60 * 1000 then 3 else 0
  }

  function Near(near: Proximity, points: (int, int, int)): int {
    if near == SameCity then points.0 else if near == SameProvince then points.1 else points.2
  }

  lemma FreshIs(updatedAt: int, now: int)
    ensures RecencyScore(updatedAt, now) == Fresh(updatedAt, now)
  {
    var age := now - updatedAt;
    assert age as real / 3_600_000.0 <= 48.0 <==> age <= 172_800_000;
    assert age as real / 3_600_000.0 <= 168.0 <==> age <= 604_800_000;
  }

  /** The seller's last row for the good. */
  predicate LastSold(mySell: seq<SellRow>, good: Id, i: nat) {
    i < |mySell| && mySell[i].goodId == good && forall j | i < j < |mySell| :: mySell[j].goodId != good
  }

  predicate LastBought(myBuy: seq<BuyRow>, good: Id, i: nat) {
    i < |myBuy| && myBuy[i].goodId == good && forall j | i < j < |myBuy| :: myBuy[j].goodId != good
  }

  /** A seller's points: four below its minimum, two beyond twice its stock, thirty in between; a bound that is not set does not bind. */
  predicate IsSellerScore(mySell: seq<SellRow>, i: nat, r: Request, now: int, score: int)
    requires i < |mySell|
  {
    var tooSmall := mySell[i].minOrder.Some? && mySell[i].minOrder.value > 0 && r.volume < mySell[i].minOrder.value;
    var tooLarge := mySell[i].stock.Some? && mySell[i].stock.value > 0 && r.volume > 2 * mySell[i].stock.value;
    score == (if tooSmall then 4 else if tooLarge then 2 else 30) + Near(r.near, (24, 14, 4)) + Fresh(r.updatedAt, now)
  }

  /** A buyer's: thirty for a volume between a fifth and five times its own. */
  predicate IsBuyerScore(mine: int, r: Request, now: int, score: int) {
    score == (if mine <= 5 * r.volume && r.volume <= 5 * mine then 30 else 0) + Near(r.near, (18, 11, 4)) + Fresh(r.updatedAt, now)
  }

  predicate IsScore(mySell: seq<SellRow>, myBuy: seq<BuyRow>, r: Request, now: int, score: int) {
    if mySell != [] then exists i | 0 <= i < |mySell| :: LastSold(mySell, r.goodId, i) && IsSellerScore(mySell, i, r, now, score)
    else if myBuy != [] then exists i | 0 <= i < |myBuy| :: LastBought(myBuy, r.goodId, i) && IsBuyerScore(myBuy[i].volume, r, now, score)
    else score == Near(r.near, (20, 12, 4)) + Fresh(r.updatedAt, now)
  }

  lemma {:induction false} CapIs(mySell: seq<SellRow>, good: Id)
    ensures match CapOf(mySell, good)
            case None => forall i | 0 <= i < |mySell| :: mySell[i].goodId != good
            case Some(c) => exists i | 0 <= i < |mySell| :: LastSold(mySell, good, i) && c == Cap(mySell[i].minOrder.GetOr(0), mySell[i].stock.GetOr(0))
  {
    if mySell != [] {
      var n := |mySell| - 1;
      CapIs(mySell[..n], good);
      if mySell[n].goodId == good {
        assert LastSold(mySell, good, n);
      } else if CapOf(mySell, good).Some? {
        var i :| 0 <= i < n && LastSold(mySell[..n], good, i) && CapOf(mySell, good).value == Cap(mySell[..n][i].minOrder.GetOr(0), mySell[..n][i].stock.GetOr(0));
        assert forall j | i < j < n :: mySell[..n][j] == mySell[j];
        assert LastSold(mySell, good, i);
      }
    }
  }

  lemma {:induction false} VolumeIs(myBuy: seq<BuyRow>, good: Id)
    ensures match VolumeOf(myBuy, good)
            case None => forall i | 0 <= i < |myBuy| :: myBuy[i].goodId != good
            case Some(v) => exists i | 0 <= i < |myBuy| :: LastBought(myBuy, good, i) && v == myBuy[i].volume
  {
    if myBuy != [] {
      var n := |myBuy| - 1;
      VolumeIs(myBuy[..n], good);
      if myBuy[n].goodId == good {
        assert LastBought(myBuy, good, n);
      } else if VolumeOf(myBuy, good).Some? {
        var i :| 0 <= i < n && LastBought(myBuy[..n], good, i) && VolumeOf(myBuy, good).value == myBuy[..n][i].volume;
        assert forall j | i < j < n :: myBuy[..n][j] == myBuy[j];
        assert LastBought(myBuy, good, i);
      }
    }
  }

  lemma ScoreIs(mySell: seq<SellRow>, myBuy: seq<BuyRow>, r: Request, now: int, score: int)
    ensures ScoreOf(mySell, myBuy, r, now) == Some(score) <==> IsScore(mySell, myBuy, r, now, score)
  {
    FreshIs(r.updatedAt, now);
    if mySell != [] {
      CapIs(mySell, r.goodId);
    } else if myBuy != [] {
      VolumeIs(myBuy, r.goodId);
      forall i | 0 <= i < |myBuy| ensures Similar(myBuy[i].volume, r.volume) <==> myBuy[i].volume <= 5 * r.volume && r.volume <= 5 * myBuy[i].volume {
      }
    }
  }

  /** What is ranked is every request that has a score for the reader, with that score. */
  lemma RankedAre(mySell: seq<SellRow>, myBuy: seq<BuyRow>, rows: seq<Request>, now: int, x: Ranked)
    ensures x in AllRanked(mySell, myBuy, rows, now) <==> x.row in rows && IsScore(mySell, myBuy, x.row, now, x.score)
  {
    SortPermutes(Higher, Candidates(mySell, myBuy, rows, now));
    CandidatesAre(mySell, myBuy, rows, now, x);
    ScoreIs(mySell, myBuy, x.row, now, x.score);
  }

  lemma ListedIn(mySell: seq<SellRow>, myBuy: seq<BuyRow>, rows: seq<Request>, now: int, limit: nat, i: nat)
    requires i < |Take(AllRanked(mySell, myBuy, rows, now), limit)|
    ensures var x := Take(AllRanked(mySell, myBuy, rows, now), limit)[i];
            x.row in rows && ScoreOf(mySell, myBuy, x.row, now) == Some(x.score)
  {
    var x := AllRanked(mySell, myBuy, rows, now)[i];
    SortPermutes(Higher, Candidates(mySell, myBuy, rows, now));
    assert x in AllRanked(mySell, myBuy, rows, now);
    CandidatesAre(mySell, myBuy, rows, now, x);
  }

  lemma ScoresFall(mySell: seq<SellRow>, myBuy: seq<BuyRow>, rows: seq<Request>, now: int, limit: nat, i: nat, j: nat)
    requires i < j < |Take(AllRanked(mySell, myBuy, rows, now), limit)|
    ensures var list := Take(AllRanked(mySell, myBuy, rows, now), limit); list[i].score >= list[j].score
  {
    HigherIsPreorder();
    SortSorts(Higher, Candidates(mySell, myBuy, rows, now));
    var sorted := AllRanked(mySell, myBuy, rows, now);
    assert Higher(sorted[i], sorted[j]);
  }

  // ---- Volume fit, then proximity, then recency ----

  function Nearness(near: Proximity): int { ProxPoints(near, 2, 1, 0) }

  predicate InBand(c: Cap, volume: int) {
    (c.min > 0 ==> volume >= c.min) && (c.cap > 0 ==> volume <= c.cap * 2)
  }

  /** Inside the band first, then nearer, then fresher, then below the minimum before beyond the stock. */
  predicate SellerPrefers(ca: Cap, a: Request, cb: Cap, b: Request, now: int) {
    if InBand(ca, a.volume) != InBand(cb, b.volume) then InBand(ca, a.volume)
    else if Nearness(a.near) != Nearness(b.near) then Nearness(a.near) > Nearness(b.near)
    else if RecencyScore(a.updatedAt, now) != RecencyScore(b.updatedAt, now) then RecencyScore(a.updatedAt, now) > RecencyScore(b.updatedAt, now)
    else VolumeFit(ca, a.volume) > VolumeFit(cb, b.volume)
  }

  /** The weakest request inside the band and the strongest outside it. */
  predicate Meet(ca: Cap, a: Request, cb: Cap, b: Request, now: int) {
    && InBand(ca, a.volume) && a.near == Far && RecencyScore(a.updatedAt, now) == 0
    && VolumeFit(cb, b.volume) == 4 && b.near == SameCity && RecencyScore(b.updatedAt, now) == 6
  }

  lemma SellerScoreOrders(ca: Cap, a: Request, cb: Cap, b: Request, now: int)
    ensures SellerScore(ca, a, now) > SellerScore(cb, b, now) <==> SellerPrefers(ca, a, cb, b, now) && !Meet(ca, a, cb, b, now)
    ensures InBand(ca, a.volume) && !InBand(cb, b.volume) ==> SellerScore(ca, a, now) >= 34 >= SellerScore(cb, b, now)
  {
  }

  /**
   * A seller's list never puts a request before one the seller should see first, except that the
   * weakest request inside the band and the strongest outside it share a score, 34.
   */
  lemma SellerListIsOrdered(mySell: seq<SellRow>, myBuy: seq<BuyRow>, rows: seq<Request>, now: int, limit: nat, i: nat, j: nat)
    requires mySell != [] && i < j < |Take(AllRanked(mySell, myBuy, rows, now), limit)|
    ensures var list := Take(AllRanked(mySell, myBuy, rows, now), limit);
            var a, b := list[i].row, list[j].row;
            && CapOf(mySell, a.goodId).Some? && CapOf(mySell, b.goodId).Some?
            && var ca, cb := CapOf(mySell, a.goodId).value, CapOf(mySell, b.goodId).value;
               && (SellerPrefers(cb, b, ca, a, now) ==> Meet(cb, b, ca, a, now))
               && (InBand(cb, b.volume) && !InBand(ca, a.volume) ==> list[i].score == 34 == list[j].score)
  {
    ListedIn(mySell, myBuy, rows, now, limit, i);
    ListedIn(mySell, myBuy, rows, now, limit, j);
    ScoresFall(mySell, myBuy, rows, now, limit, i, j);
    var list := Take(AllRanked(mySell, myBuy, rows, now), limit);
    var a, b := list[i].row, list[j].row;
    SellerScoreOrders(CapOf(mySell, b.goodId).value, b, CapOf(mySell, a.goodId).value, a, now);
  }

  // ---- The documented order for sellers ----

  /** Volume fit, then proximity, then recency, as documented. */
  predicate DocPrefers(ca: Cap, a: Request, cb: Cap, b: Request, now: int) {
    if VolumeFit(ca, a.volume) != VolumeFit(cb, b.volume) then VolumeFit(ca, a.volume) > VolumeFit(cb, b.volume)
    else if Nearness(a.near) != Nearness(b.near) then Nearness(a.near) > Nearness(b.near)
    else RecencyScore(a.updatedAt, now) > RecencyScore(b.updatedAt, now)
  }

  /** Below the minimum against beyond the stock, and farther or, equally near, staler. */
  predicate Outweighed(ca: Cap, a: Request, cb: Cap, b: Request, now: int) {
    && VolumeFit(ca, a.volume) == 4 && VolumeFit(cb, b.volume) == 2
    && (Nearness(a.near) < Nearness(b.near)
        || (a.near == b.near && RecencyScore(a.updatedAt, now) < RecencyScore(b.updatedAt, now)))
  }

  lemma DocScoreIff(ca: Cap, a: Request, cb: Cap, b: Request, now: int)
    requires DocPrefers(ca, a, cb, b, now)
    ensures SellerScore(ca, a, now) > SellerScore(cb, b, now) <==> !Meet(ca, a, cb, b, now) && !Outweighed(ca, a, cb, b, now)
    ensures Meet(ca, a, cb, b, now) ==> SellerScore(ca, a, now) == SellerScore(cb, b, now)
    ensures Outweighed(ca, a, cb, b, now) ==> SellerScore(ca, a, now) < SellerScore(cb, b, now)
  {
  }

  /** The seller has a band for both goods, and one of the pair relations holds of the requests. */
  predicate OfBoth(mySell: seq<SellRow>, rel: (Cap, Request, Cap, Request, int) -> bool, a: Ranked, b: Ranked, now: int) {
    && CapOf(mySell, a.row.goodId).Some? && CapOf(mySell, b.row.goodId).Some?
    && rel(CapOf(mySell, a.row.goodId).value, a.row, CapOf(mySell, b.row.goodId).value, b.row, now)
  }

  /** Nothing is ranked before a request that the documentation puts ahead of it. */
  predicate Documented(mySell: seq<SellRow>, ranked: seq<Ranked>, now: int) {
    forall i, j | 0 <= i < j < |ranked| :: !OfBoth(mySell, DocPrefers, ranked[j], ranked[i], now)
  }

  /** The one pair that can go wrong: the preferred request is outweighed, or meets the other and was read after it. */
  predicate GoesWrong(mySell: seq<SellRow>, read: seq<Ranked>, i: nat, j: nat, now: int)
    requires i < |read| && j < |read|
  {
    && OfBoth(mySell, DocPrefers, read[i], read[j], now)
    && (OfBoth(mySell, Outweighed, read[i], read[j], now) || (OfBoth(mySell, Meet, read[i], read[j], now) && j < i))
  }

  predicate ReadBefore(read: seq<Ranked>, x: Ranked, y: Ranked) {
    exists i, j | 0 <= i <= j < |read| :: read[i] == x && read[j] == y
  }

  predicate NoRepeats(read: seq<Ranked>) {
    forall i, j | 0 <= i < j < |read| :: read[i] != read[j]
  }

  /** Requests of one score keep the order they were read in. */
  lemma TiesKeepOrder(read: seq<Ranked>, i: nat, j: nat)
    requires i < j < |StableSort(Higher, read)| && StableSort(Higher, read)[i].score == StableSort(Higher, read)[j].score
    ensures ReadBefore(read, StableSort(Higher, read)[i], StableSort(Higher, read)[j])
  {
    var sorted := StableSort(Higher, read);
    var tied := (x: Ranked) => x.score == sorted[i].score;
    var before := (x: Ranked, y: Ranked) => ReadBefore(read, x, y);
    assert SortedBy(before, read);
    FilterKeepsOrder(before, tied, read);
    assert OneClass(Higher, tied);
    SortStable(Higher, tied, read);
    FilterOrders(before, tied, sorted, i, j);
  }

  lemma Scored(mySell: seq<SellRow>, myBuy: seq<BuyRow>, rows: seq<Request>, now: int, x: Ranked)
    requires mySell != [] && x in Candidates(mySell, myBuy, rows, now)
    ensures CapOf(mySell, x.row.goodId).Some? && x.score == SellerScore(CapOf(mySell, x.row.goodId).value, x.row, now)
  {
    CandidatesAre(mySell, myBuy, rows, now, x);
  }

  lemma DocPair(mySell: seq<SellRow>, myBuy: seq<BuyRow>, rows: seq<Request>, now: int, a: Ranked, b: Ranked)
    requires mySell != [] && a in Candidates(mySell, myBuy, rows, now) && b in Candidates(mySell, myBuy, rows, now)
    requires OfBoth(mySell, DocPrefers, a, b, now)
    ensures if OfBoth(mySell, Outweighed, a, b, now) then a.score < b.score
            else if OfBoth(mySell, Meet, a, b, now) then a.score == b.score
            else a.score > b.score
  {
    Scored(mySell, myBuy, rows, now, a);
    Scored(mySell, myBuy, rows, now, b);
    DocScoreIff(CapOf(mySell, a.row.goodId).value, a.row, CapOf(mySell, b.row.goodId).value, b.row, now);
  }

  lemma SortedFalls(read: seq<Ranked>, i: nat, j: nat)
    requires i < j < |StableSort(Higher, read)|
    ensures StableSort(Higher, read)[i].score >= StableSort(Higher, read)[j].score
  {
    HigherIsPreorder();
    SortSorts(Higher, read);
    assert Higher(StableSort(Higher, read)[i], StableSort(Higher, read)[j]);
  }

  /** Of a pair that goes wrong, the request that should come first comes later. */
  lemma WrongPairAhead(mySell: seq<SellRow>, myBuy: seq<BuyRow>, rows: seq<Request>, now: int, i: nat, j: nat, p: nat) returns (q: nat)
    requires mySell != [] && NoRepeats(Candidates(mySell, myBuy, rows, now))
    requires i < |Candidates(mySell, myBuy, rows, now)| && j < |Candidates(mySell, myBuy, rows, now)|
    requires GoesWrong(mySell, Candidates(mySell, myBuy, rows, now), i, j, now)
    requires p < |AllRanked(mySell, myBuy, rows, now)| && AllRanked(mySell, myBuy, rows, now)[p] == Candidates(mySell, myBuy, rows, now)[i]
    ensures q < p && AllRanked(mySell, myBuy, rows, now)[q] == Candidates(mySell, myBuy, rows, now)[j]
  {
    var read, sorted := Candidates(mySell, myBuy, rows, now), AllRanked(mySell, myBuy, rows, now);
    SortPermutes(Higher, read);
    assert read[j] in sorted;
    q :| 0 <= q < |sorted| && sorted[q] == read[j];
    DocPair(mySell, myBuy, rows, now, read[i], read[j]);
    if p < q {
      SortedFalls(read, p, q);
      TiesKeepOrder(read, p, q);
      assert false;
    }
  }

  lemma WrongPairInverts(mySell: seq<SellRow>, myBuy: seq<BuyRow>, rows: seq<Request>, now: int, i: nat, j: nat)
    requires mySell != [] && NoRepeats(Candidates(mySell, myBuy, rows, now))
    requires i < |Candidates(mySell, myBuy, rows, now)| && j < |Candidates(mySell, myBuy, rows, now)|
    requires GoesWrong(mySell, Candidates(mySell, myBuy, rows, now), i, j, now)
    ensures !Documented(mySell, AllRanked(mySell, myBuy, rows, now), now)
  {
    var read, sorted := Candidates(mySell, myBuy, rows, now), AllRanked(mySell, myBuy, rows, now);
    SortPermutes(Higher, read);
    assert read[i] in sorted;
    var p :| 0 <= p < |sorted| && sorted[p] == read[i];
    var q := WrongPairAhead(mySell, myBuy, rows, now, i, j, p);
  }

  /** A wrong order comes from a pair that goes wrong. */
  lemma InversionIsWrongPair(mySell: seq<SellRow>, myBuy: seq<BuyRow>, rows: seq<Request>, now: int, p: nat, q: nat) returns (i: nat, j: nat)
    requires mySell != [] && NoRepeats(Candidates(mySell, myBuy, rows, now)) && q < p < |AllRanked(mySell, myBuy, rows, now)|
    requires OfBoth(mySell, DocPrefers, AllRanked(mySell, myBuy, rows, now)[p], AllRanked(mySell, myBuy, rows, now)[q], now)
    ensures i < |Candidates(mySell, myBuy, rows, now)| && j < |Candidates(mySell, myBuy, rows, now)|
    ensures Candidates(mySell, myBuy, rows, now)[i] == AllRanked(mySell, myBuy, rows, now)[p]
    ensures GoesWrong(mySell, Candidates(mySell, myBuy, rows, now), i, j, now)
  {
    var read, sorted := Candidates(mySell, myBuy, rows, now), AllRanked(mySell, myBuy, rows, now);
    SortPermutes(Higher, read);
    assert sorted[p] in read && sorted[q] in read;
    DocPair(mySell, myBuy, rows, now, sorted[p], sorted[q]);
    SortedFalls(read, q, p);
    if sorted[p].score == sorted[q].score {
      TiesKeepOrder(read, q, p);
      j, i :| 0 <= j <= i < |read| && read[j] == sorted[q] && read[i] == sorted[p];
    } else {
      i :| 0 <= i < |read| && read[i] == sorted[p];
      j :| 0 <= j < |read| && read[j] == sorted[q];
    }
  }

  predicate DistinctRequests(rows: seq<Request>) {
    forall i, j | 0 <= i < j < |rows| :: rows[i] != rows[j]
  }

  lemma {:induction false} CandidatesDiffer(mySell: seq<SellRow>, myBuy: seq<BuyRow>, rows: seq<Request>, now: int)
    requires DistinctRequests(rows)
    ensures NoRepeats(Candidates(mySell, myBuy, rows, now))
  {
    if rows != [] {
      var init, last := rows[..|rows| - 1], rows[|rows| - 1];
      CandidatesDiffer(mySell, myBuy, init, now);
      var before := Candidates(mySell, myBuy, init, now);
      forall i | 0 <= i < |before| ensures before[i].row != last {
        assert before[i] in before;
        CandidatesAre(mySell, myBuy, init, now, before[i]);
      }
    }
  }

  /**
   * A seller's ranking follows the documented order exactly when it reads no pair that goes wrong:
   * a request below the minimum, farther or equally near and staler than one beyond the stock; or the
   * weakest request inside the band, read after the strongest one below its minimum.
   */
  lemma DocumentedIff(mySell: seq<SellRow>, myBuy: seq<BuyRow>, rows: seq<Request>, now: int)
    requires mySell != [] && DistinctRequests(rows)
    ensures var read := Candidates(mySell, myBuy, rows, now);
            Documented(mySell, AllRanked(mySell, myBuy, rows, now), now)
            <==> forall i, j | 0 <= i < |read| && 0 <= j < |read| :: !GoesWrong(mySell, read, i, j, now)
  {
    var read, sorted := Candidates(mySell, myBuy, rows, now), AllRanked(mySell, myBuy, rows, now);
    CandidatesDiffer(mySell, myBuy, rows, now);
    if Documented(mySell, sorted, now) {
      forall i, j | 0 <= i < |read| && 0 <= j < |read| ensures !GoesWrong(mySell, read, i, j, now) {
        if GoesWrong(mySell, read, i, j, now) {
          WrongPairInverts(mySell, myBuy, rows, now, i, j);
          assert false;
        }
      }
    }
    if !Documented(mySell, sorted, now) {
      var q, p :| 0 <= q < p < |sorted| && OfBoth(mySell, DocPrefers, sorted[p], sorted[q], now);
      var i, j := InversionIsWrongPair(mySell, myBuy, rows, now, p, q);
      assert GoesWrong(mySell, read, i, j, now);
    }
  }

  // ---- The same of the list, which is cut ----

  /** How many of the requests score higher. */
  function NumAbove(read: seq<Ranked>, score: int): nat {
    if read == [] then 0 else (if read[0].score > score then 1 else 0) + NumAbove(read[1..], score)
  }

  /** How many come before request `i`: those of a higher score, and those of its score that were read before it. */
  function Place(read: seq<Ranked>, i: nat): nat
    requires i < |read|
  {
    if i == 0 then NumAbove(read[1..], read[0].score)
    else Place(read[1..], i - 1) + if read[0].score >= read[i].score then 1 else 0
  }

  lemma {:induction false} NoneAbove(sorted: seq<Ranked>, score: int)
    requires SortedBy(Higher, sorted) && (sorted == [] || sorted[0].score <= score)
    ensures NumAbove(sorted, score) == 0
  {
    if |sorted| > 1 {
      assert Higher(sorted[0], sorted[1]);
      NoneAbove(sorted[1..], score);
    }
  }

  lemma {:induction false} InsertAbove(x: Ranked, xs: seq<Ranked>, score: int)
    ensures NumAbove(Insert(Higher, x, xs), score) == NumAbove([x] + xs, score)
  {
    assert ([x] + xs)[1..] == xs;
    if !(xs == [] || Higher(x, xs[0])) {
      var rest := Insert(Higher, x, xs[1..]);
      InsertAbove(x, xs[1..], score);
      assert ([xs[0]] + rest)[1..] == rest && ([x] + xs[1..])[1..] == xs[1..];
    }
  }

  lemma {:induction false} SortAbove(read: seq<Ranked>, score: int)
    ensures NumAbove(StableSort(Higher, read), score) == NumAbove(read, score)
  {
    if read != [] {
      var tail := StableSort(Higher, read[1..]);
      SortAbove(read[1..], score);
      InsertAbove(read[0], tail, score);
      assert ([read[0]] + tail)[1..] == tail;
    }
  }

  /** The sort inserts an element behind those of a higher score only. */
  lemma {:induction false} InsertAt(x: Ranked, xs: seq<Ranked>)
    requires SortedBy(Higher, xs)
    ensures NumAbove(xs, x.score) <= |xs| && Insert(Higher, x, xs)[NumAbove(xs, x.score)] == x
  {
    if xs == [] || Higher(x, xs[0]) {
      NoneAbove(xs, x.score);
    } else {
      InsertAt(x, xs[1..]);
    }
  }

  lemma {:induction false} InsertShifts(x: Ranked, xs: seq<Ranked>, p: nat)
    requires SortedBy(Higher, xs) && p < |xs|
    ensures Insert(Higher, x, xs)[if Higher(x, xs[p]) then p + 1 else p] == xs[p]
  {
    if Higher(x, xs[0]) {
      assert p == 0 || Higher(xs[0], xs[p]);
    } else if p > 0 {
      InsertShifts(x, xs[1..], p - 1);
    }
  }

  /** The ranking has each request at its place. */
  lemma {:induction false} RankedAtPlace(read: seq<Ranked>, i: nat)
    requires i < |read|
    ensures Place(read, i) < |read| && StableSort(Higher, read)[Place(read, i)] == read[i]
  {
    var tail := StableSort(Higher, read[1..]);
    HigherIsPreorder();
    SortSorts(Higher, read[1..]);
    if i == 0 {
      SortAbove(read[1..], read[0].score);
      InsertAt(read[0], tail);
    } else {
      RankedAtPlace(read[1..], i - 1);
      InsertShifts(read[0], tail, Place(read[1..], i - 1));
    }
  }

  lemma RankedOnce(read: seq<Ranked>)
    requires NoRepeats(read)
    ensures NoRepeats(StableSort(Higher, read))
  {
    SortDistinct(Higher, (x: Ranked) => x, read);
  }

  lemma WrongPairShows(mySell: seq<SellRow>, myBuy: seq<BuyRow>, rows: seq<Request>, now: int, limit: nat, i: nat, j: nat)
    requires mySell != [] && NoRepeats(Candidates(mySell, myBuy, rows, now))
    requires i < |Candidates(mySell, myBuy, rows, now)| && j < |Candidates(mySell, myBuy, rows, now)|
    requires GoesWrong(mySell, Candidates(mySell, myBuy, rows, now), i, j, now) && Place(Candidates(mySell, myBuy, rows, now), i) < limit
    ensures !Documented(mySell, Take(AllRanked(mySell, myBuy, rows, now), limit), now)
  {
    var read, list := Candidates(mySell, myBuy, rows, now), Take(AllRanked(mySell, myBuy, rows, now), limit);
    var p := Place(read, i);
    RankedAtPlace(read, i);
    var q := WrongPairAhead(mySell, myBuy, rows, now, i, j, p);
    assert list[p] == read[i] && list[q] == read[j];
  }

  /**
   * What a seller is answered with, cut to the limit, follows the documented order exactly when, of every
   * pair that goes wrong, at least `limit` requests come before the one that should have come first.
   */
  lemma ListDocumentedIff(mySell: seq<SellRow>, myBuy: seq<BuyRow>, rows: seq<Request>, now: int, limit: nat)
    requires mySell != [] && DistinctRequests(rows)
    ensures var read := Candidates(mySell, myBuy, rows, now);
            Documented(mySell, Take(AllRanked(mySell, myBuy, rows, now), limit), now)
            <==> forall i, j | 0 <= i < |read| && 0 <= j < |read| && GoesWrong(mySell, read, i, j, now) :: Place(read, i) >= limit
  {
    var read, sorted := Candidates(mySell, myBuy, rows, now), AllRanked(mySell, myBuy, rows, now);
    var list := Take(sorted, limit);
    CandidatesDiffer(mySell, myBuy, rows, now);
    if i, j :| 0 <= i < |read| && 0 <= j < |read| && GoesWrong(mySell, read, i, j, now) && Place(read, i) < limit {
      WrongPairShows(mySell, myBuy, rows, now, limit, i, j);
    }
    if !Documented(mySell, list, now) {
      var q, p :| 0 <= q < p < |list| && OfBoth(mySell, DocPrefers, list[p], list[q], now);
      var i, j := InversionIsWrongPair(mySell, myBuy, rows, now, p, q);
      RankedAtPlace(read, i);
      RankedOnce(read);
      assert GoesWrong(mySell, read, i, j, now) && Place(read, i) == p;
    }
  }

  /** A far request below the minimum fits better than an equally fresh one in town beyond the stock, and comes last. */
  lemma FarSmallComesLast()
    ensures var mySell := [SellRow("g", Some(10), Some(20))];
            var small, large := Request("a", "g", 5, Far, 0), Request("b", "g", 50, SameCity, 0);
            && DocPrefers(Cap(10, 20), small, Cap(10, 20), large, 0)
            && AllRanked(mySell, [], [small, large], 0) == [Ranked(large, 32), Ranked(small, 14)]
  {
    var mySell := [SellRow("g", Some(10), Some(20))];
    var small, large := Request("a", "g", 5, Far, 0), Request("b", "g", 50, SameCity, 0);
    assert CapOf(mySell, "g") == Some(Cap(10, 20));
    assert RecencyScore(0, 0) == 6;
    assert [small, large][..1] == [small] && [small][..0] == [];
    assert Candidates(mySell, [], [small], 0) == [Ranked(small, 14)];
    var read := [Ranked(small, 14), Ranked(large, 32)];
    assert Candidates(mySell, [], [small, large], 0) == read;
    assert read[1..] == [Ranked(large, 32)] && [Ranked(large, 32)][1..] == [];
    assert StableSort(Higher, [Ranked(large, 32)]) == [Ranked(large, 32)];
    assert Insert(Higher, Ranked(small, 14), [Ranked(large, 32)]) == [Ranked(large, 32), Ranked(small, 14)];
    assert StableSort(Higher, read) == Insert(Higher, read[0], StableSort(Higher, read[1..]));
  }

  /** A buyer's peers: similar volume first, then nearer, then fresher. */
  predicate BuyerPrefers(va: int, a: Request, vb: int, b: Request, now: int) {
    if Similar(va, a.volume) != Similar(vb, b.volume) then Similar(va, a.volume)
    else if Nearness(a.near) != Nearness(b.near) then Nearness(a.near) > Nearness(b.near)
    else RecencyScore(a.updatedAt, now) > RecencyScore(b.updatedAt, now)
  }

  lemma BuyerScoreOrders(va: int, a: Request, vb: int, b: Request, now: int)
    ensures BuyerScore(va, a, now) > BuyerScore(vb, b, now) <==> BuyerPrefers(va, a, vb, b, now)
  {
  }

  /** A buyer's list never puts a request before one the buyer should see first. */
  lemma BuyerListIsOrdered(myBuy: seq<BuyRow>, rows: seq<Request>, now: int, limit: nat, i: nat, j: nat)
    requires myBuy != [] && i < j < |Take(AllRanked([], myBuy, rows, now), limit)|
    ensures var list := Take(AllRanked([], myBuy, rows, now), limit);
            var a, b := list[i].row, list[j].row;
            && VolumeOf(myBuy, a.goodId).Some? && VolumeOf(myBuy, b.goodId).Some?
            && !BuyerPrefers(VolumeOf(myBuy, b.goodId).value, b, VolumeOf(myBuy, a.goodId).value, a, now)
  {
    ListedIn([], myBuy, rows, now, limit, i);
    ListedIn([], myBuy, rows, now, limit, j);
    ScoresFall([], myBuy, rows, now, limit, i, j);
    var list := Take(AllRanked([], myBuy, rows, now), limit);
    var a, b := list[i].row, list[j].row;
    BuyerScoreOrders(VolumeOf(myBuy, b.goodId).value, b, VolumeOf(myBuy, a.goodId).value, a, now);
  }

  // ---- Ties ----

  predicate NewerRow(a: Request, b: Request) { a.updatedAt >= b.updatedAt }

  predicate Newer(a: Ranked, b: Ranked) { NewerRow(a.row, b.row) }

  lemma {:induction false} CandidatesKeepOrder(mySell: seq<SellRow>, myBuy: seq<BuyRow>, rows: seq<Request>, now: int)
    requires SortedBy(NewerRow, rows)
    ensures SortedBy(Newer, Candidates(mySell, myBuy, rows, now))
  {
    if rows != [] {
      var init, last := rows[..|rows| - 1], rows[|rows| - 1];
      assert SortedBy(NewerRow, init) by {
        assert forall i, j | 0 <= i < j < |init| :: NewerRow(rows[i], rows[j]);
      }
      CandidatesKeepOrder(mySell, myBuy, init, now);
      var before := Candidates(mySell, myBuy, init, now);
      forall i | 0 <= i < |before| ensures NewerRow(before[i].row, last) {
        assert before[i] in before;
        CandidatesAre(mySell, myBuy, init, now, before[i]);
        var k :| 0 <= k < |init| && init[k] == before[i].row;
        assert NewerRow(rows[k], rows[|rows| - 1]);
      }
    }
  }

  /** Requests of one score stay newest first, as they were read. */
  lemma TiesAreNewestFirst(mySell: seq<SellRow>, myBuy: seq<BuyRow>, rows: seq<Request>, now: int, limit: nat, i: nat, j: nat)
    requires SortedBy(NewerRow, rows) && i < j < |Take(AllRanked(mySell, myBuy, rows, now), limit)|
    ensures var list := Take(AllRanked(mySell, myBuy, rows, now), limit);
            list[i].score == list[j].score ==> list[i].row.updatedAt >= list[j].row.updatedAt
  {
    var all, sorted := Candidates(mySell, myBuy, rows, now), AllRanked(mySell, myBuy, rows, now);
    if sorted[i].score == sorted[j].score {
      var tied := (x: Ranked) => x.score == sorted[i].score;
      CandidatesKeepOrder(mySell, myBuy, rows, now);
      FilterKeepsOrder(Newer, tied, all);
      assert OneClass(Higher, tied);
      SortStable(Higher, tied, all);
      FilterOrders(Newer, tied, sorted, i, j);
    }
  }
}
