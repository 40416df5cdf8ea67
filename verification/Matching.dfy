/** Price ranks of same-good offers, and the ranked list of buy requests. */
module Matching {
  import opened Wrappers
  import opened JsNumber
  import opened Sorting

  type Id = string

  // ---- Price ranks ----

  datatype PriceRow = PriceRow(id: Id, priceMinor: Option<int>, goodId: Id)
  datatype Priced = Priced(id: Id, priceMinor: int)

  predicate Cheaper(a: Priced, b: Priced) { a.priceMinor <= b.priceMinor }

  /** The priced rows of one good, in order. */
  function GroupOf(rows: seq<PriceRow>, good: Id): seq<Priced> {
    if rows == [] then []
    else
      var last := rows[|rows| - 1];
      GroupOf(rows[..|rows| - 1], good)
      + if last.goodId == good && last.priceMinor.Some? then [Priced(last.id, last.priceMinor.value)] else []
  }

  /** The points of the row at place `i` of `n`. */
  function Points(i: nat, n: nat): int
    requires i < n
  {
    if n == 1 then 9 else Round(18.0 * (1.0 - i as real / (n - 1) as real))
  }

  type Ranks = map<Id, int>

  /** The first `k` places of a sorted group have their points. */
  predicate RankedTo(sorted: seq<Priced>, pts: Ranks, k: nat)
    requires k <= |sorted|
  {
    forall i | 0 <= i < k :: sorted[i].id in pts && pts[sorted[i].id] == Points(i, |sorted|)
  }

  function Sorted(rows: seq<PriceRow>, good: Id): seq<Priced> { StableSort(Cheaper, GroupOf(rows, good)) }

  predicate RanksGood(rows: seq<PriceRow>, pts: Ranks, good: Id) { RankedTo(Sorted(rows, good), pts, |Sorted(rows, good)|) }

  /** Every priced row has the points of its place among the offers of its good, cheapest first. */
  ghost predicate IsRanking(rows: seq<PriceRow>, pts: Ranks) {
    && (forall good :: RanksGood(rows, pts, good))
    && (forall id :: id in pts <==> exists r :: r in rows && r.id == id && r.priceMinor.Some?)
  }

  predicate DistinctRows(rows: seq<PriceRow>) {
    forall i, j | 0 <= i < j < |rows| :: rows[i].id != rows[j].id
  }

  lemma {:induction false} GroupMembers(rows: seq<PriceRow>, good: Id, p: Priced)
    ensures p in GroupOf(rows, good) <==> PriceRow(p.id, Some(p.priceMinor), good) in rows
  {
    if rows != [] {
      var init, last := rows[..|rows| - 1], rows[|rows| - 1];
      GroupMembers(init, good, p);
      assert rows == init + [last];
    }
  }

  lemma SortedMembers(rows: seq<PriceRow>, good: Id, p: Priced)
    ensures p in Sorted(rows, good) <==> PriceRow(p.id, Some(p.priceMinor), good) in rows
  {
    SortPermutes(Cheaper, GroupOf(rows, good));
    GroupMembers(rows, good, p);
  }

  predicate DistinctIds(ps: seq<Priced>) {
    forall i, j | 0 <= i < j < |ps| :: ps[i].id != ps[j].id
  }

  lemma {:induction false} GroupDistinct(rows: seq<PriceRow>, good: Id)
    requires DistinctRows(rows)
    ensures DistinctIds(GroupOf(rows, good))
  {
    if rows != [] {
      var init, last := rows[..|rows| - 1], rows[|rows| - 1];
      GroupDistinct(init, good);
      var g := GroupOf(init, good);
      forall i | 0 <= i < |g| ensures g[i].id != last.id {
        assert g[i] in g;
        GroupMembers(init, good, g[i]);
      }
    }
  }

  lemma SortedDistinct(rows: seq<PriceRow>, good: Id)
    requires DistinctRows(rows)
    ensures DistinctIds(Sorted(rows, good))
  {
    var group, id := GroupOf(rows, good), (p: Priced) => p.id;
    GroupDistinct(rows, good);
    assert DistinctBy(id, group);
    SortDistinct(Cheaper, id, group);
    assert forall i, j | 0 <= i < j < |Sorted(rows, good)| :: id(Sorted(rows, good)[i]) != id(Sorted(rows, good)[j]);
  }

  type ByGood = map<Id, seq<Priced>>

  function AtGood(byGood: ByGood, good: Id): seq<Priced> { if good in byGood then byGood[good] else [] }

  ghost predicate Grouped(rows: seq<PriceRow>, byGood: ByGood) {
    forall good :: AtGood(byGood, good) == GroupOf(rows, good)
  }

  method GroupRows(rows: seq<PriceRow>) returns (byGood: ByGood)
    ensures Grouped(rows, byGood)
  {
    byGood := map[];
    for k := 0 to |rows|
      invariant Grouped(rows[..k], byGood)
    {
      var r := rows[k];
      GroupStep(rows, k, byGood);
      if r.priceMinor.Some? {
        var arr := if r.goodId in byGood then byGood[r.goodId] else [];
        byGood := byGood[r.goodId := arr + [Priced(r.id, r.priceMinor.value)]];
      }
    }
    assert rows[..|rows|] == rows;
  }

  lemma GroupStep(rows: seq<PriceRow>, k: nat, byGood: ByGood)
    requires k < |rows| && Grouped(rows[..k], byGood)
    ensures var r := rows[k];
            Grouped(rows[..k + 1],
              if r.priceMinor.Some? then byGood[r.goodId := AtGood(byGood, r.goodId) + [Priced(r.id, r.priceMinor.value)]] else byGood)
  {
    var r := rows[k];
    var byGood' := if r.priceMinor.Some? then byGood[r.goodId := AtGood(byGood, r.goodId) + [Priced(r.id, r.priceMinor.value)]] else byGood;
    forall good ensures AtGood(byGood', good) == GroupOf(rows[..k + 1], good) {
      assert rows[..k + 1][..k] == rows[..k];
      assert AtGood(byGood, good) == GroupOf(rows[..k], good);
      assert GroupOf(rows[..k], good) + [] == GroupOf(rows[..k], good);
    }
  }

  method RankGroup(sorted: seq<Priced>, pts0: Ranks) returns (pts: Ranks)
    requires DistinctIds(sorted)
    ensures RankedTo(sorted, pts, |sorted|)
    ensures pts.Keys == pts0.Keys + set p | p in sorted :: p.id
    ensures forall id | id in pts0 && (forall i | 0 <= i < |sorted| :: sorted[i].id != id) :: pts[id] == pts0[id]
  {
    pts := pts0;
    for i := 0 to |sorted|
      invariant RankedTo(sorted, pts, i)
      invariant pts.Keys == pts0.Keys + set j | 0 <= j < i :: sorted[j].id
      invariant forall id | id in pts0 && (forall j | 0 <= j < i :: sorted[j].id != id) :: pts[id] == pts0[id]
    {
      pts := pts[sorted[i].id := Points(i, |sorted|)];
    }
    assert (set j | 0 <= j < |sorted| :: sorted[j].id) == set p | p in sorted :: p.id;
  }

  lemma GoodsApart(rows: seq<PriceRow>, a: Id, b: Id)
    requires DistinctRows(rows) && a != b
    ensures forall p, q | p in Sorted(rows, a) && q in Sorted(rows, b) :: p.id != q.id
  {
    forall p, q | p in Sorted(rows, a) && q in Sorted(rows, b) ensures p.id != q.id {
      SortedMembers(rows, a, p);
      SortedMembers(rows, b, q);
    }
  }

  lemma StillRanked(rows: seq<PriceRow>, before: Ranks, after: Ranks, good: Id, other: Id)
    requires DistinctRows(rows) && good != other && RanksGood(rows, before, other)
    requires forall id | id in before && (forall i | 0 <= i < |Sorted(rows, good)| :: Sorted(rows, good)[i].id != id) ::
               id in after && after[id] == before[id]
    ensures RanksGood(rows, after, other)
  {
    GoodsApart(rows, good, other);
    var mine, theirs := Sorted(rows, good), Sorted(rows, other);
    forall i | 0 <= i < |theirs| ensures theirs[i].id in after && after[theirs[i].id] == Points(i, |theirs|) {
      assert theirs[i] in theirs;
      assert forall j | 0 <= j < |mine| :: mine[j] in mine;
    }
  }

  function IdsOf(rows: seq<PriceRow>, goods: set<Id>): set<Id> { set good, p | good in goods && p in Sorted(rows, good) :: p.id }

  lemma IdsOfMore(rows: seq<PriceRow>, goods: set<Id>, good: Id)
    ensures IdsOf(rows, goods + {good}) == IdsOf(rows, goods) + set p | p in Sorted(rows, good) :: p.id
  {
  }

  lemma IdsOfNext(rows: seq<PriceRow>, goods: set<Id>, rest: set<Id>, good: Id)
    requires good in rest && rest <= goods
    ensures IdsOf(rows, goods - (rest - {good})) == IdsOf(rows, goods - rest) + set p | p in Sorted(rows, good) :: p.id
  {
    assert goods - (rest - {good}) == goods - rest + {good};
    IdsOfMore(rows, goods - rest, good);
  }

  ghost predicate RankedGoods(rows: seq<PriceRow>, pts: Ranks, rest: set<Id>) {
    forall good | good !in rest :: RanksGood(rows, pts, good)
  }

  lemma RankMore(rows: seq<PriceRow>, before: Ranks, after: Ranks, rest: set<Id>, good: Id)
    requires DistinctRows(rows) && RankedGoods(rows, before, rest) && RanksGood(rows, after, good)
    requires forall id | id in before && (forall i | 0 <= i < |Sorted(rows, good)| :: Sorted(rows, good)[i].id != id) ::
               id in after && after[id] == before[id]
    ensures RankedGoods(rows, after, rest - {good})
  {
    forall other | other !in rest - {good} ensures RanksGood(rows, after, other) {
      if other != good {
        StillRanked(rows, before, after, good, other);
      }
    }
  }

  /** Ranks one more good. */
  method RankNext(rows: seq<PriceRow>, byGood: ByGood, ghost rest: set<Id>, good: Id, pts0: Ranks) returns (pts: Ranks)
    requires DistinctRows(rows) && Grouped(rows, byGood) && good in byGood
    requires RankedGoods(rows, pts0, rest)
    ensures RankedGoods(rows, pts, rest - {good})
    ensures pts.Keys == pts0.Keys + set p | p in Sorted(rows, good) :: p.id
  {
    assert AtGood(byGood, good) == GroupOf(rows, good);
    var sorted := StableSort(Cheaper, byGood[good]);
    SortedDistinct(rows, good);
    pts := RankGroup(sorted, pts0);
    RankMore(rows, pts0, pts, rest, good);
  }

  method PriceRanks(rows: seq<PriceRow>) returns (pts: Ranks)
    requires DistinctRows(rows)
    ensures IsRanking(rows, pts)
  {
    var byGood := GroupRows(rows);
    pts := map[];
    var rest := byGood.Keys;
    NoneRanked(rows, byGood);
    while rest != {}
      invariant rest <= byGood.Keys && RankedGoods(rows, pts, rest)
      invariant pts.Keys == IdsOf(rows, byGood.Keys - rest)
      decreases |rest|
    {
      var good :| good in rest;
      IdsOfNext(rows, byGood.Keys, rest, good);
      pts := RankNext(rows, byGood, rest, good, pts);
      rest := rest - {good};
    }
    assert byGood.Keys - {} == byGood.Keys;
    RankingDone(rows, byGood, pts);
  }

  lemma RankingDone(rows: seq<PriceRow>, byGood: ByGood, pts: Ranks)
    requires Grouped(rows, byGood) && RankedGoods(rows, pts, {}) && pts.Keys == IdsOf(rows, byGood.Keys)
    ensures IsRanking(rows, pts)
  {
    forall id ensures id in pts <==> exists r :: r in rows && r.id == id && r.priceMinor.Some? {
      KeysAre(rows, byGood, id);
    }
    forall good ensures RanksGood(rows, pts, good) {
    }
  }

  lemma NoneRanked(rows: seq<PriceRow>, byGood: ByGood)
    requires Grouped(rows, byGood)
    ensures RankedGoods(rows, map[], byGood.Keys) && IdsOf(rows, byGood.Keys - byGood.Keys) == {}
  {
  }

  lemma KeysAre(rows: seq<PriceRow>, byGood: ByGood, id: Id)
    requires Grouped(rows, byGood)
    ensures id in IdsOf(rows, byGood.Keys) <==> exists r :: r in rows && r.id == id && r.priceMinor.Some?
  {
    if id in IdsOf(rows, byGood.Keys) {
      var good, p :| good in byGood.Keys && p in Sorted(rows, good) && p.id == id;
      SortedMembers(rows, good, p);
    }
    if r :| r in rows && r.id == id && r.priceMinor.Some? {
      var p := Priced(id, r.priceMinor.value);
      SortedMembers(rows, r.goodId, p);
      GroupMembers(rows, r.goodId, p);
      assert AtGood(byGood, r.goodId) == GroupOf(rows, r.goodId);
    }
  }

  // ---- What the ranks mean ----

  lemma DivideMonotone(a: real, b: real, m: real)
    requires a <= b && m > 0.0
    ensures a / m <= b / m
  {
    var x, y := a / m, b / m;
    assert x * m == a && y * m == b;
    assert (y - x) * m >= 0.0;
  }

  lemma FractionFalls(i: nat, j: nat, m: nat)
    requires i <= j <= m && m > 0
    ensures 0.0 <= i as real / m as real <= j as real / m as real <= 1.0
  {
    DivideMonotone(0.0, i as real, m as real);
    DivideMonotone(i as real, j as real, m as real);
    DivideMonotone(j as real, m as real, m as real);
  }

  lemma PointsFall(i: nat, j: nat, n: nat)
    requires i <= j < n
    ensures 0 <= Points(j, n) <= Points(i, n) <= 18
  {
    if n > 1 {
      FractionFalls(i, j, n - 1);
      var a, b := i as real / (n - 1) as real, j as real / (n - 1) as real;
      RoundMonotone(18.0 * (1.0 - b), 18.0 * (1.0 - a));
      RoundMonotone(0.0, 18.0 * (1.0 - b));
      RoundMonotone(18.0 * (1.0 - a), 18.0);
    }
  }

  lemma PointsEnds(n: nat)
    requires n > 1
    ensures Points(0, n) == 18 && Points(n - 1, n) == 0
  {
    assert (n - 1) as real / (n - 1) as real == 1.0;
    assert 0.0 / (n - 1) as real == 0.0;
  }

  lemma PlaceOf(rows: seq<PriceRow>, r: PriceRow) returns (i: nat)
    requires r in rows && r.priceMinor.Some?
    ensures i < |Sorted(rows, r.goodId)| && Sorted(rows, r.goodId)[i] == Priced(r.id, r.priceMinor.value)
  {
    var p := Priced(r.id, r.priceMinor.value);
    SortedMembers(rows, r.goodId, p);
    i :| 0 <= i < |Sorted(rows, r.goodId)| && Sorted(rows, r.goodId)[i] == p;
  }

  lemma CheaperIsPreorder()
    ensures TotalPreorder(Cheaper)
  {
  }

  /** Points are 0 to 18, and a strictly cheaper offer of the same good never has fewer. */
  lemma CheaperNeverFewer(rows: seq<PriceRow>, pts: Ranks, a: PriceRow, b: PriceRow)
    requires IsRanking(rows, pts) && a in rows && b in rows && a.goodId == b.goodId
    requires a.priceMinor.Some? && b.priceMinor.Some? && a.priceMinor.value < b.priceMinor.value
    ensures a.id in pts && b.id in pts && 0 <= pts[b.id] <= pts[a.id] <= 18
  {
    var i := PlaceOf(rows, a);
    var j := PlaceOf(rows, b);
    var sorted := Sorted(rows, a.goodId);
    CheaperIsPreorder();
    SortSorts(Cheaper, GroupOf(rows, a.goodId));
    assert j < i ==> Cheaper(sorted[j], sorted[i]);
    assert i < j;
    PointsFall(i, j, |sorted|);
    assert RanksGood(rows, pts, a.goodId);
  }

  /** Eighteen points for the first place, none for the last, in even steps to the nearest; nine for the only one. */
  predicate IsPoints(points: int, i: nat, n: nat)
    requires i < n
  {
    if n == 1 then points == 9
    else -0.5 <= points as real - 18.0 * (n - 1 - i) as real / (n - 1) as real <= 0.5
  }

  lemma PointsAre(i: nat, n: nat)
    requires i < n
    ensures IsPoints(Points(i, n), i, n)
  {
    if n > 1 {
      var m, q := (n - 1) as real, i as real / (n - 1) as real;
      RoundNear(18.0 * (1.0 - q));
      assert q * m == i as real;
      var x := 18.0 * (n - 1 - i) as real / m;
      assert x * m == 18.0 * (n - 1 - i) as real;
      assert (18.0 * (1.0 - q)) * m == 18.0 * (m - q * m);
      SameQuotient(18.0 * (1.0 - q), x, m);
    }
  }

  lemma SameQuotient(a: real, b: real, m: real)
    requires m > 0.0 && a * m == b * m
    ensures a == b
  {
    assert (a - b) * m == 0.0;
  }

  /** Listed from cheapest to dearest, the priced offers of a good have the points of their places. */
  lemma PlacesArePaid(rows: seq<PriceRow>, pts: Ranks, good: Id) returns (sorted: seq<Priced>)
    requires DistinctRows(rows) && IsRanking(rows, pts)
    ensures forall p :: p in sorted <==> PriceRow(p.id, Some(p.priceMinor), good) in rows
    ensures forall i, j | 0 <= i < j < |sorted| :: sorted[i].priceMinor <= sorted[j].priceMinor && sorted[i].id != sorted[j].id
    ensures forall i | 0 <= i < |sorted| :: sorted[i].id in pts && IsPoints(pts[sorted[i].id], i, |sorted|)
  {
    sorted := Sorted(rows, good);
    CheaperIsPreorder();
    SortSorts(Cheaper, GroupOf(rows, good));
    SortedDistinct(rows, good);
    assert RanksGood(rows, pts, good);
    forall p ensures p in sorted <==> PriceRow(p.id, Some(p.priceMinor), good) in rows {
      SortedMembers(rows, good, p);
    }
    forall i, j | 0 <= i < j < |sorted| ensures sorted[i].priceMinor <= sorted[j].priceMinor {
      assert Cheaper(sorted[i], sorted[j]);
    }
    forall i | 0 <= i < |sorted| ensures IsPoints(pts[sorted[i].id], i, |sorted|) {
      PointsAre(i, |sorted|);
    }
  }

  predicate Cheapest(rows: seq<PriceRow>, r: PriceRow) {
    r.priceMinor.Some? && forall o | o in rows && o.goodId == r.goodId && o.priceMinor.Some? :: r.priceMinor.value <= o.priceMinor.value
  }

  /** Among two or more offers of a good, some cheapest one has 18 points and some dearest one none. */
  lemma EndsAreExtremes(rows: seq<PriceRow>, pts: Ranks, good: Id) returns (first: PriceRow, last: PriceRow)
    requires IsRanking(rows, pts) && |GroupOf(rows, good)| > 1
    ensures first in rows && first.goodId == good && Cheapest(rows, first) && first.id in pts && pts[first.id] == 18
    ensures last in rows && last.goodId == good && last.priceMinor.Some? && last.id in pts && pts[last.id] == 0
    ensures forall o | o in rows && o.goodId == good && o.priceMinor.Some? :: o.priceMinor.value <= last.priceMinor.value
  {
    var sorted := Sorted(rows, good);
    var n := |sorted|;
    CheaperIsPreorder();
    SortSorts(Cheaper, GroupOf(rows, good));
    PointsEnds(n);
    assert RanksGood(rows, pts, good);
    first := PriceRow(sorted[0].id, Some(sorted[0].priceMinor), good);
    last := PriceRow(sorted[n - 1].id, Some(sorted[n - 1].priceMinor), good);
    assert sorted[0] in sorted && sorted[n - 1] in sorted;
    SortedMembers(rows, good, sorted[0]);
    SortedMembers(rows, good, sorted[n - 1]);
    forall o | o in rows && o.goodId == good && o.priceMinor.Some?
      ensures first.priceMinor.value <= o.priceMinor.value <= last.priceMinor.value
    {
      var k := PlaceOf(rows, o);
      assert k == 0 || Cheaper(sorted[0], sorted[k]);
      assert k == n - 1 || Cheaper(sorted[k], sorted[n - 1]);
    }
  }

  /** A row's points depend only on the offers of its own good. */
  lemma RankIsLocal(rows: seq<PriceRow>, others: seq<PriceRow>, pts: Ranks, pts': Ranks, r: PriceRow)
    requires IsRanking(rows, pts) && IsRanking(others, pts')
    requires r in rows && r.priceMinor.Some? && GroupOf(rows, r.goodId) == GroupOf(others, r.goodId)
    ensures r.id in pts && r.id in pts' && pts[r.id] == pts'[r.id]
  {
    var i := PlaceOf(rows, r);
    assert RanksGood(rows, pts, r.goodId) && RanksGood(others, pts', r.goodId);
    assert Sorted(rows, r.goodId)[i].id == r.id;
  }
}
