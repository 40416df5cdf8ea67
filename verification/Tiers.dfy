/** Volume tiers of the pricing engine: parsing, in-place normalisation, and what it preserves. */
module Tiers {
  import opened Wrappers
  import opened JsNumber
  import opened Sorting

  const MAX_PCT := 90.0
  const MAX_TIERS := 6

  /** A tier covers the quantities from `from` up to, not including, `to`. */
  datatype Tier = Tier(from: int, to: Option<int>, pct: real)

  /** An element of the untyped array in the request. */
  datatype RawTier =
    | NotObject
    | Entry(from: Num, to: Option<Num>, pct: Num)

  /** Percent kept to one decimal and between 0 and 90; garbage and negatives become 0. */
  function ClampPct(v: Num): (r: real)
    ensures 0.0 <= r <= MAX_PCT
    ensures forall x :: v == Finite(x) && 0.0 <= x <= MAX_PCT ==> -0.05 <= r - x <= 0.05
    ensures v.NotFinite? || v.r <= 0.0 ==> r == 0.0
    ensures v.Finite? && v.r >= 90.0 ==> r == 90.0
  {
    if v.NotFinite? || v.r < 0.0 then 0.0
    else
      var tenths := Round(v.r * 10.0);
      var r := tenths as real / 10.0;
      if r > MAX_PCT then MAX_PCT else r
  }

  /** Clamping a clamped percent changes nothing. */
  lemma ClampIdempotent(v: Num)
    ensures ClampPct(Finite(ClampPct(v))) == ClampPct(v)
  {
    if v.Finite? && v.r >= 0.0 {
      var tenths := Round(v.r * 10.0);
      RoundOfInt(tenths);
      RoundOfInt(900);
      assert (tenths as real / 10.0) * 10.0 == tenths as real;
    } else {
      RoundOfInt(0);
    }
  }

  function ParseRow(r: RawTier): Option<Tier> {
    match r
    case NotObject => None
    case Entry(from, to, pct) =>
      if from.NotFinite? || from.r <= 0.0 then None
      else if to.Some? && (to.value.NotFinite? || to.value.r <= from.r) then None
      else Some(Tier(Round(from.r), if to.None? then None else Some(Round(to.value.r)), ClampPct(pct)))
  }

  /** The rows that survive parsing, in order. */
  function Parsed(raw: seq<RawTier>): seq<Tier> {
    if raw == [] then []
    else
      var before := Parsed(raw[..|raw| - 1]);
      match ParseRow(raw[|raw| - 1])
      case None => before
      case Some(t) => before + [t]
  }

  predicate FromLe(a: Tier, b: Tier) { a.from <= b.from }

  /** The rows after sort and slice: what the normalising loop runs over. */
  function Rows(raw: Option<seq<RawTier>>): seq<Tier> {
    match raw
    case None => []
    case Some(entries) =>
      var rows := StableSort(FromLe, Parsed(entries));
      if |rows| <= MAX_TIERS then rows else rows[..MAX_TIERS]
  }

  predicate RowOk(t: Tier) {
    t.from >= 0 && (t.to.Some? ==> t.from <= t.to.value) && 0.0 <= t.pct <= MAX_PCT
  }

  lemma {:induction false} ParsedOk(raw: seq<RawTier>)
    ensures forall t :: t in Parsed(raw) ==> RowOk(t)
  {
    if raw != [] {
      ParsedOk(raw[..|raw| - 1]);
      var r := raw[|raw| - 1];
      if ParseRow(r).Some? && r.to.Some? {
        RoundMonotone(r.from.r, r.to.value.r);
      }
    }
  }

  /** At most six rows, ordered by their lower bound, none ending before it starts. */
  lemma RowsOk(raw: Option<seq<RawTier>>)
    ensures |Rows(raw)| <= MAX_TIERS
    ensures SortedBy(FromLe, Rows(raw))
    ensures forall t :: t in Rows(raw) ==> RowOk(t)
  {
    if raw.Some? {
      var parsed := Parsed(raw.value);
      ParsedOk(raw.value);
      SortPermutes(FromLe, parsed);
      SortSorts(FromLe, parsed);
    }
  }

  /** Where row `i` ends once an open row is closed by the row that follows it. */
  function EffectiveTo(rows: seq<Tier>, i: nat): (to: Option<int>)
    requires i < |rows|
    ensures to.None? ==> i + 1 == |rows|
  {
    if rows[i].to.Some? || i + 1 == |rows| then rows[i].to else Some(rows[i + 1].from)
  }

  /** The seller's rows, each non-last open row ending where the next one starts. */
  function Closed(rows: seq<Tier>): seq<Tier> {
    seq(|rows|, i requires 0 <= i < |rows| => rows[i].(to := EffectiveTo(rows, i)))
  }

  function Max(a: int, b: int): int { if a < b then b else a }

  function ChainedFrom(rows: seq<Tier>, i: nat): int
    requires i < |rows|
  {
    if i == 0 then rows[0].from else Max(rows[i].from, EffectiveTo(rows, i - 1).value)
  }

  /** The normalised tiers: closed, and each starting no earlier than its predecessor ends. */
  function Chained(rows: seq<Tier>): seq<Tier> {
    seq(|rows|, i requires 0 <= i < |rows| => Tier(ChainedFrom(rows, i), EffectiveTo(rows, i), rows[i].pct))
  }

  /** The normalising loop, changing the last kept tier and the next row in place. */
  method NormTiers(raw: Option<seq<RawTier>>) returns (out: seq<Tier>)
    ensures out == Chained(Rows(raw))
  {
    if raw.None? {
      return [];
    }
    var entries := raw.value;
    var rows: seq<Tier> := [];
    for k := 0 to |entries|
      invariant rows == Parsed(entries[..k])
    {
      assert entries[..k + 1][..k] == entries[..k];
      match ParseRow(entries[k]) {
        case None =>
        case Some(t) => rows := rows + [t];
      }
    }
    assert entries[..|entries|] == entries;
    rows := StableSort(FromLe, rows);
    if |rows| > MAX_TIERS {
      rows := rows[..MAX_TIERS];
    }
    out := [];
    for k := 0 to |rows|
      invariant |out| == k
      invariant forall i | 0 <= i < k :: out[i].from == ChainedFrom(rows, i) && out[i].pct == rows[i].pct
      invariant forall i | 0 <= i < k - 1 :: out[i].to == EffectiveTo(rows, i)
      invariant k > 0 ==> out[k - 1].to == rows[k - 1].to
    {
      var t := rows[k];
      if k > 0 {
        if out[k - 1].to.None? {
          out := out[k - 1 := out[k - 1].(to := Some(t.from))];
        } else if t.from < out[k - 1].to.value {
          t := t.(from := out[k - 1].to.value);
        }
      }
      out := out + [t];
    }
  }

  predicate Covers(t: Tier, qty: real) {
    t.from as real <= qty && (t.to.Some? ==> qty < t.to.value as real)
  }

  /** `tiers.find(...)` of the preview: the index of the first tier that covers the quantity. */
  function FirstMatch(tiers: seq<Tier>, qty: real): (r: Option<nat>)
    ensures r.Some? ==> r.value < |tiers| && Covers(tiers[r.value], qty)
                        && forall j | 0 <= j < r.value :: !Covers(tiers[j], qty)
    ensures r.None? ==> forall j | 0 <= j < |tiers| :: !Covers(tiers[j], qty)
  {
    if tiers == [] then None
    else if Covers(tiers[0], qty) then Some(0)
    else
      match FirstMatch(tiers[1..], qty)
      case None => None
      case Some(k) => Some(k + 1)
  }

  /**
   * Normalisation preserves meaning: for every list of rows, nested ones included, and every
   * quantity, the first tier that covers it is the same before and after.
   */
  lemma LookupPreserved(rows: seq<Tier>, qty: real)
    requires SortedBy(FromLe, rows)
    ensures FirstMatch(Chained(rows), qty) == FirstMatch(Closed(rows), qty)
  {
    var before, after := Closed(rows), Chained(rows);
    forall i | 0 <= i < |rows|
      ensures Covers(after[i], qty) ==> Covers(before[i], qty)
      ensures Covers(before[i], qty) && !Covers(after[i], qty) ==> i > 0 && Covers(before[i - 1], qty)
    {
      if i > 0 {
        assert FromLe(rows[i - 1], rows[i]);
      }
    }
    var b := FirstMatch(before, qty);
    if b.Some? {
      assert Covers(before[b.value], qty) && (b.value > 0 ==> !Covers(before[b.value - 1], qty));
      assert Covers(after[b.value], qty);
    }
  }

  /** The discount a quantity earns from the stored tiers is the one its rows promised. */
  lemma NormalisedDiscount(raw: Option<seq<RawTier>>, qty: real)
    ensures var before, after := Closed(Rows(raw)), Chained(Rows(raw));
            match FirstMatch(before, qty)
            case None => FirstMatch(after, qty).None?
            case Some(k) => FirstMatch(after, qty) == Some(k) && after[k].pct == before[k].pct
  {
    RowsOk(raw);
    LookupPreserved(Rows(raw), qty);
  }

  // ---- The comment's promise: sorted, no overlap, open end only in the last tier ----

  ghost predicate NoOverlap(tiers: seq<Tier>) {
    forall i, j, qty: real | 0 <= i < j < |tiers| :: !(Covers(tiers[i], qty) && Covers(tiers[j], qty))
  }

  predicate OpenOnlyLast(tiers: seq<Tier>) {
    forall i | 0 <= i < |tiers| - 1 :: tiers[i].to.Some?
  }

  predicate EndLe(a: Option<int>, b: Option<int>) {
    b.None? || (a.Some? && a.value <= b.value)
  }

  /** A row nested inside its predecessor is followed by one that starts after the predecessor ends. */
  predicate NestingClears(rows: seq<Tier>) {
    forall i | 0 < i < |rows| - 1 ::
      EndLe(EffectiveTo(rows, i - 1), EffectiveTo(rows, i)) || EndLe(EffectiveTo(rows, i - 1), Some(rows[i + 1].from))
  }

  /** The promise is false of [1,10), [2,5), [6,20): quantity 7 ends up in two tiers. */
  lemma NestedTiersOverlap()
    ensures var rows := [Tier(1, Some(10), 5.0), Tier(2, Some(5), 7.0), Tier(6, Some(20), 9.0)];
            && Chained(rows) == [Tier(1, Some(10), 5.0), Tier(10, Some(5), 7.0), Tier(6, Some(20), 9.0)]
            && !NoOverlap(Chained(rows))
  {
    var rows := [Tier(1, Some(10), 5.0), Tier(2, Some(5), 7.0), Tier(6, Some(20), 9.0)];
    var out := Chained(rows);
    assert |out| == 3 && out[0] == Tier(1, Some(10), 5.0) && out[1] == Tier(10, Some(5), 7.0) && out[2] == Tier(6, Some(20), 9.0);
    assert Covers(out[0], 7.0) && Covers(out[2], 7.0);
  }

  lemma ChainSteps(rows: seq<Tier>, i: nat)
    requires i + 1 < |rows|
    ensures var out := Chained(rows); out[i].to.Some? && out[i].to.value <= out[i + 1].from
  {
  }

  /** A sorted chain is disjoint: what starts after a later tier starts lies past the earlier tier's end. */
  lemma SortedChainDisjoint(rows: seq<Tier>)
    requires SortedBy(FromLe, Chained(rows))
    ensures NoOverlap(Chained(rows))
  {
    var out := Chained(rows);
    forall i, j, qty: real | 0 <= i < j < |out|
      ensures !(Covers(out[i], qty) && Covers(out[j], qty))
    {
      ChainSteps(rows, i);
      if i + 1 < j {
        assert FromLe(out[i + 1], out[j]);
      }
    }
  }

  lemma {:induction false} AdjacentSorted(tiers: seq<Tier>)
    requires forall i | 0 <= i < |tiers| - 1 :: tiers[i].from <= tiers[i + 1].from
    ensures SortedBy(FromLe, tiers)
  {
    if |tiers| > 1 {
      var init := tiers[..|tiers| - 1];
      AdjacentSorted(init);
      forall i | 0 <= i < |tiers| - 1 ensures FromLe(tiers[i], tiers[|tiers| - 1]) {
        if i < |tiers| - 2 {
          assert FromLe(init[i], init[|init| - 1]);
        }
      }
    }
  }

  /** The promise holds of the output exactly when no nested row is left uncleared. */
  lemma PromiseIff(rows: seq<Tier>)
    requires SortedBy(FromLe, rows)
    ensures SortedBy(FromLe, Chained(rows)) && NoOverlap(Chained(rows)) && OpenOnlyLast(Chained(rows))
            <==> NestingClears(rows)
  {
    var out := Chained(rows);
    if NestingClears(rows) {
      forall i | 0 <= i < |out| - 1 ensures out[i].from <= out[i + 1].from {
        assert FromLe(rows[i], rows[i + 1]);
        if i > 0 {
          assert EndLe(EffectiveTo(rows, i - 1), EffectiveTo(rows, i)) || EndLe(EffectiveTo(rows, i - 1), Some(rows[i + 1].from));
        }
      }
      AdjacentSorted(out);
      SortedChainDisjoint(rows);
    }
    if SortedBy(FromLe, out) {
      forall i | 0 < i < |rows| - 1
        ensures EndLe(EffectiveTo(rows, i - 1), EffectiveTo(rows, i)) || EndLe(EffectiveTo(rows, i - 1), Some(rows[i + 1].from))
      {
        assert FromLe(out[i], out[i + 1]);
      }
    }
  }

  // ---- Rows whose ends never go back ----

  predicate MonotoneEnds(rows: seq<Tier>) {
    forall i | 0 <= i < |rows| - 1 :: EndLe(EffectiveTo(rows, i), EffectiveTo(rows, i + 1))
  }

  /** Every tier ends no earlier than it starts, and no earlier than any later tier starts. */
  predicate Before(a: Tier, b: Tier) {
    a.to.Some? && a.to.value <= b.from
  }

  predicate Upright(t: Tier) {
    t.to.Some? ==> t.from <= t.to.value
  }

  predicate NonEmpty(t: Tier) {
    t.to.Some? ==> t.from < t.to.value
  }

  /** No stored tier is inverted exactly when the rows' effective ends are non-decreasing. */
  lemma UprightIff(rows: seq<Tier>)
    requires SortedBy(FromLe, rows) && forall t :: t in rows ==> RowOk(t)
    ensures (forall t :: t in Chained(rows) ==> Upright(t)) <==> MonotoneEnds(rows)
  {
    var out := Chained(rows);
    if forall t :: t in out ==> Upright(t) {
      forall i | 0 <= i < |rows| - 1 ensures EndLe(EffectiveTo(rows, i), EffectiveTo(rows, i + 1)) {
        assert out[i + 1] in out;
      }
    }
    if MonotoneEnds(rows) {
      forall t | t in out ensures Upright(t) {
        var i :| 0 <= i < |out| && out[i] == t;
        assert rows[i] in rows;
        if i + 1 < |rows| {
          assert FromLe(rows[i], rows[i + 1]);
        }
        if i > 0 {
          assert EndLe(EffectiveTo(rows, i - 1), EffectiveTo(rows, i));
        }
      }
    }
  }

  lemma {:induction false} MonotoneEndsFar(rows: seq<Tier>, i: nat, j: nat)
    requires MonotoneEnds(rows) && i <= j < |rows|
    ensures EndLe(EffectiveTo(rows, i), EffectiveTo(rows, j))
    decreases j - i
  {
    if i < j {
      MonotoneEndsFar(rows, i, j - 1);
      assert EndLe(EffectiveTo(rows, j - 1), EffectiveTo(rows, j));
    }
  }

  predicate Covered(tiers: seq<Tier>, qty: real) {
    exists i | 0 <= i < |tiers| :: Covers(tiers[i], qty)
  }

  /** With monotone ends the output is a strict sequence of intervals that covers the same quantities. */
  lemma MonotoneDisjoint(rows: seq<Tier>)
    requires SortedBy(FromLe, rows) && MonotoneEnds(rows)
    ensures var out := Chained(rows);
            && SortedBy(Before, out) && SortedBy(FromLe, out) && NoOverlap(out) && OpenOnlyLast(out)
            && forall qty: real :: Covered(out, qty) <==> Covered(Closed(rows), qty)
  {
    var out := Chained(rows);
    forall i, j | 0 <= i < j < |out| ensures Before(out[i], out[j]) && FromLe(out[i], out[j]) {
      assert FromLe(rows[i], rows[j]);
      MonotoneEndsFar(rows, i, j - 1);
      if i > 0 {
        MonotoneEndsFar(rows, i - 1, j - 1);
      }
    }
    SortedChainDisjoint(rows);
    forall qty: real ensures Covered(out, qty) <==> Covered(Closed(rows), qty) {
      LookupPreserved(rows, qty);
    }
  }

  // ---- Normalising twice ----

  /** The stored tier as it comes back in a request. */
  function AsEntry(t: Tier): RawTier {
    Entry(Finite(t.from as real), if t.to.None? then None else Some(Finite(t.to.value as real)), Finite(t.pct))
  }

  function AsEntries(tiers: seq<Tier>): seq<RawTier> {
    seq(|tiers|, i requires 0 <= i < |tiers| => AsEntry(tiers[i]))
  }

  predicate Settled(t: Tier) {
    t.from > 0 && ClampPct(Finite(t.pct)) == t.pct
  }

  /** Reading stored tiers back drops exactly the empty ones. */
  lemma {:induction false} ParsedStored(tiers: seq<Tier>)
    requires forall t :: t in tiers ==> Settled(t)
    ensures Parsed(AsEntries(tiers)) == Filter(NonEmpty, tiers)
  {
    if tiers != [] {
      var init, last := tiers[..|tiers| - 1], tiers[|tiers| - 1];
      ParsedStored(init);
      assert AsEntries(tiers)[..|tiers| - 1] == AsEntries(init);
      assert tiers == init + [last] && last in tiers;
      FilterConcat(NonEmpty, init, [last]);
      RoundOfInt(last.from);
      if last.to.Some? {
        RoundOfInt(last.to.value);
      }
    }
  }

  /** A strict sequence of intervals is its own chain. */
  lemma ChainedFixed(tiers: seq<Tier>)
    requires SortedBy(Before, tiers)
    ensures Chained(tiers) == tiers
  {
  }

  /** Saving what was saved only drops the tiers that cover nothing. */
  lemma NormaliseTwice(rows: seq<Tier>)
    requires SortedBy(FromLe, rows) && MonotoneEnds(rows) && |rows| <= MAX_TIERS
    requires forall t :: t in rows ==> Settled(t)
    ensures Chained(Rows(Some(AsEntries(Chained(rows))))) == Filter(NonEmpty, Chained(rows))
  {
    var out := Chained(rows);
    MonotoneDisjoint(rows);
    forall t | t in out ensures Settled(t) {
      var i :| 0 <= i < |out| && out[i] == t;
      assert rows[i] in rows;
    }
    ParsedStored(out);
    var kept := Filter(NonEmpty, out);
    FilterMembers(NonEmpty, out);
    FilterKeepsOrder(FromLe, NonEmpty, out);
    FilterKeepsOrder(Before, NonEmpty, out);
    SortIdentity(FromLe, kept);
    ChainedFixed(kept);
  }
}
