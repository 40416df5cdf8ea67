/** What a business and its customers get from the pricing handlers. */
module PriceAnswers {
  import opened Wrappers
  import opened JsNumber
  import opened Sorting
  import opened Tiers
  import opened Pricing

  // ---- The rows behind the stored tiers ----

  predicate Near(n: int, x: real) { -0.5 <= n as real - x <= 0.5 }

  /** A quantity above zero, up to nothing or to a larger one. */
  predicate IsRange(e: RawTier) {
    && e.Entry? && e.from.Finite? && e.from.r > 0.0
    && (e.to.Some? ==> e.to.value.Finite? && e.to.value.r > e.from.r)
  }

  /** The row has the entry's bounds, to whole numbers, and its clamped percent. */
  predicate IsRowOf(e: RawTier, t: Tier) {
    && IsRange(e) && Near(t.from, e.from.r) && t.pct == ClampPct(e.pct)
    && (t.to.Some? <==> e.to.Some?) && (e.to.Some? ==> Near(t.to.value, e.to.value.r))
  }

  lemma RowReads(e: RawTier)
    ensures ParseRow(e).Some? <==> IsRange(e)
    ensures IsRange(e) ==> IsRowOf(e, ParseRow(e).value)
  {
    if IsRange(e) {
      RoundNear(e.from.r);
      if e.to.Some? {
        RoundNear(e.to.value.r);
      }
    }
  }

  predicate Rising(at: seq<nat>) { forall i, j | 0 <= i < j < |at| :: at[i] < at[j] }

  /** The rows are those of the entries at the given places, and no other entry is a range. */
  predicate ReadAt(raw: seq<RawTier>, rows: seq<Tier>, at: seq<nat>) {
    && |rows| == |at| && Rising(at)
    && (forall j | 0 <= j < |at| :: at[j] < |raw| && IsRowOf(raw[at[j]], rows[j]))
    && forall i | 0 <= i < |raw| && IsRange(raw[i]) :: i in at
  }

  lemma ReadMore(raw: seq<RawTier>, before: seq<Tier>, at: seq<nat>)
    requires raw != [] && ReadAt(raw[..|raw| - 1], before, at)
    ensures var n := |raw| - 1;
            if IsRange(raw[n]) then ReadAt(raw, before + [ParseRow(raw[n]).value], at + [n]) else ReadAt(raw, before, at)
  {
    var n := |raw| - 1;
    RowReads(raw[n]);
    forall i | 0 <= i < n && IsRange(raw[i]) ensures i in at {
      assert IsRange(raw[..n][i]);
    }
  }

  lemma {:induction false} ParsedAt(raw: seq<RawTier>) returns (at: seq<nat>)
    ensures ReadAt(raw, Parsed(raw), at)
  {
    at := [];
    if raw != [] {
      var n := |raw| - 1;
      var before := ParsedAt(raw[..n]);
      RowReads(raw[n]);
      ReadMore(raw, Parsed(raw[..n]), before);
      at := if IsRange(raw[n]) then before + [n] else before;
    }
  }

  /** The rows worked on are those of the six entries that start lowest: none left out starts lower. */
  lemma SixLowest(raw: seq<RawTier>) returns (at: seq<nat>, rows: seq<Tier>, rest: seq<Tier>)
    ensures ReadAt(raw, rows, at)
    ensures multiset(Rows(Some(raw))) + multiset(rest) == multiset(rows)
    ensures |Rows(Some(raw))| == if |at| > 6 then 6 else |at|
    ensures forall a, b | a in Rows(Some(raw)) && b in rest :: a.from <= b.from
  {
    at := ParsedAt(raw);
    rows := Parsed(raw);
    var sorted := StableSort(FromLe, rows);
    SortPermutes(FromLe, rows);
    SortSorts(FromLe, rows);
    var n := |Rows(Some(raw))|;
    rest := sorted[n..];
    assert sorted == sorted[..n] + rest;
    forall a, b | a in sorted[..n] && b in rest ensures a.from <= b.from {
      var i :| 0 <= i < n && sorted[i] == a;
      var j :| 0 <= j < |rest| && rest[j] == b;
      assert FromLe(sorted[i], sorted[n + j]);
    }
  }

  /** Row `i` speaks for the quantity: it has started, and neither its own end nor, if it is open, the next row has come. */
  predicate RowCovers(rows: seq<Tier>, i: nat, qty: real)
    requires i < |rows|
  {
    && rows[i].from as real <= qty
    && (rows[i].to.Some? ==> qty < rows[i].to.value as real)
    && (rows[i].to.None? && i + 1 < |rows| ==> qty < rows[i + 1].from as real)
  }

  /** The tier covers the quantity. */
  predicate Holds(t: Tier, qty: real) {
    t.from as real <= qty && (t.to.None? || qty < t.to.value as real)
  }

  /** The percent of the first tier that covers the quantity, or none. */
  predicate IsTierPct(tiers: seq<Tier>, qty: real, pct: real) {
    || ((qty <= 0.0 || forall i | 0 <= i < |tiers| :: !Holds(tiers[i], qty)) && pct == 0.0)
    || (qty > 0.0 && exists k | 0 <= k < |tiers| :: Holds(tiers[k], qty) && tiers[k].pct == pct && forall j | 0 <= j < k :: !Holds(tiers[j], qty))
  }

  /** What is stored of a request gives every quantity the percent of the first row that speaks for it. */
  lemma StoredDiscount(raw: Option<seq<RawTier>>, qty: real, pct: real)
    requires qty > 0.0
    ensures var rows := Rows(raw);
            IsTierPct(Chained(rows), qty, pct)
            <==> || ((forall i | 0 <= i < |rows| :: !RowCovers(rows, i, qty)) && pct == 0.0)
                 || exists k | 0 <= k < |rows| :: RowCovers(rows, k, qty) && rows[k].pct == pct && forall j | 0 <= j < k :: !RowCovers(rows, j, qty)
  {
    var rows := Rows(raw);
    RowsOk(raw);
    LookupPreserved(rows, qty);
    forall i | 0 <= i < |rows|
      ensures Covers(Closed(rows)[i], qty) <==> RowCovers(rows, i, qty)
      ensures Covers(Chained(rows)[i], qty) <==> Holds(Chained(rows)[i], qty)
    {
    }
  }

  // ---- The preview ----

  predicate HasPct(s: Store, key: RuleKey, custType: CustKey) { key in s.rules && custType in s.rules[key].custPct }

  predicate HasTiers(s: Store, key: RuleKey) { key in s.rules && s.rules[key].tiers != [] }

  function ItemKey(businessId: Id, listingId: Id): RuleKey { RuleKey(businessId, ITEM, listingId) }

  function CatalogKey(businessId: Id): RuleKey { RuleKey(businessId, CATALOG, "") }

  /** The group of a listing, if it has one, has its own percent. */
  predicate GroupHasPct(s: Store, businessId: Id, l: Listing, custType: CustKey) {
    l.categoryId.Some? && HasPct(s, RuleKey(businessId, GROUP, l.categoryId.value), custType)
  }

  predicate GroupHasTiers(s: Store, businessId: Id, l: Listing) {
    l.categoryId.Some? && HasTiers(s, RuleKey(businessId, GROUP, l.categoryId.value))
  }

  /** The customer percent is that of the item, else of its group, else of the catalog, else none. */
  predicate IsCustPct(s: Store, businessId: Id, listingId: Id, custType: CustKey, pct: real, from: Option<Scope>)
    requires listingId in s.listings
  {
    var l := s.listings[listingId];
    if HasPct(s, ItemKey(businessId, listingId), custType)
    then pct == s.rules[ItemKey(businessId, listingId)].custPct[custType] && from == Some(ITEM)
    else if GroupHasPct(s, businessId, l, custType)
    then pct == s.rules[RuleKey(businessId, GROUP, l.categoryId.value)].custPct[custType] && from == Some(GROUP)
    else if HasPct(s, CatalogKey(businessId), custType)
    then pct == s.rules[CatalogKey(businessId)].custPct[custType] && from == Some(CATALOG)
    else pct == 0.0 && from == None
  }

  /** The volume percent is read off the item's tiers, else its group's, else the catalog's. */
  predicate IsVolumePct(s: Store, businessId: Id, listingId: Id, qty: real, pct: real)
    requires listingId in s.listings
  {
    var l := s.listings[listingId];
    if HasTiers(s, ItemKey(businessId, listingId)) then IsTierPct(s.rules[ItemKey(businessId, listingId)].tiers, qty, pct)
    else if GroupHasTiers(s, businessId, l) then IsTierPct(s.rules[RuleKey(businessId, GROUP, l.categoryId.value)].tiers, qty, pct)
    else if HasTiers(s, CatalogKey(businessId)) then IsTierPct(s.rules[CatalogKey(businessId)].tiers, qty, pct)
    else pct == 0.0
  }

  lemma SourceIs(c: seq<(Option<Rule>, Scope)>)
    requires |c| == 3
    ensures TierSource(c) == if c[0].0.Some? && c[0].0.value.tiers != [] then c[0].0.value.tiers
                             else if c[1].0.Some? && c[1].0.value.tiers != [] then c[1].0.value.tiers
                             else if c[2].0.Some? && c[2].0.value.tiers != [] then c[2].0.value.tiers
                             else []
  {
    var rest, last := c[1..], c[2..];
    assert rest[0] == c[1] && rest[1..] == last && last[0] == c[2] && last[1..] == [];
    assert TierSource(last) == if c[2].0.Some? && c[2].0.value.tiers != [] then c[2].0.value.tiers else [];
  }

  lemma TierPctIs(tiers: seq<Tier>, qty: real)
    ensures IsTierPct(tiers, qty, TierPct(tiers, qty))
  {
    forall i | 0 <= i < |tiers| ensures Covers(tiers[i], qty) <==> Holds(tiers[i], qty) {
    }
  }

  /**
   * An own listing previews at its customer percent and its volume percent, together at most ninety, and
   * at the base price less that, to the nearest unit; for anything else the preview is refused.
   */
  lemma PreviewIs(s: Store, businessId: Id, listingId: Id, custType: CustKey, qty: real)
    ensures var r := PreviewOf(s, businessId, listingId, custType, qty);
            if listingId !in s.listings || s.listings[listingId].businessId != businessId then r == Err(Forbidden)
            else
              && r.Ok?
              && IsCustPct(s, businessId, listingId, custType, r.value.custPct, r.value.custFrom)
              && IsVolumePct(s, businessId, listingId, qty, r.value.tierPct)
              && r.value.totalPct == (if r.value.custPct + r.value.tierPct > 90.0 then 90.0 else r.value.custPct + r.value.tierPct)
              && var base := (match s.listings[listingId].priceMinor case None => 0.0 case Some(m) => m as real);
                 var exact := base * (1.0 - r.value.totalPct / 100.0);
                 exact - 0.5 < r.value.finalMinor as real <= exact + 0.5
  {
    if listingId in s.listings && s.listings[listingId].businessId == businessId {
      var chain := Levels(s, businessId, listingId);
      ResolveUnfold(chain, custType);
      SourceIs(chain);
      TierPctIs(TierSource(chain), qty);
      var p := PreviewOf(s, businessId, listingId, custType, qty).value;
      RoundNear(s.listings[listingId].priceMinor.GetOr(0) as real * (1.0 - p.totalPct / 100.0));
    }
  }

  /** Tiers override too: saving a level less specific than the one whose tiers count changes no volume percent. */
  lemma LessSpecificTiersStay(s: Store, op: Op, businessId: Id, listingId: Id, custType: CustKey, qty: real)
    requires listingId in s.listings && s.listings[listingId].businessId == businessId
    requires || (HasTiers(s, ItemKey(businessId, listingId)) && (op.SaveCatalog? || op.SaveGroup?))
             || (GroupHasTiers(s, businessId, s.listings[listingId]) && op.SaveCatalog?)
    ensures var before, after := PreviewOf(s, businessId, listingId, custType, qty), PreviewOf(Apply(s, op).0, businessId, listingId, custType, qty);
            before.Ok? && after.Ok? && after.value.tierPct == before.value.tierPct
  {
    SourceIs(Levels(s, businessId, listingId));
    SourceIs(Levels(Apply(s, op).0, businessId, listingId));
  }

  // ---- What the saves store ----

  /** Each known kind has the clamped percent of its last entry, and nothing else has any. */
  predicate PctsOf(raw: RawPcts, pcts: map<CustKey, real>) {
    match raw
    case None => pcts == map[]
    case Some(entries) =>
      && (forall k | k in pcts :: k in {"p", "h", "q"} && Mentions(entries, k))
      && forall i | 0 <= i < |entries| && entries[i].0 in {"p", "h", "q"} && LastOfKind(entries, i) ::
           entries[i].0 in pcts && pcts[entries[i].0] == ClampPct(entries[i].1)
  }

  lemma NormPctsAre(raw: RawPcts)
    ensures PctsOf(raw, NormPcts(raw))
  {
    if raw.Some? {
      var entries := raw.value;
      forall k | k in NormPcts(raw) ensures IsCustKey(k) && Mentions(entries, k) {
        NoOtherPct(entries, k);
      }
      forall i | 0 <= i < |entries| && IsCustKey(entries[i].0) && LastOfKind(entries, i)
        ensures entries[i].0 in NormPcts(raw) && NormPcts(raw)[entries[i].0] == ClampPct(entries[i].1)
      {
        LastPctWins(entries, i);
      }
    }
  }

  /** Nothing but the rule under one key is touched. */
  predicate OnlyRule(s: Store, s': Store, key: RuleKey) {
    && s'.listings == s.listings && s'.categories == s.categories && key in s'.rules && s'.rules.Keys == s.rules.Keys + {key}
    && forall k | k in s.rules && k != key :: s'.rules[k] == s.rules[k]
  }

  /** The rule has the sent percents and tiers, and the three-way entry it had. */
  predicate SavesRule(s: Store, s': Store, key: RuleKey, custPct: RawPcts, tiers: RawTiers) {
    && OnlyRule(s, s', key) && PctsOf(custPct, s'.rules[key].custPct) && s'.rules[key].tiers == Chained(Rows(tiers))
    && s'.rules[key].itemTri == if key in s.rules then s.rules[key].itemTri else None
  }

  /** The catalog's rule can always be saved, a group's exactly for a category of an existing business. */
  lemma LevelIsSaved(s: Store, op: Op)
    requires op.SaveCatalog? || op.SaveGroup?
    ensures var (s', err) := Apply(s, op);
            && (op.SaveCatalog? ==> err == None && SavesRule(s, s', CatalogKey(op.businessId), op.custPct, op.tiers))
            && (op.SaveGroup? ==>
                  && (err == Some(NotFound) <==> op.businessId !in s.categories)
                  && (err == None <==> op.businessId in s.categories && op.refId in s.categories[op.businessId])
                  && err in {None, Some(NotFound), Some(GroupNotFound)}
                  && if err == None then SavesRule(s, s', RuleKey(op.businessId, GROUP, op.refId), op.custPct, op.tiers) else s' == s)
  {
    NormPctsAre(op.custPct);
  }

  /** A kind's last usable entry. */
  predicate LastEntry(raw: RawTris, i: nat) { raw.Some? && i < |raw.value| && LastUsable(raw.value, i) }

  /** An entered value, to the tenth of a toman. */
  predicate IsTenth(v: real, x: real) { -0.05 <= v - x <= 0.05 && (v * 10.0).Floor as real == v * 10.0 }

  /** The percent an entry comes to, of a base price in toman. */
  predicate ComesTo(kind: Kind, toman: real, base: real, pct: real) {
    match kind
    case PctKind => pct == ClampPct(Finite(toman))
    case AmtKind => base > 0.0 && pct == ClampPct(Finite(100.0 * toman / base))
    case FinKind => base > 0.0 && pct == ClampPct(Finite(100.0 * (base - toman) / base))
  }

  lemma TriPctIs(tri: Tri, base: real)
    requires base > 0.0 || tri.kind == PctKind
    ensures ComesTo(tri.kind, tri.valueToman, base, ClampPct(Finite(TriPct(tri, base))))
  {
    if tri.kind == AmtKind {
      Percent(tri.valueToman, base);
    } else if tri.kind == FinKind {
      Percent(base - tri.valueToman, base);
    }
  }

  lemma Percent(x: real, base: real)
    requires base > 0.0
    ensures x / base * 100.0 == 100.0 * x / base
  {
    var q := x / base;
    assert q * base == x;
    assert (q * 100.0) * base == 100.0 * x;
    QuotientUnique(100.0 * x, base, q * 100.0);
  }

  /** The stored entries are the last usable ones of their kinds, and each percent is what its entry comes to. */
  ghost predicate TrisOf(raw: RawTris, base: real, rule: Rule) {
    && rule.itemTri.Some? && rule.custPct.Keys == rule.itemTri.value.Keys
    && (forall k | k in rule.itemTri.value :: raw.Some? && MentionsUsable(raw.value, k))
    && (forall i: nat | LastEntry(raw, i) ::
          var (k, e) := raw.value[i];
          k in rule.itemTri.value && rule.itemTri.value[k].kind == e.kind && IsTenth(rule.itemTri.value[k].valueToman, e.valueToman.r))
    && forall k | k in rule.itemTri.value :: ComesTo(rule.itemTri.value[k].kind, rule.itemTri.value[k].valueToman, base, rule.custPct[k])
  }

  lemma NormTrisAre(raw: RawTris)
    ensures forall k | k in NormTris(raw) :: raw.Some? && MentionsUsable(raw.value, k)
    ensures forall i: nat | LastEntry(raw, i) ::
              var (k, e) := raw.value[i];
              k in NormTris(raw) && NormTris(raw)[k].kind == e.kind && IsTenth(NormTris(raw)[k].valueToman, e.valueToman.r)
  {
    if raw.Some? {
      forall k | k in NormTris(raw) ensures MentionsUsable(raw.value, k) {
        NoOtherTri(raw.value, k);
      }
      forall i: nat | LastEntry(raw, i)
        ensures raw.value[i].0 in NormTris(raw) && NormTris(raw)[raw.value[i].0].kind == raw.value[i].1.kind
        ensures IsTenth(NormTris(raw)[raw.value[i].0].valueToman, raw.value[i].1.valueToman.r)
      {
        LastTriWins(raw.value, i);
        RoundNear(raw.value[i].1.valueToman.r * 10.0);
      }
    }
  }

  /** The base price in toman, a tenth of the stored one. */
  function Toman(l: Listing): real { (match l.priceMinor case None => 0.0 case Some(m) => m as real) / 10.0 }

  /** Some kind's last usable entry is an amount or a final price. */
  ghost predicate NeedsPrice(raw: RawTris) { exists i: nat :: LastEntry(raw, i) && raw.value[i].1.kind != PctKind }

  lemma {:induction false} LastEntryOf(raw: seq<(string, RawTri)>, k: string) returns (i: nat)
    requires MentionsUsable(raw, k)
    ensures i < |raw| && raw[i].0 == k && LastUsable(raw, i)
  {
    var n := |raw| - 1;
    if raw[n].0 == k && Usable(raw[n]) {
      i := n;
    } else {
      var j :| 0 <= j < |raw| && raw[j].0 == k && Usable(raw[j]);
      assert raw[..n][j] == raw[j];
      i := LastEntryOf(raw[..n], k);
      assert forall x | i < x < n :: raw[..n][x] == raw[x];
    }
  }

  lemma NeedsBaseIff(raw: RawTris)
    ensures NeedsBase(NormTris(raw)) <==> NeedsPrice(raw)
  {
    NormTrisAre(raw);
    if NeedsBase(NormTris(raw)) {
      var k :| k in NormTris(raw) && NormTris(raw)[k].kind != PctKind;
      var i := LastEntryOf(raw.value, k);
      assert LastEntry(raw, i);
    }
  }

  lemma TrisAre(raw: RawTris, base: real, tiers: seq<Tier>)
    ensures base > 0.0 || !NeedsBase(NormTris(raw)) ==> TrisOf(raw, base, Rule(TriPcts(NormTris(raw), base), tiers, Some(NormTris(raw))))
  {
    var tris := NormTris(raw);
    NormTrisAre(raw);
    forall k | k in tris && (base > 0.0 || tris[k].kind == PctKind)
      ensures ComesTo(tris[k].kind, tris[k].valueToman, base, TriPcts(tris, base)[k])
    {
      TriPctIs(tris[k], base);
    }
  }

  predicate Own(s: Store, op: Op)
    requires op.SaveItem?
  {
    op.listingId in s.listings && s.listings[op.listingId].businessId == op.businessId
  }

  /** An item's rule is refused for a listing of another business, and for amounts or final prices without a base price. */
  lemma ItemRefusedIff(s: Store, op: Op)
    requires op.SaveItem?
    ensures var (s', err) := Apply(s, op);
            && (err == Some(Forbidden) <==> !Own(s, op)) && err in {None, Some(Forbidden), Some(BasePriceMissing)} && (err != None ==> s' == s)
            && (err == Some(BasePriceMissing) <==>
                  Own(s, op) && op.mode == UseCustom && Toman(s.listings[op.listingId]) <= 0.0 && NeedsPrice(op.tri))
  {
    NeedsBaseIff(op.tri);
  }

  /** Otherwise it is deleted, or replaced by the entries, their percents, and the tiers. */
  lemma ItemIsSaved(s: Store, op: Op)
    requires op.SaveItem? && Apply(s, op).1 == None
    ensures var s', key := Apply(s, op).0, ItemKey(op.businessId, op.listingId);
            && Own(s, op)
            && if op.mode == UseCatalog then s' == s.(rules := s.rules - {key})
               else OnlyRule(s, s', key) && s'.rules[key].tiers == Chained(Rows(op.tiers))
                    && TrisOf(op.tri, Toman(s.listings[op.listingId]), s'.rules[key])
  {
    var base := BaseToman(s.listings[op.listingId]);
    if op.mode == UseCustom {
      SavedRule(s, op);
      TrisAre(op.tri, base, Chained(Rows(op.tiers)));
    }
  }

  lemma SavedRule(s: Store, op: Op)
    requires op.SaveItem? && Apply(s, op).1 == None && op.mode == UseCustom
    ensures Own(s, op) && (BaseToman(s.listings[op.listingId]) > 0.0 || !NeedsBase(NormTris(op.tri)))
    ensures Apply(s, op).0 == s.(rules := s.rules[ItemKey(op.businessId, op.listingId) :=
              Rule(TriPcts(NormTris(op.tri), BaseToman(s.listings[op.listingId])), Chained(Rows(op.tiers)), Some(NormTris(op.tri)))])
  {
  }

  // ---- Many items at once ----

  /** The first place at which an id is named. */
  predicate FirstNamed(ids: seq<Id>, i: nat) { i < |ids| && forall j | 0 <= j < i :: ids[j] != ids[i] }

  function Named(ids: seq<Id>): set<Id> { set x | x in ids }

  lemma NamedLast(ids: seq<Id>)
    requires ids != []
    ensures Named(ids) == Named(ids[..|ids| - 1]) + {ids[|ids| - 1]}
  {
    assert ids == ids[..|ids| - 1] + [ids[|ids| - 1]];
  }

  predicate Once(ids: seq<Id>) { forall i, j | 0 <= i < j < |ids| :: ids[i] != ids[j] }

  lemma {:induction false} DistinctAre(ids: seq<Id>)
    ensures Named(Distinct(ids)) == Named(ids) && Once(Distinct(ids)) && |Distinct(ids)| == |Named(ids)|
  {
    if ids != [] {
      var init, last := ids[..|ids| - 1], ids[|ids| - 1];
      DistinctAre(init);
      NamedLast(ids);
      if last !in Distinct(init) {
        assert last !in Named(init);
        NamedLast(Distinct(init) + [last]);
        assert (Distinct(init) + [last])[..|Distinct(init)|] == Distinct(init);
      } else {
        assert last in Named(Distinct(init));
        assert Named(ids) == Named(init);
      }
    }
  }

  /** An id stands behind as many others as are named before it. */
  lemma {:induction false} DistinctAt(ids: seq<Id>, i: nat)
    requires FirstNamed(ids, i)
    ensures |Named(ids[..i])| < |Distinct(ids)| && Distinct(ids)[|Named(ids[..i])|] == ids[i]
  {
    var n := |ids| - 1;
    var init := ids[..n];
    DistinctAre(init);
    if i < n {
      assert init[..i] == ids[..i] && init[i] == ids[i];
      DistinctAt(init, i);
    } else {
      assert ids[n] !in Named(init);
      assert ids[n] !in Distinct(init);
    }
  }

  lemma {:induction false} FirstPlace(ids: seq<Id>, id: Id) returns (i: nat)
    requires id in ids
    ensures FirstNamed(ids, i) && ids[i] == id
  {
    var n := |ids| - 1;
    if id in ids[..n] {
      i := FirstPlace(ids[..n], id);
    } else {
      i := n;
      assert ids == ids[..n] + [ids[n]];
      assert forall j | 0 <= j < n :: ids[..n][j] == ids[j];
    }
  }

  /** Fewer than fifty ids are named before it. */
  predicate AmongFifty(ids: seq<Id>, id: Id) {
    exists i | 0 <= i < |ids| :: FirstNamed(ids, i) && ids[i] == id && |Named(ids[..i])| < 50
  }

  lemma FiftyAre(ids: seq<Id>, id: Id)
    ensures id in FirstFifty(ids) <==> AmongFifty(ids, id)
  {
    var d, picked := Distinct(ids), FirstFifty(ids);
    DistinctAre(ids);
    if id in picked {
      var k :| 0 <= k < |picked| && picked[k] == id;
      assert d[k] == id && id in Named(d);
      var i := FirstPlace(ids, id);
      DistinctAt(ids, i);
      assert |Named(ids[..i])| == k;
    }
    if i :| 0 <= i < |ids| && FirstNamed(ids, i) && ids[i] == id && |Named(ids[..i])| < 50 {
      DistinctAt(ids, i);
      assert picked[|Named(ids[..i])|] == id;
    }
  }

  /** The item is own and among the first fifty named. */
  predicate Picked(s: Store, op: Op, id: Id)
    requires op.Bulk?
  {
    id in s.listings && s.listings[id].businessId == op.businessId && AmongFifty(op.listingIds, id)
  }

  /** The rule of a picked item is gone, or has the sent percents and otherwise stays; any other rule stays. */
  predicate BulkWrites(s: Store, s': Store, op: Op, key: RuleKey)
    requires op.Bulk?
  {
    if !(key.businessId == op.businessId && key.scope == ITEM && Picked(s, op, key.refId))
    then (key in s'.rules <==> key in s.rules) && (key in s.rules ==> s'.rules[key] == s.rules[key])
    else if op.action == RESET then key !in s'.rules
    else
      && key in s'.rules && PctsOf(op.custPct, s'.rules[key].custPct)
      && s'.rules[key].tiers == (if key in s.rules then s.rules[key].tiers else [])
      && s'.rules[key].itemTri == (if key in s.rules then s.rules[key].itemTri else None)
  }

  lemma OwnedArePicked(s: Store, op: Op)
    requires op.Bulk?
    ensures forall id :: id in OwnedIds(s, op.businessId, FirstFifty(op.listingIds)) <==> Picked(s, op, id)
  {
    forall id ensures id in FirstFifty(op.listingIds) <==> AmongFifty(op.listingIds, id) {
      FiftyAre(op.listingIds, id);
    }
  }

  predicate AnyPicked(s: Store, op: Op)
    requires op.Bulk?
  {
    exists id | id in s.listings :: Picked(s, op, id)
  }

  /** A bulk request names something, and something own among its first fifty, or it is refused. */
  lemma BulkRefusedIff(s: Store, op: Op)
    requires op.Bulk?
    ensures var (s', err) := Apply(s, op);
            && (err == Some(NothingSelected) <==> op.listingIds == []) && (err == None <==> AnyPicked(s, op))
            && err in {None, Some(NothingSelected), Some(Forbidden)} && (err != None ==> s' == s)
  {
    var owned := OwnedIds(s, op.businessId, FirstFifty(op.listingIds));
    OwnedArePicked(s, op);
    if op.listingIds != [] {
      DistinctAre(op.listingIds);
      assert op.listingIds[0] in Named(op.listingIds);
    }
    if owned != {} {
      var id :| id in owned;
      assert Picked(s, op, id);
    }
  }

  /**
   * Of the first fifty items named, the own ones lose their rules or get the sent percents, keeping tiers
   * and entries; no other rule changes.
   */
  lemma BulkIsSaved(s: Store, op: Op, key: RuleKey)
    requires op.Bulk? && Apply(s, op).1 == None
    ensures var s' := Apply(s, op).0; s'.listings == s.listings && s'.categories == s.categories && BulkWrites(s, s', op, key)
  {
    NormPctsAre(op.custPct);
    OwnedArePicked(s, op);
  }
}
