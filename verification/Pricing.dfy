/** Discount rules on three levels, the four ways to save them, and the price preview. */
module Pricing {
  import opened Wrappers
  import opened JsNumber
  import opened Tiers

  type Id = string
  type CustKey = string

  predicate IsCustKey(k: string) { k == "p" || k == "h" || k == "q" }

  datatype Scope = CATALOG | GROUP | ITEM
  datatype RuleKey = RuleKey(businessId: Id, scope: Scope, refId: string)

  datatype Kind = PctKind | AmtKind | FinKind
  /** One of the three ways to enter an item's discount: percent, amount off, or final price. */
  datatype Tri = Tri(kind: Kind, valueToman: real)
  datatype RawTri = RawTri(kind: Kind, valueToman: Num)

  datatype Rule = Rule(custPct: map<CustKey, real>, tiers: seq<Tier>, itemTri: Option<map<CustKey, Tri>>)
  datatype Listing = Listing(businessId: Id, priceMinor: Option<nat>, categoryId: Option<string>)

  datatype Store = Store(
    listings: map<Id, Listing>,
    categories: map<Id, seq<string>>,
    rules: map<RuleKey, Rule>)

  datatype Error = Forbidden | NotFound | GroupNotFound | BasePriceMissing | NothingSelected

  // ---- Reading the request ----

  type RawPcts = Option<seq<(string, Num)>>
  type RawTris = Option<seq<(string, RawTri)>>
  type RawTiers = Option<seq<RawTier>>

  function CustPctOf(raw: seq<(string, Num)>): map<CustKey, real> {
    if raw == [] then map[]
    else
      var (k, v) := raw[|raw| - 1];
      var before := CustPctOf(raw[..|raw| - 1]);
      if IsCustKey(k) then before[k := ClampPct(v)] else before
  }

  /** The last entry of its kind. */
  predicate LastOfKind<V>(raw: seq<(string, V)>, i: nat)
    requires i < |raw|
  {
    forall j | i < j < |raw| :: raw[j].0 != raw[i].0
  }

  predicate Mentions<V>(raw: seq<(string, V)>, k: string) {
    exists i | 0 <= i < |raw| :: raw[i].0 == k
  }

  /** A known kind has the clamped percent of its last entry. */
  lemma {:induction false} LastPctWins(raw: seq<(string, Num)>, i: nat)
    requires i < |raw| && IsCustKey(raw[i].0) && LastOfKind(raw, i)
    ensures raw[i].0 in CustPctOf(raw) && CustPctOf(raw)[raw[i].0] == ClampPct(raw[i].1)
  {
    if i < |raw| - 1 {
      LastPctWins(raw[..|raw| - 1], i);
    }
  }

  /** And nothing else has any. */
  lemma {:induction false} NoOtherPct(raw: seq<(string, Num)>, k: CustKey)
    requires k in CustPctOf(raw)
    ensures IsCustKey(k) && Mentions(raw, k)
  {
    var init, last := raw[..|raw| - 1], raw[|raw| - 1];
    if last.0 != k {
      NoOtherPct(init, k);
      var i :| 0 <= i < |init| && init[i].0 == k;
      assert raw[i].0 == k;
    } else if !IsCustKey(k) {
      NoOtherPct(init, k);
    }
  }

  predicate Usable(e: (string, RawTri)) { IsCustKey(e.0) && e.1.valueToman.Finite? && e.1.valueToman.r >= 0.0 }

  predicate LastUsable(raw: seq<(string, RawTri)>, i: nat)
    requires i < |raw|
  {
    Usable(raw[i]) && forall j | i < j < |raw| :: raw[j].0 == raw[i].0 ==> !Usable(raw[j])
  }

  predicate MentionsUsable(raw: seq<(string, RawTri)>, k: string) {
    exists i | 0 <= i < |raw| :: raw[i].0 == k && Usable(raw[i])
  }

  /** The kind has the entry's way and its value to the tenth. */
  predicate HasEntry(out: map<CustKey, Tri>, e: (string, RawTri)) {
    e.1.valueToman.Finite? && e.0 in out && out[e.0] == Tri(e.1.kind, Round(e.1.valueToman.r * 10.0) as real / 10.0)
  }

  /** A known kind has the way and the rounded value of its last usable entry. */
  lemma {:induction false} LastTriWins(raw: seq<(string, RawTri)>, i: nat)
    requires i < |raw| && LastUsable(raw, i)
    ensures HasEntry(TriOf(raw), raw[i])
  {
    if i < |raw| - 1 {
      LastTriWins(raw[..|raw| - 1], i);
    }
  }

  lemma {:induction false} NoOtherTri(raw: seq<(string, RawTri)>, k: CustKey)
    requires k in TriOf(raw)
    ensures MentionsUsable(raw, k)
  {
    var init, last := raw[..|raw| - 1], raw[|raw| - 1];
    if last.0 == k && Usable(last) {
    } else {
      NoOtherTri(init, k);
      var i :| 0 <= i < |init| && init[i].0 == k && Usable(init[i]);
      assert raw[i].0 == k && Usable(raw[i]);
    }
  }

  function NormPcts(raw: RawPcts): map<CustKey, real> {
    if raw.None? then map[] else CustPctOf(raw.value)
  }

  function TriOf(raw: seq<(string, RawTri)>): map<CustKey, Tri> {
    if raw == [] then map[]
    else
      var (k, v) := raw[|raw| - 1];
      var before := TriOf(raw[..|raw| - 1]);
      if !IsCustKey(k) || v.valueToman.NotFinite? || v.valueToman.r < 0.0 then before
      else before[k := Tri(v.kind, Round(v.valueToman.r * 10.0) as real / 10.0)]
  }

  function NormTris(raw: RawTris): map<CustKey, Tri> {
    if raw.None? then map[] else TriOf(raw.value)
  }

  method NormCustPct(raw: RawPcts) returns (out: map<CustKey, real>)
    ensures out == NormPcts(raw)
    ensures raw.Some? ==> forall k | k in out :: IsCustKey(k) && Mentions(raw.value, k)
    ensures raw.Some? ==> forall i | 0 <= i < |raw.value| && IsCustKey(raw.value[i].0) && LastOfKind(raw.value, i) ::
              raw.value[i].0 in out && out[raw.value[i].0] == ClampPct(raw.value[i].1)
  {
    out := map[];
    if raw.None? {
      return;
    }
    var entries := raw.value;
    for i := 0 to |entries|
      invariant out == CustPctOf(entries[..i])
    {
      assert entries[..i + 1][..i] == entries[..i];
      var (k, v) := entries[i];
      if IsCustKey(k) {
        out := out[k := ClampPct(v)];
      }
    }
    assert entries[..|entries|] == entries;
    forall k | k in out ensures IsCustKey(k) && Mentions(entries, k) {
      NoOtherPct(entries, k);
    }
    forall i | 0 <= i < |entries| && IsCustKey(entries[i].0) && LastOfKind(entries, i)
      ensures entries[i].0 in out && out[entries[i].0] == ClampPct(entries[i].1)
    {
      LastPctWins(entries, i);
    }
  }

  method NormItemTri(raw: RawTris) returns (out: map<CustKey, Tri>)
    ensures out == NormTris(raw)
    ensures raw.Some? ==> forall k | k in out :: MentionsUsable(raw.value, k)
    ensures raw.Some? ==> forall i | 0 <= i < |raw.value| && LastUsable(raw.value, i) :: HasEntry(out, raw.value[i])
  {
    out := map[];
    if raw.None? {
      return;
    }
    var entries := raw.value;
    for i := 0 to |entries|
      invariant out == TriOf(entries[..i])
    {
      assert entries[..i + 1][..i] == entries[..i];
      var (k, v) := entries[i];
      if IsCustKey(k) && v.valueToman.Finite? && v.valueToman.r >= 0.0 {
        out := out[k := Tri(v.kind, Round(v.valueToman.r * 10.0) as real / 10.0)];
      }
    }
    assert entries[..|entries|] == entries;
    forall k | k in out ensures MentionsUsable(entries, k) {
      NoOtherTri(entries, k);
    }
    forall i | 0 <= i < |entries| && LastUsable(entries, i) ensures HasEntry(out, entries[i]) {
      LastTriWins(entries, i);
    }
  }

  /** The percent a three-way entry stands for, given the base price in toman. */
  function TriPct(tri: Tri, baseToman: real): real {
    match tri.kind
    case PctKind => tri.valueToman
    case AmtKind => if baseToman > 0.0 then tri.valueToman / baseToman * 100.0 else 0.0
    case FinKind => if baseToman > 0.0 then (baseToman - tri.valueToman) / baseToman * 100.0 else 0.0
  }

  function BaseToman(l: Listing): real { l.priceMinor.GetOr(0) as real / 10.0 }

  function TriPcts(tris: map<CustKey, Tri>, baseToman: real): map<CustKey, real> {
    map k | k in tris :: ClampPct(Finite(TriPct(tris[k], baseToman)))
  }

  // ---- Saving ----

  datatype Mode = UseCatalog | UseCustom
  datatype Action = RESET | SAME

  datatype Op =
    | SaveCatalog(businessId: Id, custPct: RawPcts, tiers: RawTiers)
    | SaveGroup(businessId: Id, refId: string, custPct: RawPcts, tiers: RawTiers)
    | SaveItem(businessId: Id, listingId: Id, mode: Mode, tri: RawTris, tiers: RawTiers)
    | Bulk(businessId: Id, listingIds: seq<Id>, action: Action, custPct: RawPcts)

  /** An upsert that writes percents and tiers and leaves a stored three-way entry alone. */
  function PutRule(rules: map<RuleKey, Rule>, key: RuleKey, custPct: map<CustKey, real>, tiers: seq<Tier>): map<RuleKey, Rule> {
    rules[key := Rule(custPct, tiers, if key in rules then rules[key].itemTri else None)]
  }

  /** An upsert that writes percents only. */
  function PutPcts(rules: map<RuleKey, Rule>, key: RuleKey, custPct: map<CustKey, real>): map<RuleKey, Rule> {
    rules[key := if key in rules then rules[key].(custPct := custPct) else Rule(custPct, [], None)]
  }

  /** The first occurrences, in order: `[...new Set(ids)]`. */
  function Distinct(ids: seq<Id>): seq<Id> {
    if ids == [] then []
    else
      var before, last := Distinct(ids[..|ids| - 1]), ids[|ids| - 1];
      if last in before then before else before + [last]
  }

  function FirstFifty(ids: seq<Id>): seq<Id> {
    var d := Distinct(ids);
    if |d| <= 50 then d else d[..50]
  }

  function OwnedIds(s: Store, businessId: Id, ids: seq<Id>): set<Id> {
    set id | id in ids && id in s.listings && s.listings[id].businessId == businessId
  }

  predicate NeedsBase(tris: map<CustKey, Tri>) {
    exists k | k in tris :: tris[k].kind != PctKind
  }

  /** What each save answers and leaves behind; an error leaves the store alone. */
  function Apply(s: Store, op: Op): (Store, Option<Error>) {
    match op
    case SaveCatalog(biz, custPct, tiers) =>
      (s.(rules := PutRule(s.rules, RuleKey(biz, CATALOG, ""), NormPcts(custPct), Chained(Rows(tiers)))), None)
    case SaveGroup(biz, refId, custPct, tiers) =>
      if biz !in s.categories then (s, Some(NotFound))
      else if refId !in s.categories[biz] then (s, Some(GroupNotFound))
      else (s.(rules := PutRule(s.rules, RuleKey(biz, GROUP, refId), NormPcts(custPct), Chained(Rows(tiers)))), None)
    case SaveItem(biz, id, mode, tri, tiers) =>
      var key := RuleKey(biz, ITEM, id);
      if id !in s.listings || s.listings[id].businessId != biz then (s, Some(Forbidden))
      else if mode == UseCatalog then (s.(rules := s.rules - {key}), None)
      else
        var tris, base := NormTris(tri), BaseToman(s.listings[id]);
        if base <= 0.0 && NeedsBase(tris) then (s, Some(BasePriceMissing))
        else (s.(rules := s.rules[key := Rule(TriPcts(tris, base), Chained(Rows(tiers)), Some(tris))]), None)
    case Bulk(biz, ids, action, custPct) =>
      var picked := FirstFifty(ids);
      var owned := OwnedIds(s, biz, picked);
      if picked == [] then (s, Some(NothingSelected))
      else if owned == {} then (s, Some(Forbidden))
      else if action == RESET then (s.(rules := s.rules - set id | id in owned :: RuleKey(biz, ITEM, id)), None)
      else (s.(rules := BulkSame(s.rules, biz, owned, NormPcts(custPct))), None)
  }

  /** The rules after writing the same percents on every given item. */
  function BulkSame(rules: map<RuleKey, Rule>, biz: Id, ids: set<Id>, custPct: map<CustKey, real>): map<RuleKey, Rule> {
    map k | k in rules.Keys + (set id | id in ids :: RuleKey(biz, ITEM, id)) ::
      if k.businessId == biz && k.scope == ITEM && k.refId in ids then PutPcts(rules, k, custPct)[k] else rules[k]
  }

  /** One upsert of the loop adds one item to the written ones. */
  lemma BulkSameStep(rules: map<RuleKey, Rule>, biz: Id, done: set<Id>, refId: Id, custPct: map<CustKey, real>)
    requires refId !in done
    ensures PutPcts(BulkSame(rules, biz, done, custPct), RuleKey(biz, ITEM, refId), custPct)
            == BulkSame(rules, biz, done + {refId}, custPct)
  {
    var key := RuleKey(biz, ITEM, refId);
    var keys := set id | id in done :: RuleKey(biz, ITEM, id);
    var keys' := set id | id in done + {refId} :: RuleKey(biz, ITEM, id);
    assert keys' == keys + {key};
    assert key !in keys;
    var l, r := PutPcts(BulkSame(rules, biz, done, custPct), key, custPct), BulkSame(rules, biz, done + {refId}, custPct);
    assert l.Keys == r.Keys;
    forall k | k in l ensures l[k] == r[k] {
    }
  }

  /** The percent of each entered value. */
  method PctsOfTris(itemTri: map<CustKey, Tri>, baseToman: real) returns (custPct: map<CustKey, real>)
    ensures custPct == TriPcts(itemTri, baseToman)
  {
    custPct := map[];
    var keys := itemTri.Keys;
    while keys != {}
      invariant keys <= itemTri.Keys
      invariant custPct == map k | k in itemTri.Keys - keys :: ClampPct(Finite(TriPct(itemTri[k], baseToman)))
      decreases |keys|
    {
      var k :| k in keys;
      custPct := custPct[k := ClampPct(Finite(TriPct(itemTri[k], baseToman)))];
      keys := keys - {k};
    }
  }

  class PricingService {
    var listings: map<Id, Listing>
    var categories: map<Id, seq<string>>
    var rules: map<RuleKey, Rule>

    function State(): Store
      reads this
    {
      Store(listings, categories, rules)
    }

    method SaveCatalogRule(businessId: Id, custPct: RawPcts, tiers: RawTiers)
      modifies this`rules
      ensures State() == Apply(old(State()), SaveCatalog(businessId, custPct, tiers)).0
    {
      var pcts := NormCustPct(custPct);
      var normed := NormTiers(tiers);
      rules := PutRule(rules, RuleKey(businessId, CATALOG, ""), pcts, normed);
    }

    method SaveGroupRule(businessId: Id, refId: string, custPct: RawPcts, tiers: RawTiers) returns (err: Option<Error>)
      modifies this`rules
      ensures (State(), err) == Apply(old(State()), SaveGroup(businessId, refId, custPct, tiers))
    {
      if businessId !in categories {
        return Some(NotFound);
      }
      if refId !in categories[businessId] {
        return Some(GroupNotFound);
      }
      var pcts := NormCustPct(custPct);
      var normed := NormTiers(tiers);
      rules := PutRule(rules, RuleKey(businessId, GROUP, refId), pcts, normed);
      err := None;
    }

    method SaveItemRule(businessId: Id, listingId: Id, mode: Mode, tri: RawTris, tiers: RawTiers) returns (err: Option<Error>)
      modifies this`rules
      ensures (State(), err) == Apply(old(State()), SaveItem(businessId, listingId, mode, tri, tiers))
    {
      if listingId !in listings || listings[listingId].businessId != businessId {
        return Some(Forbidden);
      }
      var key := RuleKey(businessId, ITEM, listingId);
      if mode == UseCatalog {
        rules := rules - {key};
        return None;
      }
      var itemTri := NormItemTri(tri);
      var baseToman := BaseToman(listings[listingId]);
      if baseToman <= 0.0 && NeedsBase(itemTri) {
        return Some(BasePriceMissing);
      }
      var custPct := PctsOfTris(itemTri, baseToman);
      var normed := NormTiers(tiers);
      rules := rules[key := Rule(custPct, normed, Some(itemTri))];
      err := None;
    }

    method BulkRules(businessId: Id, listingIds: seq<Id>, action: Action, custPct: RawPcts) returns (err: Option<Error>)
      modifies this`rules
      ensures (State(), err) == Apply(old(State()), Bulk(businessId, listingIds, action, custPct))
    {
      var ids := FirstFifty(listingIds);
      if ids == [] {
        return Some(NothingSelected);
      }
      var owned := OwnedIds(State(), businessId, ids);
      if owned == {} {
        return Some(Forbidden);
      }
      err := None;
      if action == RESET {
        rules := rules - set id | id in owned :: RuleKey(businessId, ITEM, id);
        return;
      }
      var pct := NormCustPct(custPct);
      RewriteItems(businessId, owned, pct);
    }

    /** One upsert after another, over items in any order. */
    method RewriteItems(businessId: Id, owned: set<Id>, pct: map<CustKey, real>)
      modifies this`rules
      ensures rules == BulkSame(old(rules), businessId, owned, pct)
    {
      var left := owned;
      ghost var before := rules;
      assert rules == BulkSame(before, businessId, {}, pct);
      while left != {}
        invariant left <= owned
        invariant rules == BulkSame(before, businessId, owned - left, pct)
        decreases |left|
      {
        var refId :| refId in left;
        BulkSameStep(before, businessId, owned - left, refId, pct);
        assert owned - (left - {refId}) == owned - left + {refId};
        rules := PutPcts(rules, RuleKey(businessId, ITEM, refId), pct);
        left := left - {refId};
      }
      assert owned - left == owned;
    }

    /** The price preview: resolves the customer percent by walking the levels, then the tier. */
    method PreviewPrice(businessId: Id, listingId: Id, custType: CustKey, qty: real) returns (r: Result<Preview, Error>)
      ensures r == PreviewOf(State(), businessId, listingId, custType, qty)
    {
      if listingId !in listings || listings[listingId].businessId != businessId {
        return Err(Forbidden);
      }
      var chain := Levels(State(), businessId, listingId);
      var custPct, custFrom, i := 0.0, None, 0;
      while i < 3 && custFrom == None
        invariant 0 <= i <= 3
        invariant custFrom == None ==> custPct == 0.0 && Resolve(chain, custType) == Resolve(chain[i..], custType)
        invariant custFrom != None ==> Resolve(chain, custType) == (custPct, custFrom)
        decreases 3 - i + if custFrom == None then 1 else 0
      {
        var (rule, level) := chain[i];
        if rule.Some? && custType in rule.value.custPct {
          custPct, custFrom := rule.value.custPct[custType], Some(level);
        } else {
          i := i + 1;
        }
      }
      var tierPct := 0.0;
      var tiers := TierSource(chain);
      if qty > 0.0 {
        var t := FirstMatch(tiers, qty);
        if t.Some? {
          tierPct := tiers[t.value].pct;
        }
      }
      var totalPct := if custPct + tierPct > MAX_PCT then MAX_PCT else custPct + tierPct;
      r := Ok(Preview(custPct, custFrom, tierPct, totalPct, FinalMinor(listings[listingId].priceMinor.GetOr(0), totalPct)));
    }
  }

  // ---- Preview ----

  datatype Preview = Preview(custPct: real, custFrom: Option<Scope>, tierPct: real, totalPct: real, finalMinor: int)

  function RuleAt(s: Store, key: RuleKey): Option<Rule> {
    if key in s.rules then Some(s.rules[key]) else None
  }

  /** The listing's rules, most specific first. */
  function Levels(s: Store, businessId: Id, listingId: Id): (r: seq<(Option<Rule>, Scope)>)
    requires listingId in s.listings
    ensures |r| == 3
  {
    var category := s.listings[listingId].categoryId;
    [(RuleAt(s, RuleKey(businessId, ITEM, listingId)), ITEM),
     (if category.Some? then RuleAt(s, RuleKey(businessId, GROUP, category.value)) else None, GROUP),
     (RuleAt(s, RuleKey(businessId, CATALOG, "")), CATALOG)]
  }

  /** The percent and level of the first rule that has an entry for the customer type. */
  function Resolve(chain: seq<(Option<Rule>, Scope)>, custType: CustKey): (real, Option<Scope>) {
    if chain == [] then (0.0, None)
    else
      var (rule, level) := chain[0];
      if rule.Some? && custType in rule.value.custPct then (rule.value.custPct[custType], Some(level))
      else Resolve(chain[1..], custType)
  }

  /** All the tiers of the first rule that has any. */
  function TierSource(chain: seq<(Option<Rule>, Scope)>): seq<Tier> {
    if chain == [] then []
    else if chain[0].0.Some? && chain[0].0.value.tiers != [] then chain[0].0.value.tiers
    else TierSource(chain[1..])
  }

  function TierPct(tiers: seq<Tier>, qty: real): real {
    if qty <= 0.0 then 0.0
    else
      match FirstMatch(tiers, qty)
      case None => 0.0
      case Some(k) => tiers[k].pct
  }

  function FinalMinor(baseMinor: nat, totalPct: real): int {
    Round(baseMinor as real * (1.0 - totalPct / 100.0))
  }

  function PreviewOf(s: Store, businessId: Id, listingId: Id, custType: CustKey, qty: real): Result<Preview, Error> {
    if listingId !in s.listings || s.listings[listingId].businessId != businessId then Err(Forbidden)
    else
      var chain := Levels(s, businessId, listingId);
      var (custPct, custFrom) := Resolve(chain, custType);
      var tierPct := TierPct(TierSource(chain), qty);
      var totalPct := if custPct + tierPct > MAX_PCT then MAX_PCT else custPct + tierPct;
      Ok(Preview(custPct, custFrom, tierPct, totalPct, FinalMinor(s.listings[listingId].priceMinor.GetOr(0), totalPct)))
  }

  // ---- What every run of saves keeps ----

  predicate PctsOk(pcts: map<CustKey, real>) {
    forall k | k in pcts :: IsCustKey(k) && 0.0 <= pcts[k] <= MAX_PCT
  }

  predicate TiersOk(tiers: seq<Tier>) {
    |tiers| <= MAX_TIERS && forall t | t in tiers :: 0.0 <= t.pct <= MAX_PCT
  }

  predicate RuleOk(r: Rule) { PctsOk(r.custPct) && TiersOk(r.tiers) }

  predicate RulesOk(s: Store) {
    forall k | k in s.rules :: RuleOk(s.rules[k])
  }

  lemma {:induction false} CustPctOk(raw: seq<(string, Num)>)
    ensures PctsOk(CustPctOf(raw))
  {
    if raw != [] {
      CustPctOk(raw[..|raw| - 1]);
    }
  }

  lemma {:induction false} TriKeysOk(raw: seq<(string, RawTri)>)
    ensures forall k | k in TriOf(raw) :: IsCustKey(k)
  {
    if raw != [] {
      TriKeysOk(raw[..|raw| - 1]);
    }
  }

  lemma StoredTiersOk(raw: RawTiers)
    ensures TiersOk(Chained(Rows(raw)))
  {
    RowsOk(raw);
    var rows, out := Rows(raw), Chained(Rows(raw));
    forall t | t in out ensures 0.0 <= t.pct <= MAX_PCT {
      var i :| 0 <= i < |out| && out[i] == t;
      assert rows[i] in rows;
    }
  }

  lemma NormPctsOk(raw: RawPcts)
    ensures PctsOk(NormPcts(raw))
  {
    if raw.Some? {
      CustPctOk(raw.value);
    }
  }

  lemma TriPctsOk(raw: RawTris, baseToman: real)
    ensures PctsOk(TriPcts(NormTris(raw), baseToman))
  {
    if raw.Some? {
      TriKeysOk(raw.value);
    }
  }

  lemma PutRuleOk(rules: map<RuleKey, Rule>, key: RuleKey, custPct: map<CustKey, real>, tiers: seq<Tier>)
    requires (forall k | k in rules :: RuleOk(rules[k])) && PctsOk(custPct) && TiersOk(tiers)
    ensures forall k | k in PutRule(rules, key, custPct, tiers) :: RuleOk(PutRule(rules, key, custPct, tiers)[k])
  {
  }

  lemma BulkOk(s: Store, op: Op)
    requires RulesOk(s) && op.Bulk?
    ensures RulesOk(Apply(s, op).0)
  {
    NormPctsOk(op.custPct);
  }

  lemma ItemOk(s: Store, op: Op)
    requires RulesOk(s) && op.SaveItem?
    ensures RulesOk(Apply(s, op).0)
  {
    StoredTiersOk(op.tiers);
    if op.listingId in s.listings {
      TriPctsOk(op.tri, BaseToman(s.listings[op.listingId]));
    }
  }

  lemma SaveKeepsRulesOk(s: Store, op: Op)
    requires RulesOk(s)
    ensures RulesOk(Apply(s, op).0)
  {
    match op
    case SaveCatalog(businessId, custPct, tiers) =>
      NormPctsOk(custPct);
      StoredTiersOk(tiers);
      PutRuleOk(s.rules, RuleKey(businessId, CATALOG, ""), NormPcts(custPct), Chained(Rows(tiers)));
    case SaveGroup(businessId, refId, custPct, tiers) =>
      NormPctsOk(custPct);
      StoredTiersOk(tiers);
      PutRuleOk(s.rules, RuleKey(businessId, GROUP, refId), NormPcts(custPct), Chained(Rows(tiers)));
    case SaveItem(_, _, _, _, _) => ItemOk(s, op);
    case Bulk(_, _, _, _) => BulkOk(s, op);
  }

  function Run(s: Store, ops: seq<Op>): Store
    decreases |ops|
  {
    if ops == [] then s else Run(Apply(s, ops[0]).0, ops[1..])
  }

  /** After any sequence of saves, every stored percent is within 0 and 90 and no level has more than six tiers. */
  lemma {:induction false} RunKeepsRulesOk(s: Store, ops: seq<Op>)
    requires RulesOk(s)
    ensures RulesOk(Run(s, ops))
    decreases |ops|
  {
    if ops != [] {
      SaveKeepsRulesOk(s, ops[0]);
      RunKeepsRulesOk(Apply(s, ops[0]).0, ops[1..]);
    }
  }

  lemma {:induction false} LevelsInRange(chain: seq<(Option<Rule>, Scope)>, custType: CustKey, qty: real)
    requires forall i | 0 <= i < |chain| :: chain[i].0.Some? ==> RuleOk(chain[i].0.value)
    ensures 0.0 <= Resolve(chain, custType).0 <= MAX_PCT
    ensures 0.0 <= TierPct(TierSource(chain), qty) <= MAX_PCT
  {
    if chain != [] {
      LevelsInRange(chain[1..], custType, qty);
      if chain[0].0.Some? && chain[0].0.value.tiers != [] && qty > 0.0 {
        var tiers := chain[0].0.value.tiers;
        var k := FirstMatch(tiers, qty);
        assert k.Some? ==> tiers[k.value] in tiers;
      }
    }
  }

  lemma FinalMinorRange(baseMinor: nat, totalPct: real)
    requires 0.0 <= totalPct <= MAX_PCT
    ensures Round(baseMinor as real / 10.0) <= FinalMinor(baseMinor, totalPct) <= baseMinor
  {
    var b := baseMinor as real;
    var f := 1.0 - totalPct / 100.0;
    assert 0.1 <= f <= 1.0;
    assert b * 0.1 <= b * f <= b * 1.0;
    RoundMonotone(b / 10.0, b * f);
    RoundMonotone(b * f, b);
    RoundOfInt(baseMinor);
  }

  /** After any run of saves the previewed price lies between a tenth of the base price and the base price. */
  lemma PreviewInRange(s: Store, ops: seq<Op>, businessId: Id, listingId: Id, custType: CustKey, qty: real)
    requires RulesOk(s)
    ensures match PreviewOf(Run(s, ops), businessId, listingId, custType, qty)
            case Err(_) => true
            case Ok(p) =>
              var base := Run(s, ops).listings[listingId].priceMinor.GetOr(0);
              Round(base as real / 10.0) <= p.finalMinor <= base && 0.0 <= p.totalPct <= MAX_PCT
  {
    RunKeepsRulesOk(s, ops);
    var s' := Run(s, ops);
    if PreviewOf(s', businessId, listingId, custType, qty).Ok? {
      LevelsInRange(Levels(s', businessId, listingId), custType, qty);
      var p := PreviewOf(s', businessId, listingId, custType, qty).value;
      FinalMinorRange(s'.listings[listingId].priceMinor.GetOr(0), p.totalPct);
    }
  }

  lemma ResolveUnfold(c: seq<(Option<Rule>, Scope)>, custType: CustKey)
    requires |c| == 3
    ensures Resolve(c, custType) ==
            if c[0].0.Some? && custType in c[0].0.value.custPct then (c[0].0.value.custPct[custType], Some(c[0].1))
            else if c[1].0.Some? && custType in c[1].0.value.custPct then (c[1].0.value.custPct[custType], Some(c[1].1))
            else if c[2].0.Some? && custType in c[2].0.value.custPct then (c[2].0.value.custPct[custType], Some(c[2].1))
            else (0.0, None)
  {
    var rest, last := c[1..], [c[2]];
    assert rest[0] == c[1] && rest[1..] == last && last[0] == c[2] && last[1..] == [];
    assert Resolve(last, custType) ==
           if c[2].0.Some? && custType in c[2].0.value.custPct then (c[2].0.value.custPct[custType], Some(c[2].1)) else (0.0, None);
    assert Resolve(rest, custType) ==
           if c[1].0.Some? && custType in c[1].0.value.custPct then (c[1].0.value.custPct[custType], Some(c[1].1)) else Resolve(last, custType);
  }

  /** An override wins: saving a level less specific than the winning one changes no customer percent. */
  lemma LessSpecificChangesNothing(s: Store, op: Op, businessId: Id, listingId: Id, custType: CustKey, qty: real)
    requires PreviewOf(s, businessId, listingId, custType, qty).Ok?
    requires var winner := PreviewOf(s, businessId, listingId, custType, qty).value.custFrom;
             || (op.SaveCatalog? && (winner == Some(ITEM) || winner == Some(GROUP)))
             || (op.SaveGroup? && winner == Some(ITEM))
    ensures var before, after := PreviewOf(s, businessId, listingId, custType, qty), PreviewOf(Apply(s, op).0, businessId, listingId, custType, qty);
            after.Ok? && after.value.custPct == before.value.custPct && after.value.custFrom == before.value.custFrom
  {
    var c := Levels(s, businessId, listingId);
    var c' := Levels(Apply(s, op).0, businessId, listingId);
    ResolveUnfold(c, custType);
    ResolveUnfold(c', custType);
  }

  // ---- Three-way entry ----

  /** The single-customer request that enters one value of the given kind. */
  function Enter(businessId: Id, listingId: Id, k: CustKey, kind: Kind, toman: real): Op {
    SaveItem(businessId, listingId, UseCustom, Some([(k, RawTri(kind, Finite(toman)))]), None)
  }

  lemma EnteredTri(k: CustKey, kind: Kind, minor: nat)
    requires IsCustKey(k)
    ensures TriOf([(k, RawTri(kind, Finite(minor as real / 10.0)))]) == map[k := Tri(kind, minor as real / 10.0)]
  {
    var toman := minor as real / 10.0;
    var entries := [(k, RawTri(kind, Finite(toman)))];
    assert toman * 10.0 == minor as real;
    RoundOfInt(minor);
    assert entries[..0] == [];
    assert TriOf([]) == map[];
  }

  lemma EnteredPct(s: Store, businessId: Id, listingId: Id, k: CustKey, kind: Kind, minor: nat)
    requires listingId in s.listings && s.listings[listingId].businessId == businessId
    requires s.listings[listingId].priceMinor.Some? && s.listings[listingId].priceMinor.value > 0 && IsCustKey(k)
    ensures var s' := Apply(s, Enter(businessId, listingId, k, kind, minor as real / 10.0)).0;
            && s'.listings == s.listings
            && s'.rules == s.rules[RuleKey(businessId, ITEM, listingId) := Rule(
                 map[k := ClampPct(Finite(TriPct(Tri(kind, minor as real / 10.0), BaseToman(s.listings[listingId]))))],
                 [], Some(map[k := Tri(kind, minor as real / 10.0)]))]
  {
    var tri, base := Tri(kind, minor as real / 10.0), BaseToman(s.listings[listingId]);
    EnteredTri(k, kind, minor);
    assert TriPcts(map[k := tri], base) == map[k := ClampPct(Finite(TriPct(tri, base)))];
    assert Chained(Rows(None)) == [];
  }

  lemma QuotientUnique(a: real, b: real, q: real)
    requires b != 0.0 && q * b == a
    ensures a / b == q
  {
    var x := a / b;
    assert x * b == a;
    assert (x - q) * b == 0.0;
  }

  lemma Scale(b: real, x: real, y: real)
    requires b > 0.0 && x <= y
    ensures x * b <= y * b && b * x <= b * y
    ensures x < y ==> x * b < y * b
  {
  }

  lemma PctArithmetic(b: real, f: real)
    requires b > 0.0 && b <= 10.0 * f && f <= b
    ensures (b / 10.0 - f / 10.0) / (b / 10.0) == (b - f) / b
    ensures ((b - f) / 10.0) / (b / 10.0) == (b - f) / b
    ensures 0.0 <= (b - f) / b <= 0.9
  {
    var d := b - f;
    var q := d / b;
    assert q * b == d;
    TenthOf(q, b);
    QuotientUnique(d / 10.0, b / 10.0, q);
    assert b / 10.0 - f / 10.0 == d / 10.0;
    if q > 0.9 {
      Scale(b, 0.9, q);
    }
    if q < 0.0 {
      Scale(b, q, 0.0);
    }
  }

  lemma TenthOf(q: real, b: real)
    ensures q * (b / 10.0) == q * b / 10.0
  {
  }

  lemma ErrorBound(b: real, f: real, pct: real)
    requires b > 0.0 && -0.05 <= pct - (b - f) / b * 100.0 <= 0.05
    ensures -(b * 0.0005) <= b * (1.0 - pct / 100.0) - f <= b * 0.0005
  {
    var q, u := (b - f) / b, pct / 100.0;
    assert q * b == b - f;
    var e := u - q;
    assert -0.0005 <= e <= 0.0005;
    assert b * q == b - f;
    assert b * (1.0 - u) == b - b * u;
    assert b * u == b * q + b * e;
    assert b * (1.0 - u) - f == -(b * e);
    Scale(b, e, 0.0005);
    Scale(b, -0.0005, e);
  }

  /** No tier of the business covers the quantity. */
  predicate NoTierAt(s: Store, businessId: Id, qty: real) {
    forall key | key in s.rules && key.businessId == businessId :: qty <= 0.0 || FirstMatch(s.rules[key].tiers, qty).None?
  }

  lemma NoTierFound(s: Store, businessId: Id, listingId: Id, qty: real)
    requires listingId in s.listings && NoTierAt(s, businessId, qty)
    ensures TierPct(TierSource(Levels(s, businessId, listingId)), qty) == 0.0
  {
    NoTierInChain(Levels(s, businessId, listingId), qty);
  }

  lemma {:induction false} NoTierInChain(chain: seq<(Option<Rule>, Scope)>, qty: real)
    requires forall i | 0 <= i < |chain| && chain[i].0.Some? :: qty <= 0.0 || FirstMatch(chain[i].0.value.tiers, qty).None?
    ensures TierPct(TierSource(chain), qty) == 0.0
  {
    if chain != [] {
      assert chain[0].0.Some? ==> qty <= 0.0 || FirstMatch(chain[0].0.value.tiers, qty).None?;
      NoTierInChain(chain[1..], qty);
    }
  }

  /** Once entered, an item previews at the percent of its entry. */
  lemma PreviewOfEntered(s: Store, businessId: Id, listingId: Id, k: CustKey, kind: Kind, minor: nat, pct: real, qty: real)
    requires NoTierAt(s, businessId, qty)
    requires listingId in s.listings && s.listings[listingId].businessId == businessId
    requires s.listings[listingId].priceMinor.Some? && s.listings[listingId].priceMinor.value > 0 && IsCustKey(k)
    requires pct == ClampPct(Finite(TriPct(Tri(kind, minor as real / 10.0), BaseToman(s.listings[listingId]))))
    ensures SeenAfter(s, businessId, listingId, k, kind, minor, qty)
            == Ok(Preview(pct, Some(ITEM), 0.0, pct, FinalMinor(s.listings[listingId].priceMinor.value, pct)))
  {
    EnteredPct(s, businessId, listingId, k, kind, minor);
    var s' := Apply(s, Enter(businessId, listingId, k, kind, minor as real / 10.0)).0;
    assert NoTierAt(s', businessId, qty);
    var levels := Levels(s', businessId, listingId);
    NoTierFound(s', businessId, listingId, qty);
    ResolveUnfold(levels, k);
  }

  /** Both ways of entering the same discount come to the same stored percent. */
  lemma EntriesAgree(base: nat, final: nat)
    requires base > 0 && base <= 10 * final && final <= base
    ensures var exact := (base as real - final as real) / base as real * 100.0;
            && 0.0 <= exact <= MAX_PCT
            && TriPct(Tri(FinKind, final as real / 10.0), base as real / 10.0) == exact
            && TriPct(Tri(AmtKind, (base - final) as real / 10.0), base as real / 10.0) == exact
  {
    PctArithmetic(base as real, final as real);
  }

  /** The percent stored for a final price, or for the equivalent amount off. */
  function StoredPct(base: nat, final: nat): real
    requires base > 0
  {
    ClampPct(Finite((base as real - final as real) / base as real * 100.0))
  }

  predicate Within(seen: int, wanted: nat, bound: real) {
    -bound <= seen as real - wanted as real <= bound
  }

  lemma StoredPctHonoured(base: nat, final: nat)
    requires base > 0 && base <= 10 * final && final <= base
    ensures Within(FinalMinor(base, StoredPct(base, final)), final, base as real / 2000.0 + 0.5)
  {
    EntriesAgree(base, final);
    var pct := StoredPct(base, final);
    ErrorBound(base as real, final as real, pct);
    RoundNear(base as real * (1.0 - pct / 100.0));
  }

  /** What the item's customers see after the entry. */
  function SeenAfter(s: Store, businessId: Id, listingId: Id, k: CustKey, kind: Kind, minor: nat, qty: real): Result<Preview, Error> {
    PreviewOf(Apply(s, Enter(businessId, listingId, k, kind, minor as real / 10.0)).0, businessId, listingId, k, qty)
  }

  lemma SeenEither(s: Store, businessId: Id, listingId: Id, k: CustKey, base: nat, final: nat, kind: Kind, qty: real)
    requires NoTierAt(s, businessId, qty)
    requires listingId in s.listings && s.listings[listingId].businessId == businessId
    requires s.listings[listingId].priceMinor == Some(base) && IsCustKey(k)
    requires base > 0 && base <= 10 * final && final <= base && kind != PctKind
    ensures var pct := StoredPct(base, final);
            SeenAfter(s, businessId, listingId, k, kind, if kind == FinKind then final else base - final, qty)
            == Ok(Preview(pct, Some(ITEM), 0.0, pct, FinalMinor(base, pct)))
  {
    var minor := if kind == FinKind then final else base - final;
    var pct := StoredPct(base, final);
    assert pct == ClampPct(Finite(TriPct(Tri(kind, minor as real / 10.0), BaseToman(s.listings[listingId])))) by {
      EntriesAgree(base, final);
    }
    PreviewOfEntered(s, businessId, listingId, k, kind, minor, pct, qty);
  }

  /**
   * A final price between a tenth of the base and the base is honoured to within half of a
   * thousandth of the base plus half a unit, at any quantity without a tier, and the equivalent amount off stores the same percent.
   */
  lemma FinalPriceHonoured(s: Store, businessId: Id, listingId: Id, k: CustKey, base: nat, final: nat, qty: real)
    requires NoTierAt(s, businessId, qty)
    requires listingId in s.listings && s.listings[listingId].businessId == businessId
    requires s.listings[listingId].priceMinor == Some(base) && IsCustKey(k)
    requires base > 0 && base <= 10 * final && final <= base
    ensures var byFinal := SeenAfter(s, businessId, listingId, k, FinKind, final, qty);
            && byFinal.Ok?
            && Within(byFinal.value.finalMinor, final, base as real / 2000.0 + 0.5)
            && SeenAfter(s, businessId, listingId, k, AmtKind, base - final, qty) == byFinal
  {
    SeenEither(s, businessId, listingId, k, base, final, FinKind, qty);
    SeenEither(s, businessId, listingId, k, base, final, AmtKind, qty);
    StoredPctHonoured(base, final);
  }
}
