/** The public category tree: built from flat rows in one pass, then pruned of hidden subtrees. */
module CategoryTree {
  import opened Wrappers
  import opened Sorting

  type Id = string

  datatype Row = Row(id: Id, isActive: bool, parentId: Option<Id>)

  datatype Node = Node(isActive: bool, children: seq<Id>)
  type Nodes = map<Id, Node>

  datatype Tree = Tree(id: Id, children: seq<Tree>)

  // ---- Rows ----

  predicate DistinctIds(rows: seq<Row>) {
    forall i, j | 0 <= i < j < |rows| :: rows[i].id != rows[j].id
  }

  function Ids(rows: seq<Row>): set<Id> { set r | r in rows :: r.id }

  /** The parent a row is put under, if that parent exists. */
  function ParentOf(ids: set<Id>, r: Row): Option<Id> {
    if r.parentId.Some? && r.parentId.value != "" && r.parentId.value in ids then r.parentId else None
  }

  predicate Exists(rows: seq<Row>, id: Id) { exists i | 0 <= i < |rows| :: rows[i].id == id }

  /** The row names the parent, which exists, or it names none that does. */
  predicate Names(rows: seq<Row>, r: Row, parent: Option<Id>) {
    match parent
    case Some(p) => r.parentId == Some(p) && p != "" && Exists(rows, p)
    case None => r.parentId == None || r.parentId == Some("") || !Exists(rows, r.parentId.value)
  }

  predicate Under(rows: seq<Row>, id: Id, parent: Option<Id>) {
    exists r :: r in rows && r.id == id && Names(rows, r, parent)
  }

  predicate Active(rows: seq<Row>, id: Id) {
    exists r :: r in rows && r.id == id && r.isActive
  }

  /** The rows under one parent, or under none, in row order. */
  function KidsOf(part: seq<Row>, ids: set<Id>, parent: Option<Id>): seq<Id> {
    if part == [] then []
    else
      var last := part[|part| - 1];
      KidsOf(part[..|part| - 1], ids, parent) + if ParentOf(ids, last) == parent then [last.id] else []
  }

  function Kids(rows: seq<Row>, parent: Option<Id>): seq<Id> { KidsOf(rows, Ids(rows), parent) }

  // ---- Building ----

  ghost predicate BuiltTo(rows: seq<Row>, byId: Nodes, roots: seq<Id>, k: nat)
    requires k <= |rows|
  {
    && byId.Keys == Ids(rows)
    && (forall i | 0 <= i < |rows| :: byId[rows[i].id].isActive == rows[i].isActive)
    && (forall id | id in byId :: byId[id].children == KidsOf(rows[..k], Ids(rows), Some(id)))
    && roots == KidsOf(rows[..k], Ids(rows), None)
  }

  ghost predicate Built(rows: seq<Row>, byId: Nodes, roots: seq<Id>) { BuiltTo(rows, byId, roots, |rows|) }

  method BuildNodes(rows: seq<Row>) returns (byId: Nodes)
    requires DistinctIds(rows)
    ensures BuiltTo(rows, byId, [], 0)
  {
    byId := map[];
    for k := 0 to |rows|
      invariant byId.Keys == set i | 0 <= i < k :: rows[i].id
      invariant forall i | 0 <= i < k :: byId[rows[i].id] == Node(rows[i].isActive, [])
    {
      byId := byId[rows[k].id := Node(rows[k].isActive, [])];
    }
    assert Ids(rows) == set i | 0 <= i < |rows| :: rows[i].id;
  }

  lemma BuildStep(rows: seq<Row>, byId: Nodes, roots: seq<Id>, k: nat)
    requires DistinctIds(rows) && k < |rows| && BuiltTo(rows, byId, roots, k)
    ensures match ParentOf(Ids(rows), rows[k])
            case None => BuiltTo(rows, byId, roots + [rows[k].id], k + 1)
            case Some(p) =>
              && p in byId
              && BuiltTo(rows, byId[p := byId[p].(children := byId[p].children + [rows[k].id])], roots, k + 1)
  {
    assert rows[..k + 1][..k] == rows[..k] && rows[..k + 1][k] == rows[k];
    forall parent ensures KidsOf(rows[..k + 1], Ids(rows), parent)
                          == KidsOf(rows[..k], Ids(rows), parent) + if ParentOf(Ids(rows), rows[k]) == parent then [rows[k].id] else []
    {
    }
    assert roots + [] == roots;
    assert forall id | id in byId :: byId[id].children + [] == byId[id].children;
  }

  method BuildTree(rows: seq<Row>) returns (byId: Nodes, roots: seq<Id>)
    requires DistinctIds(rows)
    ensures Built(rows, byId, roots)
  {
    byId := BuildNodes(rows);
    roots := [];
    for k := 0 to |rows|
      invariant BuiltTo(rows, byId, roots, k)
    {
      var r := rows[k];
      BuildStep(rows, byId, roots, k);
      if r.parentId.Some? && r.parentId.value != "" && r.parentId.value in byId {
        var parent := byId[r.parentId.value];
        byId := byId[r.parentId.value := parent.(children := parent.children + [r.id])];
      } else {
        roots := roots + [r.id];
      }
    }
  }

  // ---- Chains from a root ----

  /** What stands above place `i` of a chain. */
  function Above(c: seq<Id>, i: nat): Option<Id>
    requires i <= |c|
  {
    if i == 0 then None else Some(c[i - 1])
  }

  predicate Linked(rows: seq<Row>, c: seq<Id>, i: nat)
    requires i < |c|
  {
    Under(rows, c[i], Above(c, i))
  }

  /** A root and its descendants down to one category, each under the one before it. */
  ghost predicate Chain(rows: seq<Row>, c: seq<Id>) {
    forall i | 0 <= i < |c| :: Linked(rows, c, i)
  }

  lemma OneParent(rows: seq<Row>, id: Id, p: Option<Id>, q: Option<Id>)
    requires DistinctIds(rows) && Under(rows, id, p) && Under(rows, id, q)
    ensures p == q
  {
  }

  /** Going up from two places that hold the same category meets the same categories. */
  lemma {:induction false} ChainsAgree(rows: seq<Row>, c: seq<Id>, d: seq<Id>, i: nat, j: nat)
    requires DistinctIds(rows) && Chain(rows, c) && Chain(rows, d) && i < |c| && j < |d| && c[i] == d[j]
    ensures i == j && c[..i + 1] == d[..j + 1]
  {
    assert Linked(rows, c, i) && Linked(rows, d, j);
    OneParent(rows, c[i], Above(c, i), Above(d, j));
    if i > 0 {
      ChainsAgree(rows, c, d, i - 1, j - 1);
      assert c[..i + 1] == c[..i] + [c[i]] && d[..j + 1] == d[..j] + [d[j]];
    }
  }

  /** So no category repeats, and a chain is no longer than the list, even if the list has cycles. */
  lemma ChainBounded(rows: seq<Row>, c: seq<Id>)
    requires DistinctIds(rows) && Chain(rows, c)
    ensures |c| <= |rows|
  {
    forall i, j | 0 <= i < j < |c| ensures c[i] != c[j] {
      if c[i] == c[j] {
        ChainsAgree(rows, c, c, i, j);
        assert false;
      }
    }
    DistinctSize(c);
    RowsSize(rows);
    var members := set x | x in c;
    forall x | x in members ensures x in Ids(rows) {
      var i :| 0 <= i < |c| && c[i] == x;
      assert Linked(rows, c, i);
    }
    SubsetSize(members, Ids(rows));
  }

  lemma {:induction false} SubsetSize(a: set<Id>, b: set<Id>)
    requires a <= b
    ensures |a| <= |b|
  {
    if a != {} {
      var x :| x in a;
      SubsetSize(a - {x}, b - {x});
    }
  }

  lemma {:induction false} DistinctSize(c: seq<Id>)
    requires forall i, j | 0 <= i < j < |c| :: c[i] != c[j]
    ensures |set x | x in c| == |c|
  {
    if c != [] {
      var init, last := c[..|c| - 1], c[|c| - 1];
      DistinctSize(init);
      assert c == init + [last];
      assert (set x | x in c) == (set x | x in init) + {last};
    }
  }

  lemma {:induction false} RowsSize(rows: seq<Row>)
    ensures |Ids(rows)| <= |rows|
  {
    if rows != [] {
      var init, last := rows[..|rows| - 1], rows[|rows| - 1];
      RowsSize(init);
      assert rows == init + [last];
      assert Ids(rows) == Ids(init) + {last.id};
    }
  }

  // ---- Pruning ----

  ghost predicate Extends(rows: seq<Row>, path: seq<Id>, kids: seq<Id>) {
    forall id | id in kids :: Chain(rows, path + [id])
  }

  lemma {:induction false} KidsAre(part: seq<Row>, ids: set<Id>, parent: Option<Id>, id: Id)
    ensures id in KidsOf(part, ids, parent) <==> exists r :: r in part && r.id == id && ParentOf(ids, r) == parent
  {
    if part != [] {
      var init, last := part[..|part| - 1], part[|part| - 1];
      KidsAre(init, ids, parent, id);
      assert part == init + [last];
    }
  }

  lemma KidsExtend(rows: seq<Row>, path: seq<Id>)
    requires Chain(rows, path)
    ensures Extends(rows, path, Kids(rows, Above(path, |path|)))
  {
    var parent := Above(path, |path|);
    forall id | id in Kids(rows, parent) ensures Chain(rows, path + [id]) {
      KidsAre(rows, Ids(rows), parent, id);
      forall i | 0 <= i <= |path| ensures Linked(rows, path + [id], i) {
        assert Above(path + [id], i) == Above(path, i);
        if i < |path| {
          assert Linked(rows, path, i);
        }
      }
    }
  }

  lemma ChildrenExtend(rows: seq<Row>, byId: Nodes, roots: seq<Id>, path: seq<Id>)
    requires Built(rows, byId, roots) && Chain(rows, path) && path != [] && path[|path| - 1] in byId
    ensures byId[path[|path| - 1]].children == Kids(rows, Some(path[|path| - 1]))
    ensures Extends(rows, path, byId[path[|path| - 1]].children)
  {
    assert rows[..|rows|] == rows;
    KidsExtend(rows, path);
  }

  /** `keep`: nothing of a hidden node, otherwise the node with what is kept of its children. */
  function Keep(ghost rows: seq<Row>, byId: Nodes, ghost roots: seq<Id>, ghost path: seq<Id>, id: Id): Option<Tree>
    requires DistinctIds(rows) && Built(rows, byId, roots) && Chain(rows, path + [id]) && id in byId
    decreases |rows| - |path|, 0, 0
  {
    ChainBounded(rows, path + [id]);
    ChildrenExtend(rows, byId, roots, path + [id]);
    if byId[id].isActive then Some(Tree(id, KeepAll(rows, byId, roots, path + [id], byId[id].children))) else None
  }

  /** `map(keep).filter(Boolean)`. */
  function KeepAll(ghost rows: seq<Row>, byId: Nodes, ghost roots: seq<Id>, ghost path: seq<Id>, kids: seq<Id>): seq<Tree>
    requires DistinctIds(rows) && Built(rows, byId, roots) && Extends(rows, path, kids) && |path| <= |rows|
    decreases |rows| - |path|, 1, |kids|
  {
    if kids == [] then []
    else
      assert kids[0] in kids;
      ChainEndExists(rows, path, kids[0]);
      var first := Keep(rows, byId, roots, path, kids[0]);
      (if first.Some? then [first.value] else []) + KeepAll(rows, byId, roots, path, kids[1..])
  }

  lemma ChainEndExists(rows: seq<Row>, path: seq<Id>, id: Id)
    requires Chain(rows, path + [id])
    ensures id in Ids(rows)
  {
    assert Linked(rows, path + [id], |path|);
  }

  lemma RootsExtend(rows: seq<Row>, byId: Nodes, roots: seq<Id>)
    requires Built(rows, byId, roots)
    ensures roots == Kids(rows, None) && Extends(rows, [], roots)
  {
    assert rows[..|rows|] == rows;
    KidsExtend(rows, []);
  }

  function PruneHidden(ghost rows: seq<Row>, byId: Nodes, roots: seq<Id>): seq<Tree>
    requires DistinctIds(rows) && Built(rows, byId, roots)
  {
    RootsExtend(rows, byId, roots);
    KeepAll(rows, byId, roots, [], roots)
  }

  // ---- What the tree holds ----

  function Count(t: Tree, id: Id): nat
    decreases t, 0
  {
    (if t.id == id then 1 else 0) + CountAll(t.children, id)
  }

  function CountAll(ts: seq<Tree>, id: Id): nat
    decreases ts
  {
    if ts == [] then 0 else Count(ts[0], id) + CountAll(ts[1..], id)
  }

  lemma CountConcat(t: Tree, ts: seq<Tree>, id: Id)
    ensures CountAll([t] + ts, id) == Count(t, id) + CountAll(ts, id)
  {
  }

  ghost predicate AllActive(rows: seq<Row>, c: seq<Id>) {
    forall i | 0 <= i < |c| :: Active(rows, c[i])
  }

  /** The category and all its ancestors, up to a root, are active. */
  ghost predicate Visible(rows: seq<Row>, id: Id) {
    exists c :: c != [] && Chain(rows, c) && c[|c| - 1] == id && AllActive(rows, c)
  }

  lemma ActiveIs(rows: seq<Row>, byId: Nodes, roots: seq<Id>, id: Id)
    requires DistinctIds(rows) && Built(rows, byId, roots) && id in byId
    ensures byId[id].isActive <==> Active(rows, id)
  {
  }

  lemma {:induction false} KidsDistinct(part: seq<Row>, ids: set<Id>, parent: Option<Id>)
    requires DistinctIds(part)
    ensures forall i, j | 0 <= i < j < |KidsOf(part, ids, parent)| :: KidsOf(part, ids, parent)[i] != KidsOf(part, ids, parent)[j]
  {
    if part != [] {
      var init, last := part[..|part| - 1], part[|part| - 1];
      KidsDistinct(init, ids, parent);
      var kids := KidsOf(init, ids, parent);
      forall i | 0 <= i < |kids| ensures kids[i] != last.id {
        assert kids[i] in kids;
        KidsAre(init, ids, parent, kids[i]);
      }
    }
  }

  /** How often the end of `c` occurs in what is kept under `path`, for one of its `kids`. */
  ghost predicate PassesKid(rows: seq<Row>, path: seq<Id>, kids: seq<Id>, c: seq<Id>) {
    |path| < |c| && path == c[..|path|] && c[|path|] in kids && AllActive(rows, c[|path|..])
  }

  lemma CountKeep(rows: seq<Row>, byId: Nodes, roots: seq<Id>, path: seq<Id>, id: Id, c: seq<Id>)
    requires DistinctIds(rows) && Built(rows, byId, roots) && Chain(rows, path + [id]) && id in byId
    requires c != [] && Chain(rows, c)
    ensures var kept := Keep(rows, byId, roots, path, id);
            (if kept.Some? then Count(kept.value, c[|c| - 1]) else 0) == if PassesKid(rows, path, [id], c) then 1 else 0
    decreases |rows| - |path|, 0, 0
  {
    var here, x := path + [id], c[|c| - 1];
    ChainBounded(rows, here);
    ActiveIs(rows, byId, roots, id);
    ChildrenExtend(rows, byId, roots, here);
    if byId[id].isActive {
      KidsDistinct(rows, Ids(rows), Some(id));
      CountKeepAll(rows, byId, roots, here, byId[id].children, c);
      if x == id {
        PassesHere(rows, path, id, c);
      } else {
        PassesDown(rows, path, id, c);
      }
    }
  }

  lemma PassesHere(rows: seq<Row>, path: seq<Id>, id: Id, c: seq<Id>)
    requires DistinctIds(rows) && Chain(rows, path + [id]) && Chain(rows, c) && c != [] && c[|c| - 1] == id && Active(rows, id)
    ensures PassesKid(rows, path, [id], c) && !PassesKid(rows, path + [id], Kids(rows, Some(id)), c)
  {
    ChainsAgree(rows, path + [id], c, |path|, |c| - 1);
    assert path + [id] == (path + [id])[..|path| + 1] == c[..|c|] == c;
    assert c[|path|..] == [id];
  }

  /** A longer chain through an active node goes on through one of its children. */
  lemma PassesDown(rows: seq<Row>, path: seq<Id>, id: Id, c: seq<Id>)
    requires Chain(rows, c) && c != [] && c[|c| - 1] != id && Active(rows, id)
    ensures PassesKid(rows, path, [id], c) <==> PassesKid(rows, path + [id], Kids(rows, Some(id)), c)
  {
    var here := path + [id];
    PrefixGrows(path, id, c);
    if |here| < |c| && here == c[..|here|] {
      assert Linked(rows, c, |here|);
      KidsAre(rows, Ids(rows), Some(id), c[|here|]);
      assert c[|path|..] == [id] + c[|here|..];
      ActiveHead(rows, id, c[|here|..]);
    }
  }

  lemma PrefixGrows(path: seq<Id>, id: Id, c: seq<Id>)
    ensures (|path| < |c| && path == c[..|path|] && c[|path|] == id) <==> (|path| < |c| && path + [id] == c[..|path| + 1])
  {
  }

  lemma ActiveHead(rows: seq<Row>, id: Id, rest: seq<Id>)
    ensures AllActive(rows, [id] + rest) <==> Active(rows, id) && AllActive(rows, rest)
  {
    var c := [id] + rest;
    assert c[0] == id && forall i | 0 <= i < |rest| :: c[i + 1] == rest[i];
  }

  lemma CountKeepAll(rows: seq<Row>, byId: Nodes, roots: seq<Id>, path: seq<Id>, kids: seq<Id>, c: seq<Id>)
    requires DistinctIds(rows) && Built(rows, byId, roots) && Extends(rows, path, kids) && |path| <= |rows|
    requires c != [] && Chain(rows, c) && forall i, j | 0 <= i < j < |kids| :: kids[i] != kids[j]
    ensures CountAll(KeepAll(rows, byId, roots, path, kids), c[|c| - 1]) == if PassesKid(rows, path, kids, c) then 1 else 0
    decreases |rows| - |path|, 1, |kids|
  {
    if kids != [] {
      assert kids[0] in kids;
      ChainEndExists(rows, path, kids[0]);
      CountKeep(rows, byId, roots, path, kids[0], c);
      CountKeepAll(rows, byId, roots, path, kids[1..], c);
      assert kids == [kids[0]] + kids[1..];
      var first, rest := Keep(rows, byId, roots, path, kids[0]), KeepAll(rows, byId, roots, path, kids[1..]);
      if first.Some? {
        CountConcat(first.value, rest, c[|c| - 1]);
      } else {
        assert [] + rest == rest;
      }
      assert kids[0] !in kids[1..];
    }
  }

  ghost predicate EndsChain(rows: seq<Row>, id: Id) {
    exists c :: Chain(rows, c) && c != [] && c[|c| - 1] == id
  }

  lemma NothingUnchained(rows: seq<Row>, byId: Nodes, roots: seq<Id>, path: seq<Id>, id: Id, x: Id)
    requires DistinctIds(rows) && Built(rows, byId, roots) && Chain(rows, path + [id]) && id in byId && !EndsChain(rows, x)
    ensures var kept := Keep(rows, byId, roots, path, id); kept.Some? ==> Count(kept.value, x) == 0
    decreases |rows| - |path|, 0, 0
  {
    var here := path + [id];
    assert EndsChain(rows, id) by {
      assert here[|here| - 1] == id;
    }
    ChainBounded(rows, here);
    ChildrenExtend(rows, byId, roots, here);
    if byId[id].isActive {
      NothingUnchainedAll(rows, byId, roots, here, byId[id].children, x);
      var children := KeepAll(rows, byId, roots, here, byId[id].children);
      assert Keep(rows, byId, roots, path, id) == Some(Tree(id, children));
      assert Count(Tree(id, children), x) == CountAll(children, x);
    }
  }

  lemma NothingUnchainedAll(rows: seq<Row>, byId: Nodes, roots: seq<Id>, path: seq<Id>, kids: seq<Id>, x: Id)
    requires DistinctIds(rows) && Built(rows, byId, roots) && Extends(rows, path, kids) && |path| <= |rows| && !EndsChain(rows, x)
    ensures CountAll(KeepAll(rows, byId, roots, path, kids), x) == 0
    decreases |rows| - |path|, 1, |kids|
  {
    if kids != [] {
      assert kids[0] in kids;
      ChainEndExists(rows, path, kids[0]);
      NothingUnchained(rows, byId, roots, path, kids[0], x);
      NothingUnchainedAll(rows, byId, roots, path, kids[1..], x);
      var first, rest := Keep(rows, byId, roots, path, kids[0]), KeepAll(rows, byId, roots, path, kids[1..]);
      if first.Some? {
        CountConcat(first.value, rest, x);
      } else {
        assert [] + rest == rest;
      }
    }
  }

  lemma VisibleByChain(rows: seq<Row>, c: seq<Id>)
    requires DistinctIds(rows) && Chain(rows, c) && c != []
    ensures Visible(rows, c[|c| - 1]) <==> AllActive(rows, c)
  {
    if Visible(rows, c[|c| - 1]) {
      var d :| d != [] && Chain(rows, d) && d[|d| - 1] == c[|c| - 1] && AllActive(rows, d);
      ChainsAgree(rows, c, d, |c| - 1, |d| - 1);
      assert c == c[..|c|] == d[..|d|] == d;
    }
  }

  /**
   * For any list, cyclic or not: a category is shown exactly once if it and all its ancestors up to
   * a root are active, and otherwise not at all.
   */
  lemma ShownOnceIffVisible(rows: seq<Row>, byId: Nodes, roots: seq<Id>, id: Id)
    requires DistinctIds(rows) && Built(rows, byId, roots)
    ensures CountAll(PruneHidden(rows, byId, roots), id) == if Visible(rows, id) then 1 else 0
  {
    RootsExtend(rows, byId, roots);
    if EndsChain(rows, id) {
      var c :| Chain(rows, c) && c != [] && c[|c| - 1] == id;
      KidsDistinct(rows, Ids(rows), None);
      CountKeepAll(rows, byId, roots, [], roots, c);
      VisibleByChain(rows, c);
      assert Linked(rows, c, 0);
      KidsAre(rows, Ids(rows), None, c[0]);
      assert c[0..] == c && c[..0] == [];
    } else {
      NothingUnchainedAll(rows, byId, roots, [], roots, id);
    }
  }

  function TreeIds(ts: seq<Tree>): seq<Id> { seq(|ts|, i requires 0 <= i < |ts| => ts[i].id) }

  function ActiveOf(rows: seq<Row>, ids: seq<Id>): seq<Id> { Filter(id => Active(rows, id), ids) }

  /** Every node has its own active children, in row order. */
  ghost predicate Placed(rows: seq<Row>, t: Tree)
    decreases t
  {
    && TreeIds(t.children) == ActiveOf(rows, Kids(rows, Some(t.id)))
    && forall i | 0 <= i < |t.children| :: Placed(rows, t.children[i])
  }

  ghost predicate AllPlaced(rows: seq<Row>, ts: seq<Tree>) {
    forall i | 0 <= i < |ts| :: Placed(rows, ts[i])
  }

  lemma KeepPlaced(rows: seq<Row>, byId: Nodes, roots: seq<Id>, path: seq<Id>, id: Id)
    requires DistinctIds(rows) && Built(rows, byId, roots) && Chain(rows, path + [id]) && id in byId
    ensures var kept := Keep(rows, byId, roots, path, id);
            if Active(rows, id) then kept.Some? && kept.value.id == id && Placed(rows, kept.value) else kept == None
    decreases |rows| - |path|, 0, 0
  {
    ChainBounded(rows, path + [id]);
    ActiveIs(rows, byId, roots, id);
    ChildrenExtend(rows, byId, roots, path + [id]);
    KeepAllPlaced(rows, byId, roots, path + [id], byId[id].children);
  }

  lemma PlacedCons(rows: seq<Row>, first: Option<Tree>, rest: seq<Tree>, kids: seq<Id>)
    requires kids != [] && TreeIds(rest) == ActiveOf(rows, kids[1..]) && AllPlaced(rows, rest)
    requires if Active(rows, kids[0]) then first.Some? && first.value.id == kids[0] && Placed(rows, first.value) else first == None
    ensures var kept := (if first.Some? then [first.value] else []) + rest;
            TreeIds(kept) == ActiveOf(rows, kids) && AllPlaced(rows, kept)
  {
    var kept := (if first.Some? then [first.value] else []) + rest;
    assert TreeIds(kept) == (if first.Some? then [first.value.id] else []) + TreeIds(rest);
  }

  lemma KeepAllPlaced(rows: seq<Row>, byId: Nodes, roots: seq<Id>, path: seq<Id>, kids: seq<Id>)
    requires DistinctIds(rows) && Built(rows, byId, roots) && Extends(rows, path, kids) && |path| <= |rows|
    ensures var kept := KeepAll(rows, byId, roots, path, kids);
            TreeIds(kept) == ActiveOf(rows, kids) && AllPlaced(rows, kept)
    decreases |rows| - |path|, 1, |kids|
  {
    if kids != [] {
      assert kids[0] in kids;
      ChainEndExists(rows, path, kids[0]);
      KeepPlaced(rows, byId, roots, path, kids[0]);
      KeepAllPlaced(rows, byId, roots, path, kids[1..]);
      PlacedCons(rows, Keep(rows, byId, roots, path, kids[0]), KeepAll(rows, byId, roots, path, kids[1..]), kids);
    }
  }

  method GetCategories(rows: seq<Row>) returns (forest: seq<Tree>)
    requires DistinctIds(rows)
    ensures forall id :: CountAll(forest, id) == if Visible(rows, id) then 1 else 0
    ensures TreeIds(forest) == ActiveOf(rows, Kids(rows, None)) && AllPlaced(rows, forest)
  {
    var byId, roots := BuildTree(rows);
    forest := PruneHidden(rows, byId, roots);
    forall id ensures CountAll(forest, id) == if Visible(rows, id) then 1 else 0 {
      ShownOnceIffVisible(rows, byId, roots, id);
    }
    RootsExtend(rows, byId, roots);
    KeepAllPlaced(rows, byId, roots, [], roots);
  }

  /** Without cycles every category has ancestors up to a root. */
  lemma {:induction false} AcyclicEndsChain(rows: seq<Row>, rank: map<Id, nat>, r: Row)
    requires r in rows && forall x | x in rows :: x.id in rank
    requires forall x | x in rows && ParentOf(Ids(rows), x).Some? ::
               ParentOf(Ids(rows), x).value in rank && rank[ParentOf(Ids(rows), x).value] < rank[x.id]
    ensures EndsChain(rows, r.id)
    decreases rank[r.id]
  {
    var above: seq<Id> := [];
    if ParentOf(Ids(rows), r).Some? {
      var p :| p in rows && p.id == ParentOf(Ids(rows), r).value;
      AcyclicEndsChain(rows, rank, p);
      above :| Chain(rows, above) && above != [] && above[|above| - 1] == p.id;
    }
    var c := above + [r.id];
    forall i | 0 <= i < |c| ensures Linked(rows, c, i) {
      assert Above(c, i) == Above(above, i);
      if i < |above| {
        assert Linked(rows, above, i);
      }
    }
    assert c[|c| - 1] == r.id;
  }
}
