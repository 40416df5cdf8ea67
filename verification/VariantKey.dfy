/** The key that tells a seller's listings of one good apart. */
module VariantKey {
  import opened Wrappers
  import opened Sorting

  /** One entry of the attribute object, whose keys are distinct. */
  datatype Attr = Attr(key: string, value: string)

  const MAX_ATTRS := 12
  const MAX_KEY := 60

  predicate AcceptedAttr(a: Attr) { 0 < |a.key| <= 40 && |a.value| <= 80 }

  function SanitizeAttrs(attrs: Option<seq<Attr>>): Option<seq<Attr>> {
    match attrs
    case None => None
    case Some(all) =>
      var kept := Filter(AcceptedAttr, if |all| > MAX_ATTRS then all[..MAX_ATTRS] else all);
      if kept == [] then None else Some(kept)
  }

  /** The default order of `sort` on strings. */
  predicate StringLe(a: string, b: string) {
    a == [] || (b != [] && (a[0] < b[0] || (a[0] == b[0] && StringLe(a[1..], b[1..]))))
  }

  predicate KeyLe(a: Attr, b: Attr) { StringLe(a.key, b.key) }

  function Pair(a: Attr): string { a.key + "=" + a.value }

  function JoinPairs(attrs: seq<Attr>): string {
    if attrs == [] then "" else if |attrs| == 1 then Pair(attrs[0]) else Pair(attrs[0]) + "|" + JoinPairs(attrs[1..])
  }

  function DeriveVariantKey(attrs: Option<seq<Attr>>): string {
    match attrs
    case None => ""
    case Some(all) => Cut(JoinPairs(StableSort(KeyLe, all)))
  }

  function Cut(s: string): string { if |s| > MAX_KEY then s[..MAX_KEY] else s }

  // ---- What is read of a request ----

  function FirstTwelve(all: seq<Attr>): seq<Attr> { if |all| > 12 then all[..12] else all }

  /** Of the first twelve attributes those with a name of one to forty characters and a value of at most eighty are kept, in order. */
  lemma KeptIs(all: seq<Attr>)
    ensures var kept := SanitizeAttrs(Some(all));
            && (kept == None <==> forall a | a in FirstTwelve(all) :: a.key == "" || |a.key| > 40 || |a.value| > 80)
            && (kept.Some? ==> forall a :: a in kept.value <==> a in FirstTwelve(all) && 1 <= |a.key| <= 40 && |a.value| <= 80)
            && (kept.Some? ==> IsPart(kept.value, FirstTwelve(all)))
    ensures SanitizeAttrs(None) == None
  {
    FilterMembers(AcceptedAttr, FirstTwelve(all));
    FilterIsPart(AcceptedAttr, FirstTwelve(all));
    var kept := Filter(AcceptedAttr, FirstTwelve(all));
    if kept != [] {
      assert kept[0] in kept;
    }
  }

  /** The entries of `a` occur in `b` in the same order. */
  predicate IsPart(a: seq<Attr>, b: seq<Attr>) {
    a == [] || (b != [] && ((a[0] == b[0] && IsPart(a[1..], b[1..])) || IsPart(a, b[1..])))
  }

  lemma {:induction false} FilterIsPart(p: Attr -> bool, b: seq<Attr>)
    ensures IsPart(Filter(p, b), b)
  {
    if b != [] {
      FilterIsPart(p, b[1..]);
    }
  }

  /** Names are ordered by their first different character, a beginning before what continues it. */
  lemma {:induction false} StringLeIs(a: string, b: string)
    ensures StringLe(a, b) <==> a <= b || exists i | 0 <= i < |a| && i < |b| :: a[i] < b[i] && a[..i] == b[..i]
  {
    if a != [] && b != [] {
      var s, t := a[1..], b[1..];
      StringLeIs(s, t);
      assert a == [a[0]] + s && b == [b[0]] + t;
      forall i | 0 <= i < |a| && i < |b| && a[..i] == b[..i] ensures i == 0 || a[0] == b[0] {
        assert i == 0 || (a[..i][0] == a[0] && b[..i][0] == b[0]);
      }
      if a[0] == b[0] {
        if i :| 0 <= i < |s| && i < |t| && s[i] < t[i] && s[..i] == t[..i] {
          assert a[i + 1] < b[i + 1] && a[..i + 1] == [a[0]] + s[..i] && b[..i + 1] == [b[0]] + t[..i];
        }
        if i :| 0 <= i < |a| && i < |b| && a[i] < b[i] && a[..i] == b[..i] {
          assert s[i - 1] < t[i - 1] && s[..i - 1] == a[..i][1..] && t[..i - 1] == b[..i][1..];
        }
      } else {
        assert a[..0] == b[..0];
      }
    }
  }

  /** The uncut key: each name and value with '=', one after the other with '|'. */
  lemma {:induction false} JoinIs(a: seq<Attr>, b: seq<Attr>)
    requires a != [] && b != []
    ensures JoinPairs([a[0]]) == a[0].key + "=" + a[0].value
    ensures JoinPairs(a + b) == JoinPairs(a) + "|" + JoinPairs(b)
  {
    if |a| > 1 {
      JoinIs(a[1..], b);
      assert (a + b)[1..] == a[1..] + b && (a + b)[0] == a[0];
      assert Pair(a[0]) + "|" + (JoinPairs(a[1..]) + "|" + JoinPairs(b)) == Pair(a[0]) + "|" + JoinPairs(a[1..]) + "|" + JoinPairs(b);
    } else {
      assert (a + b)[1..] == b && (a + b)[0] == a[0];
    }
  }

  // ---- One key per combination ----

  lemma {:induction false} StringLeTotal(a: string, b: string)
    ensures StringLe(a, b) || StringLe(b, a)
    ensures StringLe(a, b) && StringLe(b, a) ==> a == b
  {
    if a != [] && b != [] && a[0] == b[0] {
      StringLeTotal(a[1..], b[1..]);
      assert a == [a[0]] + a[1..] && b == [b[0]] + b[1..];
    }
  }

  lemma {:induction false} StringLeTransitive(a: string, b: string, c: string)
    requires StringLe(a, b) && StringLe(b, c)
    ensures StringLe(a, c)
  {
    if a != [] && a[0] == b[0] && b[0] == c[0] {
      StringLeTransitive(a[1..], b[1..], c[1..]);
    }
  }

  lemma KeyLeOrders()
    ensures TotalPreorder(KeyLe)
  {
    forall a, b ensures KeyLe(a, b) || KeyLe(b, a) {
      StringLeTotal(a.key, b.key);
    }
    forall a, b, c | KeyLe(a, b) && KeyLe(b, c) ensures KeyLe(a, c) {
      StringLeTransitive(a.key, b.key, c.key);
    }
  }

  ghost predicate DistinctKeys(attrs: seq<Attr>) {
    forall x, y | x in attrs && y in attrs && x.key == y.key :: x == y
  }

  lemma HeadIsLeast(a: seq<Attr>, x: Attr)
    requires SortedBy(KeyLe, a) && x in a
    ensures KeyLe(a[0], x)
  {
    StringLeTotal(x.key, x.key);
    var k :| 0 <= k < |a| && a[k] == x;
    assert k == 0 || KeyLe(a[0], a[k]);
  }

  lemma SameHead(a: seq<Attr>, b: seq<Attr>)
    requires SortedBy(KeyLe, a) && SortedBy(KeyLe, b) && DistinctKeys(a) && a != [] && b != []
    requires a[0] in b && b[0] in a
    ensures a[0] == b[0]
  {
    HeadIsLeast(a, b[0]);
    HeadIsLeast(b, a[0]);
    StringLeTotal(a[0].key, b[0].key);
  }

  lemma TailPermutes(a: seq<Attr>, b: seq<Attr>)
    requires a != [] && b != [] && a[0] == b[0] && multiset(a) == multiset(b)
    ensures multiset(a[1..]) == multiset(b[1..])
  {
    assert a == [a[0]] + a[1..] && b == [b[0]] + b[1..];
    assert multiset(a[1..]) == multiset(a) - multiset{a[0]};
    assert multiset(b[1..]) == multiset(b) - multiset{b[0]};
  }

  /** Two sorted arrangements of the same entries are the same list. */
  lemma {:induction false} SortedUnique(a: seq<Attr>, b: seq<Attr>)
    requires SortedBy(KeyLe, a) && SortedBy(KeyLe, b) && DistinctKeys(a) && multiset(a) == multiset(b)
    ensures a == b
  {
    assert |a| == |multiset(a)| == |multiset(b)| == |b|;
    if a != [] {
      assert a[0] in multiset(a) && b[0] in multiset(b);
      SameHead(a, b);
      TailPermutes(a, b);
      SortedUnique(a[1..], b[1..]);
      assert a == [a[0]] + a[1..] && b == [b[0]] + b[1..];
    }
  }

  /** The same combination, in whatever order it was typed, has the same key. */
  lemma SameSpecSameKey(a: seq<Attr>, b: seq<Attr>)
    requires DistinctKeys(a) && multiset(a) == multiset(b)
    ensures DeriveVariantKey(Some(a)) == DeriveVariantKey(Some(b))
  {
    KeyLeOrders();
    SortSorts(KeyLe, a);
    SortSorts(KeyLe, b);
    SortPermutes(KeyLe, a);
    SortPermutes(KeyLe, b);
    SortedUnique(StableSort(KeyLe, a), StableSort(KeyLe, b));
  }

  lemma {:induction false} FilterMultiset<T>(p: T -> bool, xs: seq<T>, x: T)
    ensures multiset(Filter(p, xs))[x] == if p(x) then multiset(xs)[x] else 0
  {
    if xs != [] {
      FilterMultiset(p, xs[1..], x);
      assert xs == [xs[0]] + xs[1..];
    }
  }

  /**
   * A request's key depends only on which attributes it lists, as long as it lists no more than
   * twelve: only the first twelve are read, in the order they were typed.
   */
  lemma SameRequestSameKey(a: seq<Attr>, b: seq<Attr>)
    requires DistinctKeys(a) && multiset(a) == multiset(b) && |a| <= MAX_ATTRS
    ensures DeriveVariantKey(SanitizeAttrs(Some(a))) == DeriveVariantKey(SanitizeAttrs(Some(b)))
  {
    assert |a| == |multiset(a)| == |multiset(b)| == |b|;
    var ka, kb := Filter(AcceptedAttr, a), Filter(AcceptedAttr, b);
    forall x ensures multiset(ka)[x] == multiset(kb)[x] {
      FilterMultiset(AcceptedAttr, a, x);
      FilterMultiset(AcceptedAttr, b, x);
    }
    assert multiset(ka) == multiset(kb);
    assert |ka| == |multiset(ka)| == |multiset(kb)| == |kb|;
    FilterMembers(AcceptedAttr, a);
    SameSpecSameKey(ka, kb);
  }

  // ---- When two combinations share a key ----

  predicate Lacks(s: string, c: char) { forall i | 0 <= i < |s| :: s[i] != c }

  /** No name holds '=' or '|', and no value holds '|'. */
  predicate Plain(attrs: seq<Attr>) {
    forall a | a in attrs :: Lacks(a.key, '=') && Lacks(a.key, '|') && Lacks(a.value, '|')
  }

  lemma FirstStop(a: string, c: char, s: string)
    requires Lacks(a, c)
    ensures var x := a + [c] + s; x[|a|] == c && forall k | 0 <= k < |a| :: x[k] != c
  {
  }

  /** What stands before the first `c` can be read off. */
  lemma SplitAtFirst(a: string, b: string, c: char, s: string, t: string)
    requires Lacks(a, c) && Lacks(b, c) && a + [c] + s == b + [c] + t
    ensures a == b && s == t
  {
    var x, y := a + [c] + s, b + [c] + t;
    FirstStop(a, c, s);
    FirstStop(b, c, t);
    assert |a| == |b|;
    assert x[..|a|] == a && y[..|a|] == b;
    assert x[|a| + 1..] == s && y[|a| + 1..] == t;
  }

  lemma PairIsRead(a: Attr, b: Attr)
    requires Lacks(a.key, '=') && Lacks(b.key, '=') && Pair(a) == Pair(b)
    ensures a == b
  {
    SplitAtFirst(a.key, b.key, '=', a.value, b.value);
  }

  lemma PairLacksBar(a: Attr)
    requires Lacks(a.key, '|') && Lacks(a.value, '|')
    ensures Lacks(Pair(a), '|') && Pair(a) != ""
  {
  }

  /** How many attributes there are, up to two, shows in the joined key. */
  lemma JoinShape(a: seq<Attr>)
    requires Plain(a)
    ensures JoinPairs(a) == "" <==> a == []
    ensures Lacks(JoinPairs(a), '|') <==> |a| <= 1
  {
    if a != [] {
      PairLacksBar(a[0]);
      assert |a| > 1 ==> JoinPairs(a)[|Pair(a[0])|] == '|';
    }
  }

  /** Before it is cut, the key of plain attributes tells them all, in order. */
  lemma {:induction false} JoinIsRead(a: seq<Attr>, b: seq<Attr>)
    requires Plain(a) && Plain(b) && JoinPairs(a) == JoinPairs(b)
    ensures a == b
  {
    JoinShape(a);
    JoinShape(b);
    if |a| == 1 {
      PairIsRead(a[0], b[0]);
    } else if |a| > 1 {
      PairLacksBar(a[0]);
      PairLacksBar(b[0]);
      SplitAtFirst(Pair(a[0]), Pair(b[0]), '|', JoinPairs(a[1..]), JoinPairs(b[1..]));
      PairIsRead(a[0], b[0]);
      JoinIsRead(a[1..], b[1..]);
      assert a == [a[0]] + a[1..] && b == [b[0]] + b[1..];
    }
  }

  /** The key before it is cut to sixty characters. */
  function FullKey(attrs: seq<Attr>): string { JoinPairs(StableSort(KeyLe, attrs)) }

  /** Two keys that are both cut at sixty, or one cut to just the other. */
  predicate CutAlike(s: string, t: string) {
    s != t && |s| >= MAX_KEY && |t| >= MAX_KEY && s[..MAX_KEY] == t[..MAX_KEY]
  }

  lemma CutIs(s: string, t: string)
    ensures Cut(s) == Cut(t) <==> s == t || CutAlike(s, t)
  {
    if |s| == MAX_KEY { assert s[..MAX_KEY] == s; }
    if |t| == MAX_KEY { assert t[..MAX_KEY] == t; }
  }

  lemma PlainPermutes(a: seq<Attr>)
    ensures Plain(StableSort(KeyLe, a)) <==> Plain(a)
  {
    SortPermutes(KeyLe, a);
  }

  /**
   * Combinations whose names and values hold no separator share a key exactly when they are the same
   * combination, or their keys differ only behind the sixtieth character.
   */
  lemma SameKeyIff(a: seq<Attr>, b: seq<Attr>)
    requires DistinctKeys(a) && Plain(a) && Plain(b)
    ensures DeriveVariantKey(Some(a)) == DeriveVariantKey(Some(b)) <==> multiset(a) == multiset(b) || CutAlike(FullKey(a), FullKey(b))
  {
    CutIs(FullKey(a), FullKey(b));
    PlainPermutes(a);
    PlainPermutes(b);
    SortPermutes(KeyLe, a);
    SortPermutes(KeyLe, b);
    if FullKey(a) == FullKey(b) {
      JoinIsRead(StableSort(KeyLe, a), StableSort(KeyLe, b));
    }
    if multiset(a) == multiset(b) {
      SameSpecSameKey(a, b);
    }
  }

  /** The attributes a request is left with. */
  function KeptAttrs(attrs: Option<seq<Attr>>): seq<Attr> { SanitizeAttrs(attrs).GetOr([]) }

  lemma KeptKey(attrs: Option<seq<Attr>>)
    ensures DeriveVariantKey(SanitizeAttrs(attrs)) == DeriveVariantKey(Some(KeptAttrs(attrs)))
  {
  }

  /** The same of two requests, sanitised: one may have no attributes at all. */
  lemma SameRequestKeyIff(a: Option<seq<Attr>>, b: Option<seq<Attr>>)
    requires DistinctKeys(KeptAttrs(a)) && Plain(KeptAttrs(a)) && Plain(KeptAttrs(b))
    ensures DeriveVariantKey(SanitizeAttrs(a)) == DeriveVariantKey(SanitizeAttrs(b))
       <==> multiset(KeptAttrs(a)) == multiset(KeptAttrs(b)) || CutAlike(FullKey(KeptAttrs(a)), FullKey(KeptAttrs(b)))
  {
    KeptKey(a);
    KeptKey(b);
    SameKeyIff(KeptAttrs(a), KeptAttrs(b));
  }

  /** One attribute whose value holds a separator, and two attributes: two combinations, one key. */
  lemma BarCollides()
    ensures var one, two := [Attr("a", "1|b=2")], [Attr("a", "1"), Attr("b", "2")];
            multiset(one) != multiset(two) && DeriveVariantKey(Some(one)) == DeriveVariantKey(Some(two)) == "a=1|b=2"
  {
    var one, two := [Attr("a", "1|b=2")], [Attr("a", "1"), Attr("b", "2")];
    assert two[1..] == [two[1]] && one[1..] == [] && two[1..][1..] == [];
    assert StringLe("a", "b");
    assert StableSort(KeyLe, one) == one;
    assert StableSort(KeyLe, two[1..]) == two[1..];
    assert StableSort(KeyLe, two) == Insert(KeyLe, two[0], two[1..]) == two;
    assert Pair(one[0]) == "a=1|b=2";
    assert Pair(two[0]) == "a=1" && Pair(two[1]) == "b=2";
    assert JoinPairs(two) == "a=1" + "|" + "b=2";
    assert |multiset(one)| == 1 && |multiset(two)| == 2;
  }

  /** Two values that differ only behind the sixtieth character of the key. */
  lemma LongCollides(v: string, c: char, d: char)
    requires |v| == 58 && c != d
    ensures var x, y := [Attr("a", v + [c])], [Attr("a", v + [d])];
            multiset(x) != multiset(y) && DeriveVariantKey(Some(x)) == DeriveVariantKey(Some(y)) == "a=" + v
  {
    var x, y := [Attr("a", v + [c])], [Attr("a", v + [d])];
    assert x[1..] == [] && y[1..] == [];
    assert StableSort(KeyLe, x) == x && StableSort(KeyLe, y) == y;
    assert Pair(x[0]) == "a=" + v + [c] && Pair(y[0]) == "a=" + v + [d];
    assert (v + [c])[58] != (v + [d])[58];
    assert x[0] != y[0];
    assert x[0] in multiset(x) && x[0] !in multiset(y);
  }
}
