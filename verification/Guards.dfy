/** The ownership check and the cache of business rows in front of it. */
module Guards {
  import opened Wrappers

  type Id = string

  datatype Category = Category(id: Id, name: string)

  /** A business row; a null category list reads as an empty one. */
  datatype Business = Business(ownerId: Id, city: string, customCategories: seq<Category>)

  datatype User = User(id: Id, admin: bool)

  datatype Denial = NoBusiness | NotOwner

  datatype Entry = Entry(row: Business, expiresAt: int)

  /** An insertion-ordered map: its keys, oldest first, and their entries. */
  datatype Cache = Cache(keys: seq<Id>, rows: map<Id, Entry>)

  const OWNER_CACHE_MS := 60_000
  const OWNER_CACHE_MAX := 5_000

  function Without(keys: seq<Id>, id: Id): seq<Id> {
    if keys == [] then [] else if keys[0] == id then keys[1..] else [keys[0]] + Without(keys[1..], id)
  }

  function Delete(c: Cache, id: Id): Cache { Cache(Without(c.keys, id), c.rows - {id}) }

  function Insert(c: Cache, id: Id, e: Entry): Cache { Cache(if id in c.keys then c.keys else c.keys + [id], c.rows[id := e]) }

  function Invalidate(c: Cache, id: Option<Id>): Cache {
    match id
    case None => Cache([], map[])
    case Some(one) => Delete(c, one)
  }

  function Lookup(c: Cache, id: Id, now: int): (Cache, Option<Business>) {
    if id !in c.rows then (c, None)
    else if c.rows[id].expiresAt < now then (Delete(c, id), None)
    else (c, Some(c.rows[id].row))
  }

  function Remember(c: Cache, id: Id, row: Business, now: int): Cache {
    Insert(if |c.keys| > OWNER_CACHE_MAX then Delete(c, c.keys[0]) else c, id, Entry(row, now + OWNER_CACHE_MS))
  }

  function Judge(row: Business, user: User): Result<Business, Denial> {
    if row.ownerId != user.id && !user.admin then Err(NotOwner) else Ok(row)
  }

  function AssertOwner(c: Cache, businesses: map<Id, Business>, user: User, id: Id, now: int): (Cache, Result<Business, Denial>) {
    var (c', hit) := Lookup(c, id, now);
    if hit.Some? then (c', Judge(hit.value, user))
    else if id !in businesses then (c', Err(NoBusiness))
    else (Remember(c', id, businesses[id], now), Judge(businesses[id], user))
  }

  class BusinessRowCache {
    var keys: seq<Id>
    var rows: map<Id, Entry>

    function State(): Cache
      reads this
    {
      Cache(keys, rows)
    }

    method Remove(id: Id)
      modifies this
      ensures State() == Delete(old(State()), id)
    {
      keys, rows := Without(keys, id), rows - {id};
    }

    method InvalidateBusinessCache(id: Option<Id>)
      modifies this
      ensures State() == Invalidate(old(State()), id)
    {
      if id.None? {
        keys, rows := [], map[];
      } else {
        Remove(id.value);
      }
    }

    method CachedBusinessRow(id: Id, now: int) returns (hit: Option<Business>)
      modifies this
      ensures (State(), hit) == Lookup(old(State()), id, now)
    {
      if id !in rows {
        return None;
      }
      if rows[id].expiresAt < now {
        Remove(id);
        return None;
      }
      hit := Some(rows[id].row);
    }

    method RememberBusinessRow(id: Id, row: Business, now: int)
      modifies this
      ensures State() == Remember(old(State()), id, row, now)
    {
      if |keys| > OWNER_CACHE_MAX {
        Remove(keys[0]);
      }
      if id !in keys {
        keys := keys + [id];
      }
      rows := rows[id := Entry(row, now + OWNER_CACHE_MS)];
    }

    method AssertBusinessOwner(businesses: map<Id, Business>, user: User, id: Id, now: int) returns (res: Result<Business, Denial>)
      modifies this
      ensures (State(), res) == AssertOwner(old(State()), businesses, user, id, now)
    {
      var cached := CachedBusinessRow(id, now);
      if cached.Some? {
        if cached.value.ownerId != user.id && !user.admin {
          return Err(NotOwner);
        }
        return Ok(cached.value);
      }
      if id !in businesses {
        return Err(NoBusiness);
      }
      RememberBusinessRow(id, businesses[id], now);
      if businesses[id].ownerId != user.id && !user.admin {
        return Err(NotOwner);
      }
      res := Ok(businesses[id]);
    }
  }

  // ---- The cache only saves a read ----

  ghost predicate Listed(c: Cache) {
    && Distinct(c.keys)
    && (forall id :: id in c.keys <==> id in c.rows)
  }

  /** Listed once each, and never more than one over the limit. */
  ghost predicate CacheOk(c: Cache) { Listed(c) && |c.keys| <= OWNER_CACHE_MAX + 1 }

  /** What is cached is what is stored. */
  predicate Fresh(c: Cache, businesses: map<Id, Business>) {
    forall id | id in c.rows :: id in businesses && c.rows[id].row == businesses[id]
  }

  predicate Distinct(keys: seq<Id>) {
    forall i, j | 0 <= i < j < |keys| :: keys[i] != keys[j]
  }

  lemma DistinctTail(keys: seq<Id>)
    requires keys != []
    ensures Distinct(keys) <==> keys[0] !in keys[1..] && Distinct(keys[1..])
  {
  }

  lemma {:induction false} WithoutMembers(keys: seq<Id>, id: Id)
    requires Distinct(keys)
    ensures forall x :: x in Without(keys, id) <==> x in keys && x != id
    ensures Distinct(Without(keys, id))
    ensures |Without(keys, id)| == if id in keys then |keys| - 1 else |keys|
  {
    if keys != [] {
      DistinctTail(keys);
      WithoutMembers(keys[1..], id);
      assert keys == [keys[0]] + keys[1..];
      if keys[0] != id {
        var kept := Without(keys, id);
        assert kept[1..] == Without(keys[1..], id);
        DistinctTail(kept);
      }
    }
  }

  lemma DeleteKeepsListed(c: Cache, id: Id)
    requires Listed(c)
    ensures Listed(Delete(c, id)) && |Delete(c, id).keys| == if id in c.rows then |c.keys| - 1 else |c.keys|
  {
    WithoutMembers(c.keys, id);
  }

  lemma RememberKeepsOk(c: Cache, id: Id, row: Business, now: int)
    requires CacheOk(c)
    ensures CacheOk(Remember(c, id, row, now))
  {
    if |c.keys| > OWNER_CACHE_MAX {
      DeleteKeepsListed(c, c.keys[0]);
    }
  }

  lemma InvalidateKeepsOk(c: Cache, id: Option<Id>)
    requires CacheOk(c)
    ensures CacheOk(Invalidate(c, id))
  {
    if id.Some? {
      DeleteKeepsListed(c, id.value);
    }
  }

  lemma AssertOwnerKeepsOk(c: Cache, businesses: map<Id, Business>, user: User, id: Id, now: int)
    requires CacheOk(c)
    ensures CacheOk(AssertOwner(c, businesses, user, id, now).0)
  {
    var (c', hit) := Lookup(c, id, now);
    DeleteKeepsListed(c, id);
    if hit.None? && id in businesses {
      RememberKeepsOk(c', id, businesses[id], now);
    }
  }

  /** The check without a cache. */
  function Owned(businesses: map<Id, Business>, user: User, id: Id): Result<Business, Denial> {
    if id !in businesses then Err(NoBusiness) else Judge(businesses[id], user)
  }

  /** With a fresh cache the answer is the one the table gives, and the cache stays fresh. */
  lemma CacheIsTransparent(c: Cache, businesses: map<Id, Business>, user: User, id: Id, now: int)
    requires Fresh(c, businesses)
    ensures AssertOwner(c, businesses, user, id, now).1 == Owned(businesses, user, id)
    ensures Fresh(AssertOwner(c, businesses, user, id, now).0, businesses)
  {
  }

  // ---- Who gets in ----

  /** Owners and administrators get the row, everyone else is refused. */
  predicate Answers(row: Business, user: User, res: Result<Business, Denial>) {
    if user.admin || user.id == row.ownerId then res == Ok(row) else res == Err(NotOwner)
  }

  /** The row is still served: cached, and its minute is not over. */
  predicate Serves(c: Cache, id: Id, now: int) { id in c.rows && now <= c.rows[id].expiresAt }

  /**
   * Whatever is cached, the check answers about the cached row while it is served, otherwise about the
   * stored one, and a business that is neither is unknown.
   */
  lemma CheckAnswers(c: Cache, businesses: map<Id, Business>, user: User, id: Id, now: int)
    ensures var res := AssertOwner(c, businesses, user, id, now).1;
            if Serves(c, id, now) then Answers(c.rows[id].row, user, res)
            else if id in businesses then Answers(businesses[id], user, res)
            else res == Err(NoBusiness)
  {
  }

  /** With a fresh cache exactly the owner of a stored business and administrators get it, as it is stored. */
  lemma OnlyOwnersGetIn(c: Cache, businesses: map<Id, Business>, user: User, id: Id, now: int)
    requires Fresh(c, businesses)
    ensures var res := AssertOwner(c, businesses, user, id, now).1;
            && (res.Ok? <==> id in businesses && (user.id == businesses[id].ownerId || user.admin))
            && (res.Ok? ==> res.value == businesses[id])
            && (res == Err(NoBusiness) <==> id !in businesses)
            && (res == Err(NotOwner) <==> id in businesses && user.id != businesses[id].ownerId && !user.admin)
  {
    CheckAnswers(c, businesses, user, id, now);
    CacheIsTransparent(c, businesses, user, id, now);
  }

  /**
   * A stored row that was looked up is served for sixty seconds and no longer; a row that is served is
   * not read again, and of the other rows at most the one cached longest makes room.
   */
  lemma CheckCaches(c: Cache, businesses: map<Id, Business>, user: User, id: Id, now: int, later: int)
    requires CacheOk(c)
    ensures var c' := AssertOwner(c, businesses, user, id, now).0;
            && (Serves(c, id, now) ==> c' == c)
            && (!Serves(c, id, now) && id in businesses ==>
                  && id in c'.rows && c'.rows[id].row == businesses[id] && (Serves(c', id, later) <==> later <= now + 60_000)
                  && forall x | x in c.rows && x != id :: x in c'.rows || (|c.keys| == 5_001 && id !in c.rows && x == c.keys[0]))
            && (!Serves(c, id, now) && id !in businesses ==> c'.rows == c.rows - {id})
            && forall x | x in c'.rows && x != id :: x in c.rows && c'.rows[x] == c.rows[x]
  {
    if id in c.rows && c.rows[id].expiresAt < now {
      DeleteKeepsListed(c, id);
      assert |Delete(c, id).keys| <= OWNER_CACHE_MAX;
    }
  }

  /** The key evicted from a full cache is the oldest, and the remembered one becomes the newest. */
  lemma OldestGoes(c: Cache, id: Id, row: Business, now: int)
    requires CacheOk(c) && id !in c.rows
    ensures Remember(c, id, row, now).keys == (if |c.keys| == 5_001 then c.keys[1..] else c.keys) + [id]
  {
  }

  /** Dropping one row drops that row alone; dropping all leaves none. */
  lemma InvalidateDrops(c: Cache, id: Id)
    requires CacheOk(c)
    ensures var c' := Invalidate(c, Some(id));
            && c'.rows == c.rows - {id} && (forall x :: x in c'.keys <==> x in c.keys && x != id)
            && Invalidate(c, None).rows == map[] && Invalidate(c, None).keys == []
  {
    WithoutMembers(c.keys, id);
  }

  /** A business may change once it is no longer cached. */
  lemma ChangeAfterInvalidate(c: Cache, businesses: map<Id, Business>, id: Id, row: Business)
    requires Fresh(c, businesses)
    ensures Fresh(Invalidate(c, Some(id)), businesses[id := row])
  {
  }

  /** Left in the cache, it may not: the next check answers with the row as it was. */
  lemma StaleUnlessInvalidated(c: Cache, businesses: map<Id, Business>, id: Id, row: Business, user: User, now: int)
    requires Fresh(c, businesses) && id in c.rows && now <= c.rows[id].expiresAt
    ensures AssertOwner(c, businesses[id := row], user, id, now).1 == Owned(businesses, user, id)
    ensures Fresh(c, businesses[id := row]) <==> row == businesses[id]
  {
  }
}
