/** JavaScript's insertion-ordered Map as a list of entries with distinct keys, and the
    bounded "delete, set, drop the oldest" update built on it (apps/desktop/src/state.ts). */
module OrderedMaps {
  import opened Wrappers

  type Entries<K, V> = seq<(K, V)>

  const MAX_CACHED_IDEMPOTENCY_ATTEMPTS := 256

  function Keys<K(==), V>(m: Entries<K, V>): set<K> {
    if m == [] then {} else {m[0].0} + Keys(m[1..])
  }

  predicate Unique<K(==), V>(m: Entries<K, V>) {
    m == [] || (m[0].0 !in Keys(m[1..]) && Unique(m[1..]))
  }

  function Get<K(==), V>(m: Entries<K, V>, k: K): (v: Option<V>)
    ensures v.Some? <==> k in Keys(m)
    ensures v.Some? ==> (k, v.value) in m
  {
    if m == [] then None
    else if m[0].0 == k then Some(m[0].1)
    else Get(m[1..], k)
  }

  function Delete<K(==), V>(m: Entries<K, V>, k: K): (r: Entries<K, V>)
    ensures Keys(r) == Keys(m) - {k}
    ensures Unique(m) ==> Unique(r)
    ensures |r| <= |m|
    ensures k !in Keys(m) ==> r == m
  {
    if m == [] then []
    else if m[0].0 == k then Delete(m[1..], k)
    else
      var r := Delete(m[1..], k);
      assert ([m[0]] + r)[1..] == r;
      [m[0]] + r
  }

  /** Map.set: a known key keeps its position, a new one goes to the end. */
  function Put<K(==), V>(m: Entries<K, V>, k: K, v: V): (r: Entries<K, V>)
    ensures Keys(r) == Keys(m) + {k}
    ensures Unique(m) ==> Unique(r)
    ensures |r| == if k in Keys(m) then |m| else |m| + 1
    ensures k !in Keys(m) ==> r == m + [(k, v)]
  {
    if m == [] then [(k, v)]
    else if m[0].0 == k then
      assert ([(k, v)] + m[1..])[1..] == m[1..];
      [(k, v)] + m[1..]
    else
      var r := Put(m[1..], k, v);
      assert ([m[0]] + r)[1..] == r;
      [m[0]] + r
  }

  lemma {:induction false} GetPut<K, V>(m: Entries<K, V>, k: K, v: V, j: K)
    ensures Get(Put(m, k, v), j) == if j == k then Some(v) else Get(m, j)
  {
    if m != [] {
      var r := Put(m, k, v);
      if m[0].0 == k {
        assert r[1..] == m[1..];
      } else {
        assert r[1..] == Put(m[1..], k, v);
        GetPut(m[1..], k, v, j);
      }
    }
  }

  /** The keys in the order of their first insertion. */
  function KeyOrder<K, V>(m: Entries<K, V>): seq<K> {
    seq(|m|, i requires 0 <= i < |m| => m[i].0)
  }

  /** A value put under a key that is there takes its place; a new key comes last. */
  lemma {:induction false} PutKeepsOrder<K, V>(m: Entries<K, V>, k: K, v: V)
    ensures KeyOrder(Put(m, k, v)) == if k in KeyOrder(m) then KeyOrder(m) else KeyOrder(m) + [k]
  {
    if m != [] {
      assert KeyOrder(m) == [m[0].0] + KeyOrder(m[1..]);
      if m[0].0 != k {
        PutKeepsOrder(m[1..], k, v);
        assert KeyOrder(Put(m, k, v)) == [m[0].0] + KeyOrder(Put(m[1..], k, v));
      } else {
        assert KeyOrder(Put(m, k, v)) == KeyOrder(m);
      }
    }
  }

  lemma {:induction false} Append<K, V>(a: Entries<K, V>, b: Entries<K, V>)
    ensures Keys(a + b) == Keys(a) + Keys(b)
    ensures Unique(a + b) <==> Unique(a) && Unique(b) && Keys(a) !! Keys(b)
  {
    if a == [] {
      assert a + b == b;
    } else {
      assert (a + b)[1..] == a[1..] + b;
      Append(a[1..], b);
    }
  }

  lemma {:induction false} DeleteAppend<K, V>(a: Entries<K, V>, b: Entries<K, V>, k: K)
    ensures Delete(a + b, k) == Delete(a, k) + Delete(b, k)
  {
    if a == [] {
      assert a + b == b;
    } else {
      assert (a + b)[1..] == a[1..] + b;
      DeleteAppend(a[1..], b, k);
    }
  }

  lemma {:induction false} DeleteOnce<K, V>(m: Entries<K, V>, k: K)
    requires Unique(m) && k in Keys(m)
    ensures |Delete(m, k)| == |m| - 1
  {
    if m[0].0 != k {
      DeleteOnce(m[1..], k);
    }
  }

  // ----- recency -----

  /** The last `limit` elements. */
  function Newest<T>(s: seq<T>, limit: nat): seq<T> {
    if |s| <= limit then s else s[|s| - limit..]
  }

  lemma NewestOfSuffix<T>(a: seq<T>, b: seq<T>, limit: nat)
    requires |b| >= limit
    ensures Newest(a + b, limit) == Newest(b, limit)
  {
    assert (a + b)[|a| + |b| - limit..] == b[|b| - limit..];
  }

  /** Each key at its last binding, in the order of those last bindings. */
  function Latest<K(==), V>(history: Entries<K, V>): (m: Entries<K, V>)
    ensures Keys(m) == Keys(history) && Unique(m)
  {
    if history == [] then []
    else if history[0].0 in Keys(history[1..]) then Latest(history[1..])
    else
      var m := Latest(history[1..]);
      assert ([history[0]] + m)[1..] == m;
      [history[0]] + m
  }

  lemma {:induction false} LatestBind<K, V>(history: Entries<K, V>, k: K, v: V)
    ensures Latest(history + [(k, v)]) == Delete(Latest(history), k) + [(k, v)]
  {
    var h := history + [(k, v)];
    if history == [] {
      assert h[1..] == [];
    } else {
      var later := history[1..];
      assert h[1..] == later + [(k, v)];
      assert Keys([(k, v)]) == {k} + Keys([(k, v)][1..]) == {k};
      Append(later, [(k, v)]);
      LatestBind(later, k, v);
      if history[0].0 != k && history[0].0 !in Keys(later) {
        assert Latest(history)[1..] == Latest(later);
        assert Latest(h) == [history[0]] + (Delete(Latest(later), k) + [(k, v)]);
      } else if history[0].0 == k {
        assert k in Keys(h[1..]);
        if k !in Keys(later) {
          assert Latest(history)[1..] == Latest(later);
        }
      }
    }
  }

  /** Forgetting everything but the newest entries between two bindings forgets nothing
      that the newest entries after the second one would show. */
  lemma NewestBind<K, V>(m: Entries<K, V>, k: K, v: V, limit: nat)
    requires Unique(m)
    ensures Newest(Delete(Newest(m, limit), k) + [(k, v)], limit) == Newest(Delete(m, k) + [(k, v)], limit)
  {
    if |m| > limit {
      var older, kept := m[..|m| - limit], m[|m| - limit..];
      assert m == older + kept;
      Append(older, kept);
      NewestBindParts(older, kept, k, (k, v), limit);
    }
  }

  lemma NewestBindParts<K, V>(older: Entries<K, V>, kept: Entries<K, V>, k: K, e: (K, V), limit: nat)
    requires Unique(kept) && |kept| == limit
    ensures Newest(Delete(kept, k) + [e], limit) == Newest(Delete(older + kept, k) + [e], limit)
  {
    DeleteAppend(older, kept, k);
    if k in Keys(kept) {
      DeleteOnce(kept, k);
    }
    var a, b := Delete(older, k), Delete(kept, k);
    assert a + b + [e] == a + (b + [e]);
    NewestOfSuffix(a, b + [e], limit);
  }

  /** Bind k to v as the newest entry and keep at most maxEntries of them. */
  method WithBoundedEntry<K(==), V>(entries: Entries<K, V>, k: K, v: V,
                                    maxEntries: int := MAX_CACHED_IDEMPOTENCY_ATTEMPTS)
    returns (next: Entries<K, V>)
    requires Unique(entries)
    ensures Unique(next) && next == Newest(Delete(entries, k) + [(k, v)], Max(0, maxEntries))
  {
    next := Put(Delete(entries, k), k, v);
    var limit := Max(0, maxEntries);
    ghost var all, k := next, 0;
    while |next| > limit
      invariant k <= |all| && next == all[k..] && Unique(next) && (|next| >= limit || k == 0)
    {
      DropOldest(next);
      next, k := Delete(next, next[0].0), k + 1;
    }
  }

  lemma DropOldest<K, V>(m: Entries<K, V>)
    requires Unique(m) && m != []
    ensures Delete(m, m[0].0) == m[1..] && Unique(m[1..])
  {
  }

  /** Binding a whole history through the bounded map, one entry at a time. */
  function BoundAll<K(==), V>(history: Entries<K, V>, limit: nat): Entries<K, V> {
    if history == [] then []
    else
      var last := history[|history| - 1];
      Newest(Delete(BoundAll(history[..|history| - 1], limit), last.0) + [last], limit)
  }

  /** A bounded map is a least-recently-bound cache: after any history it holds the last
      `limit` distinct keys, at their last values, oldest binding first. */
  lemma {:induction false} BoundedMapIsRecency<K, V>(history: Entries<K, V>, limit: nat)
    ensures BoundAll(history, limit) == Newest(Latest(history), limit)
  {
    if history != [] {
      var h, last := history[..|history| - 1], history[|history| - 1];
      assert history == h + [(last.0, last.1)];
      BoundedMapIsRecency(h, limit);
      LatestBind(h, last.0, last.1);
      NewestBind(Latest(h), last.0, last.1, limit);
    }
  }
}
