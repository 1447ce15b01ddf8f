/**
  Runs of the service end to end: a counter seeded and then reconciled, a
  pass over two counters, a counter left to expire, and a warm-up followed
  by a board query.
 */
module Scenarios {
  import opened Options
  import opened Decimal
  import opened Keys
  import opened Store
  import opened Repository
  import opened ViewCounter
  import opened Reconcile
  import opened Ranking

  /** The first view of a product leaves one counter, v + 1, next to the keys that were there. */
  lemma FirstViewSeeds(s: State, productId: int)
    requires Valid(s)
    requires ScanViewKeys(s.cache) == {}
    requires LongMin <= productId <= LongMax
    requires productId in s.db && LongMin <= s.db[productId] < LongMax
    ensures var key := ViewKey(productId);
      var t := IncrementView(s, key, productId);
      && t.Done?
      && ScanViewKeys(t.state.cache) == {key}
      && t.state.cache[key].value == Number(s.db[productId] + 1)
      && t.state.cache - {key} == s.cache
      && t.state.db == s.db
  {
    var key := ViewKey(productId);
    var v := s.db[productId];
    assert key !in s.cache by {
      ViewKeyScanned(productId);
      assert key !in ScanViewKeys(s.cache);
    }
    var r := IncrementView(s, key, productId);
    var t := r.state;
    assert r.Done? && Counter(t.cache, key) == Some(v + 1);
    assert t.cache - {key} == s.cache && ScanViewKeys(t.cache) == {key} by {
      ViewKeyScanned(productId);
      AddedKey(s.cache, t.cache, key);
      OnlyNewKeyScanned(s.cache, t.cache, key);
    }
  }

  /** A scan that found nothing finds exactly the one key added since, when that key is a counter key. */
  lemma OnlyNewKeyScanned(before: map<string, Entry>, after: map<string, Entry>, key: string)
    requires ScanViewKeys(before) == {} && MatchesViewPattern(key)
    requires after.Keys == before.Keys + {key}
    ensures ScanViewKeys(after) == {key}
  {
    assert forall k | k in after && k != key :: k in before;
  }

  /** A pass over a cache with exactly one counter, which holds a valid count. */
  lemma OneCounterPass(s: State, key: string, call: AddCall, mode: AddMode)
    requires Valid(s)
    requires ScanViewKeys(s.cache) == {key}
    requires Inspect(s.cache, key) == Flushed(call)
    ensures Enumerates([key], ScanViewKeys(s.cache))
    ensures UpdateViewRds(s, [key], mode) == Completed(s.(db := AddView(s.db, call, mode), cache := s.cache - {key}), [call])
  {
    assert Elems([key]) == {key};
    assert forall k | k in ScanViewKeys(s.cache) :: Inspect(s.cache, k).Flushed?;
    var r := UpdateViewRds(s, [key], mode);
    assert r.Completed? && r.calls == [call];
    assert [call][1..] == [];
    assert ApplyCalls(s.db, [call], mode) == AddView(s.db, call, mode);
    assert r.state.cache == s.cache - {key};
  }

  /**
    The first view of a product seeds its counter with the stored total v
    and makes it v + 1; the next pass hands v + 1 to `addView`. An additive
    `addView` then stores 2v + 1: the baseline is counted twice. Only an
    overwriting one ends at v + 1.
   */
  lemma SeedThenReconcile(s: State, productId: int, mode: AddMode)
    requires Valid(s)
    requires ScanViewKeys(s.cache) == {}
    requires LongMin <= productId <= LongMax
    requires productId in s.db && IntMin <= s.db[productId] < IntMax
    ensures var key := ViewKey(productId);
      var t := IncrementView(s, key, productId);
      && t.Done?
      && Enumerates([key], ScanViewKeys(t.state.cache))
      && var r := UpdateViewRds(t.state, [key], mode);
        && r.Completed?
        && r.calls == [AddCall(productId, s.db[productId] + 1)]
        && r.state.db[productId] == (if mode == Additive then 2 * s.db[productId] + 1 else s.db[productId] + 1)
        && r.state.cache == s.cache
  {
    var t := SeededCounter(s, productId);
    OneCounterPass(t, ViewKey(productId), AddCall(productId, s.db[productId] + 1), mode);
  }

  /** The state the first view leaves, and how the next pass judges its counter. */
  lemma SeededCounter(s: State, productId: int) returns (t: State)
    requires Valid(s)
    requires ScanViewKeys(s.cache) == {}
    requires LongMin <= productId <= LongMax
    requires productId in s.db && IntMin <= s.db[productId] < IntMax
    ensures IncrementView(s, ViewKey(productId), productId) == Done(t)
    ensures ScanViewKeys(t.cache) == {ViewKey(productId)}
    ensures Inspect(t.cache, ViewKey(productId)) == Flushed(AddCall(productId, s.db[productId] + 1))
    ensures t.cache - {ViewKey(productId)} == s.cache && t.db == s.db
  {
    var key := ViewKey(productId);
    FirstViewSeeds(s, productId);
    t := IncrementView(s, key, productId).state;
    CounterFlushed(key, productId, s.db[productId] + 1);
    assert Lookup(t.cache, key) == Some(Number(s.db[productId] + 1));
  }

  /** A pass over a cache with exactly two counters, both holding valid counts, visited in the order given. */
  lemma TwoCounterPass(s: State, k1: string, k2: string, c1: AddCall, c2: AddCall, mode: AddMode)
    requires Valid(s)
    requires k1 != k2 && ScanViewKeys(s.cache) == {k1, k2}
    requires Inspect(s.cache, k1) == Flushed(c1) && Inspect(s.cache, k2) == Flushed(c2)
    ensures Enumerates([k1, k2], ScanViewKeys(s.cache))
    ensures UpdateViewRds(s, [k1, k2], mode)
      == Completed(s.(db := AddView(AddView(s.db, c1, mode), c2, mode), cache := s.cache - {k1, k2}), [c1, c2])
  {
    ElemsPair(k1, k2);
    FlushTwo(s, k1, k2, c1, c2, mode);
  }

  lemma ElemsPair(k1: string, k2: string)
    ensures Elems([k1, k2]) == {k1, k2}
  {
  }

  /** The loop over two keys that both hold valid counts. */
  lemma FlushTwo(s: State, k1: string, k2: string, c1: AddCall, c2: AddCall, mode: AddMode)
    requires k1 != k2
    requires Inspect(s.cache, k1) == Flushed(c1) && Inspect(s.cache, k2) == Flushed(c2)
    ensures FlushAll(s, [k1, k2], mode)
      == Completed(s.(db := AddView(AddView(s.db, c1, mode), c2, mode), cache := s.cache - {k1, k2}), [c1, c2])
  {
    var next := s.(db := AddView(s.db, c1, mode), cache := s.cache - {k1});
    assert Inspect(next.cache, k2) == Flushed(c2) by {
      assert Lookup(next.cache, k2) == Lookup(s.cache, k2);
    }
    var last := FlushOne(next, k2, c2, mode);
    FlushFirst(s, k1, [k2], c1, mode);
    Pair(k1, k2);
    Pair(c1, c2);
    RemovePair(s.cache, k1, k2);
  }

  lemma Pair<T>(a: T, b: T)
    ensures [a] + [b] == [a, b]
  {
  }

  lemma RemovePair(m: map<string, Entry>, k1: string, k2: string)
    ensures (m - {k1}) - {k2} == m - {k1, k2}
  {
  }

  /** The loop over one key that holds a valid count. */
  lemma FlushOne(s: State, k: string, c: AddCall, mode: AddMode) returns (t: State)
    requires Inspect(s.cache, k) == Flushed(c)
    ensures t == s.(db := AddView(s.db, c, mode), cache := s.cache - {k})
    ensures FlushAll(s, [k], mode) == Completed(t, [c])
  {
    t := s.(db := AddView(s.db, c, mode), cache := s.cache - {k});
    assert [k][1..] == [];
    assert [c] + [] == [c];
  }

  /** The loop's first iteration on a key that holds a valid count. */
  lemma FlushFirst(s: State, k: string, rest: seq<string>, c: AddCall, mode: AddMode)
    requires Inspect(s.cache, k) == Flushed(c)
    ensures var next := s.(db := AddView(s.db, c, mode), cache := s.cache - {k});
      FlushAll(s, [k] + rest, mode) == match FlushAll(next, rest, mode)
        case Completed(t, cs) => Completed(t, [c] + cs)
        case Aborted(e, t, cs) => Aborted(e, t, [c] + cs)
  {
    assert ([k] + rest)[1..] == rest;
  }

  /** Counters n1 and n2 for products p1 and p2, next to keys the scan does not match. */
  function TwoCounters(p1: int, n1: int, p2: int, n2: int, others: map<string, Entry>): map<string, Entry> {
    others[ViewKey(p1) := Entry(Number(n1), None)][ViewKey(p2) := Entry(Number(n2), None)]
  }

  /** The scan finds exactly the two counters. */
  lemma TwoCountersFound(p1: int, n1: int, p2: int, n2: int, others: map<string, Entry>)
    requires p1 != p2 && LongMin <= p1 <= LongMax && LongMin <= p2 <= LongMax
    requires ScanViewKeys(others) == {}
    ensures ViewKey(p1) != ViewKey(p2)
    ensures ScanViewKeys(TwoCounters(p1, n1, p2, n2, others)) == {ViewKey(p1), ViewKey(p2)}
  {
    ViewKeyRoundTrip(p1);
    ViewKeyRoundTrip(p2);
  }

  /** Deleting the two counters gives back the keys next to them. */
  lemma TwoCountersRemoved(p1: int, n1: int, p2: int, n2: int, others: map<string, Entry>)
    requires LongMin <= p1 <= LongMax && LongMin <= p2 <= LongMax
    requires ScanViewKeys(others) == {}
    ensures TwoCounters(p1, n1, p2, n2, others) - {ViewKey(p1), ViewKey(p2)} == others
  {
    assert ViewKey(p1) !in others && ViewKey(p2) !in others by {
      ViewKeyScanned(p1);
      ViewKeyScanned(p2);
      assert ViewKey(p1) !in ScanViewKeys(others) && ViewKey(p2) !in ScanViewKeys(others);
    }
    RemoveAddedTwo(others, ViewKey(p1), ViewKey(p2), Entry(Number(n1), None), Entry(Number(n2), None));
  }

  lemma RemoveAddedTwo(m: map<string, Entry>, k1: string, k2: string, e1: Entry, e2: Entry)
    requires k1 !in m && k2 !in m
    ensures m[k1 := e1][k2 := e2] - {k1, k2} == m
  {
  }

  /** Each of the two counters is flushed with its own count. */
  lemma TwoCountersFlushed(p1: int, n1: int, p2: int, n2: int, others: map<string, Entry>)
    requires p1 != p2 && LongMin <= p1 <= LongMax && LongMin <= p2 <= LongMax
    requires IntMin <= n1 <= IntMax && IntMin <= n2 <= IntMax
    requires ScanViewKeys(others) == {}
    ensures Inspect(TwoCounters(p1, n1, p2, n2, others), ViewKey(p1)) == Flushed(AddCall(p1, n1))
    ensures Inspect(TwoCounters(p1, n1, p2, n2, others), ViewKey(p2)) == Flushed(AddCall(p2, n2))
  {
    TwoCountersFound(p1, n1, p2, n2, others);
    var c := TwoCounters(p1, n1, p2, n2, others);
    assert Lookup(c, ViewKey(p1)) == Some(Number(n1));
    assert Lookup(c, ViewKey(p2)) == Some(Number(n2));
    CounterFlushed(ViewKey(p1), p1, n1);
    CounterFlushed(ViewKey(p2), p2, n2);
  }

  /**
    Per-key reconciliation: a pass over two counters n1 and n2 with an
    additive `addView` adds each count to its own product's total once,
    deletes both counters and keeps every other key.
   */
  lemma TwoCountersReconciled(p1: int, n1: int, p2: int, n2: int, s: State)
    requires Valid(s)
    requires p1 != p2 && LongMin <= p1 <= LongMax && LongMin <= p2 <= LongMax
    requires IntMin <= n1 <= IntMax && IntMin <= n2 <= IntMax
    requires p1 in s.db && p2 in s.db
    requires ScanViewKeys(s.cache) == {}
    ensures var t := s.(cache := TwoCounters(p1, n1, p2, n2, s.cache));
      var order := [ViewKey(p1), ViewKey(p2)];
      && Valid(t)
      && Enumerates(order, ScanViewKeys(t.cache))
      && var r := UpdateViewRds(t, order, Additive);
        && r.Completed?
        && r.state.db.Keys == s.db.Keys
        && r.state.db[p1] == s.db[p1] + n1
        && r.state.db[p2] == s.db[p2] + n2
        && (forall id | id in s.db && id != p1 && id != p2 :: r.state.db[id] == s.db[id])
        && r.state.cache == s.cache
  {
    var t := s.(cache := TwoCounters(p1, n1, p2, n2, s.cache));
    TwoCountersLive(p1, n1, p2, n2, s);
    TwoCountersFound(p1, n1, p2, n2, s.cache);
    TwoCountersRemoved(p1, n1, p2, n2, s.cache);
    TwoCountersFlushed(p1, n1, p2, n2, s.cache);
    TwoCounterPass(t, ViewKey(p1), ViewKey(p2), AddCall(p1, n1), AddCall(p2, n2), Additive);
    TwoAdditions(s.db, p1, n1, p2, n2);
  }

  /** The counters carry no expiry, so adding them keeps a state valid. */
  lemma TwoCountersLive(p1: int, n1: int, p2: int, n2: int, s: State)
    requires Valid(s)
    ensures Valid(s.(cache := TwoCounters(p1, n1, p2, n2, s.cache)))
  {
  }

  /** Two additive `addView` calls for different products each add to their own row only. */
  lemma TwoAdditions(db: map<int, int>, p1: int, n1: int, p2: int, n2: int)
    requires p1 != p2 && p1 in db && p2 in db
    ensures var d := AddView(AddView(db, AddCall(p1, n1), Additive), AddCall(p2, n2), Additive);
      && d.Keys == db.Keys
      && d[p1] == db[p1] + n1
      && d[p2] == db[p2] + n2
      && (forall id | id in db && id != p1 && id != p2 :: d[id] == db[id])
  {
  }

  /** The example: counters 5 and 3 against stored totals 100 and 50 end as totals 105 and 53. */
  lemma TwoCountersExample()
    ensures var s := State(map[], map[1 := 100, 2 := 50], 0);
      var t := s.(cache := TwoCounters(1, 5, 2, 3, map[]));
      var order := [ViewKey(1), ViewKey(2)];
      && Valid(t)
      && Enumerates(order, ScanViewKeys(t.cache))
      && var r := UpdateViewRds(t, order, Additive);
        r.Completed? && r.state.db[1] == 105 && r.state.db[2] == 53 && r.state.cache == map[]
  {
    var s := State(map[], map[1 := 100, 2 := 50], 0);
    assert ScanViewKeys(s.cache) == {};
    TwoCountersReconciled(1, 5, 2, 3, s);
    var t := s.(cache := TwoCounters(1, 5, 2, 3, map[]));
    var r := UpdateViewRds(t, [ViewKey(1), ViewKey(2)], Additive);
    assert r.state.db[1] == s.db[1] + 5 && r.state.db[2] == s.db[2] + 3;
  }

  /**
    A counter seeded by `incrementView` is still found by the scan for 35
    minutes and is gone once more time has passed: its views never reach
    the database.
   */
  lemma SeededCounterExpires(s: State, productId: int, elapsed: nat)
    requires Valid(s)
    requires LongMin <= productId <= LongMax
    requires ViewKey(productId) !in s.cache
    requires productId in s.db && LongMin <= s.db[productId] < LongMax
    ensures var t := IncrementView(s, ViewKey(productId), productId);
      && t.Done?
      && (ViewKey(productId) in ScanViewKeys(Tick(t.state, elapsed).cache) <==> elapsed <= ViewTtlMillis)
  {
    ViewKeyRoundTrip(productId);
  }

  /** The product list of the warm-up example: views 10, 50 and 30 for members 1, 2 and 3. */
  function ThreeProducts(): seq<Product> {
    [Product(10, 1), Product(50, 2), Product(30, 3)]
  }

  /** The warm-up of the example builds the board 1:10, 2:50, 3:30. */
  lemma ThreeProductsBoard(s: State, categoryId: int)
    requires Valid(s)
    requires RankingKey(categoryId) !in s.cache
    ensures var t := WarmupRankingPipeline(s, ThreeProducts(), categoryId);
      t.Done? && BoardAt(t.state.cache, RankingKey(categoryId)) == map[1 := 10, 2 := 50, 3 := 30]
  {
    var key := RankingKey(categoryId);
    UpsertsThree(BoardAt(s.cache, key), Product(10, 1), Product(50, 2), Product(30, 3));
  }

  lemma UpsertsThree(board: map<Member, int>, a: Product, b: Product, c: Product)
    ensures Upserts(board, [a, b, c]) == board[a.mainDto := a.view][b.mainDto := b.view][c.mainDto := c.view]
  {
    var b1 := board[a.mainDto := a.view];
    var b2 := b1[b.mainDto := b.view];
    assert Upserts(board, [a, b, c]) == Upserts(b1, [b, c]) by {
      assert [a, b, c][1..] == [b, c];
    }
    assert Upserts(b1, [b, c]) == Upserts(b2, [c]) by {
      assert [b, c][1..] == [c];
    }
    assert Upserts(b2, [c]) == b2[c.mainDto := c.view] by {
      assert [c][1..] == [];
    }
  }

  /** The board the example warm-up builds and the only answer the board query can give for it. */
  lemma ThreeProductsRanked(s: State, categoryId: int)
    requires Valid(s)
    requires RankingKey(categoryId) !in s.cache
    ensures var t := WarmupRankingPipeline(s, ThreeProducts(), categoryId);
      var board := BoardAt(t.state.cache, RankingKey(categoryId));
      && t.Done?
      && board == map[1 := 10, 2 := 50, 3 := 30]
      && IsTopRange(board, [Scored(2, 50), Scored(3, 30), Scored(1, 10)], BoardSize)
      && forall r | IsTopRange(board, r, BoardSize) :: r == [Scored(2, 50), Scored(3, 30), Scored(1, 10)]
  {
    ThreeProductsBoard(s, categoryId);
    ThreeProductsTop();
    var board := map[1 := 10, 2 := 50, 3 := 30];
    var top := [Scored(2, 50), Scored(3, 30), Scored(1, 10)];
    forall r | IsTopRange(board, r, BoardSize) ensures r == top {
      TopRangeUnique(board, r, top, BoardSize);
    }
  }

  /** The board of the warm-up example, best first. */
  lemma ThreeProductsTop()
    ensures IsTopRange(map[1 := 10, 2 := 50, 3 := 30], [Scored(2, 50), Scored(3, 30), Scored(1, 10)], BoardSize)
  {
    var board := map[1 := 10, 2 := 50, 3 := 30];
    var top := [Scored(2, 50), Scored(3, 30), Scored(1, 10)];
    assert board.Keys == {1, 2, 3};
    assert |board| == 3;
    assert top[0].member in RangeMembers(top);
    assert top[1].member in RangeMembers(top);
    assert top[2].member in RangeMembers(top);
  }
}
