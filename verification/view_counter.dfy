/**
  The pending view counters of `ProductRedisService`: `setView` (a SET with
  expiry), Redis INCR, and `incrementView`, which seeds an absent counter
  from the product table's total before incrementing it.
 */
module ViewCounter {
  import opened Options
  import opened Decimal
  import opened Store
  import Repository

  /** `Duration.ofMinutes(35)`, the lifetime of a freshly seeded counter. */
  const ViewTtlMillis: int := 35 * 60 * 1000

  /** `setView`: store `data` under `key`, replacing whatever was there, expiring `ttlMillis` from now. */
  function SetView(s: State, key: string, data: string, ttlMillis: int): (r: Outcome)
    ensures r.state.db == s.db && r.state.clock == s.clock
    ensures OthersUnchanged(s.cache, r.state.cache, key)
    ensures r.Failed? <==> ttlMillis <= 0
    ensures r.Failed? ==> r == Failed(InvalidExpireTime, s)
    ensures r.Done? ==> key in r.state.cache && r.state.cache[key].value == Text(data)
    ensures r.Done? ==> r.state.cache[key].expiresAt == Some(s.clock + ttlMillis)
    ensures Valid(s) ==> Valid(r.state)
  {
    if ttlMillis <= 0 then Failed(InvalidExpireTime, s)
    else Done(Put(s, key, Entry(Text(data), Some(s.clock + ttlMillis))))
  }

  /**
    Redis INCR (`values.increment(key)`): a missing key counts as 0; the
    result is stored as an integer; the TTL is kept.
   */
  function Increment(s: State, key: string): (r: Outcome)
    requires Valid(s)
    ensures r.state.db == s.db && r.state.clock == s.clock
    ensures OthersUnchanged(s.cache, r.state.cache, key)
    ensures key !in s.cache ==>
      r.Done? && Counter(r.state.cache, key) == Some(1) && r.state.cache[key].expiresAt.None?
    ensures Counter(s.cache, key).Some? && Counter(s.cache, key).value < LongMax ==>
      && r.Done?
      && Counter(r.state.cache, key) == Some(Counter(s.cache, key).value + 1)
      && r.state.cache[key].expiresAt == s.cache[key].expiresAt
    ensures Counter(s.cache, key) == Some(LongMax) ==> r == Failed(IncrementOverflow, s)
    ensures key in s.cache && Counter(s.cache, key).None? ==> r.Failed? && r.state == s
    ensures Valid(r.state)
  {
    if key !in s.cache then Done(Put(s, key, Entry(Number(1), None)))
    else if s.cache[key].value.Ranked? then Failed(WrongType, s)
    else
      match Counter(s.cache, key)
      case None => Failed(NotAnInteger, s)
      case Some(v) =>
        if v == LongMax then Failed(IncrementOverflow, s)
        else Done(Put(s, key, s.cache[key].(value := Number(v + 1))))
  }

  /**
    `incrementView`: when `values.get(key)` finds nothing, seed the key with
    the product's stored total for 35 minutes, then INCR it; otherwise INCR
    it in place. GET on a sorted set is a type error.
   */
  function IncrementView(s: State, key: string, productId: int): (r: Outcome)
    requires Valid(s)
    ensures r.state.db == s.db && r.state.clock == s.clock
    ensures OthersUnchanged(s.cache, r.state.cache, key)
    ensures Valid(r.state)
    // seeding an absent counter
    ensures key !in s.cache && productId in s.db && LongMin <= s.db[productId] < LongMax ==>
      && r.Done?
      && Counter(r.state.cache, key) == Some(s.db[productId] + 1)
      && r.state.cache[key].expiresAt == Some(s.clock + ViewTtlMillis)
    ensures key !in s.cache && productId !in s.db ==> r == Failed(UnknownProduct, s)
    // accumulating into a present counter
    ensures Counter(s.cache, key).Some? && Counter(s.cache, key).value < LongMax ==>
      && r.Done?
      && Counter(r.state.cache, key) == Some(Counter(s.cache, key).value + 1)
      && r.state.cache[key].expiresAt == s.cache[key].expiresAt
    ensures key in s.cache && Counter(s.cache, key).None? ==> r.Failed? && r.state == s
  {
    if key !in s.cache then
      match Repository.GetView(s.db, productId)
      case None => Failed(UnknownProduct, s)
      case Some(v) =>
        var seeded := SetView(s, key, Show(v), ViewTtlMillis).state;
        CounterReadsBack(seeded.cache, key, v);
        Increment(seeded, key)
    else if s.cache[key].value.Ranked? then Failed(WrongType, s)
    else Increment(s, key)
  }

  /** `n` calls of `incrementView` in a row, stopping at the first failure. */
  function IncrementViewTimes(s: State, key: string, productId: int, n: nat): (r: Outcome)
    requires Valid(s)
    ensures Valid(r.state)
    decreases n
  {
    if n == 0 then Done(s)
    else match IncrementViewTimes(s, key, productId, n - 1)
      case Failed(e, t) => Failed(e, t)
      case Done(t) => IncrementView(t, key, productId)
  }

  /** A counter holding v reads v + n after n more views, with its expiry and everything else untouched. */
  lemma {:induction false} Accumulation(s: State, key: string, productId: int, n: nat)
    requires Valid(s)
    requires Counter(s.cache, key).Some?
    requires Counter(s.cache, key).value + n <= LongMax
    ensures var r := IncrementViewTimes(s, key, productId, n);
      && r.Done?
      && Counter(r.state.cache, key) == Some(Counter(s.cache, key).value + n)
      && r.state.cache[key].expiresAt == s.cache[key].expiresAt
      && r.state.db == s.db
      && OthersUnchanged(s.cache, r.state.cache, key)
    decreases n
  {
    if n > 0 {
      Accumulation(s, key, productId, n - 1);
      var t := IncrementViewTimes(s, key, productId, n - 1).state;
      OthersUnchangedTrans(s.cache, t.cache, IncrementView(t, key, productId).state.cache, key);
    }
  }
}
