/**
  `UpdateViewRDS`, the scheduled pass that hands every pending counter to
  `addView` and deletes it. The pass runs inside one database transaction:
  when a key cannot be processed the pass throws, the database changes are
  rolled back, and the counters already deleted from the cache stay
  deleted (the cache store takes no part in the transaction).
 */
module Reconcile {
  import opened Options
  import opened Decimal
  import opened Keys
  import opened Store
  import opened Repository

  /** `redisTemplate.keys("productView*")`. */
  function ScanViewKeys(cache: map<string, Entry>): set<string> {
    set k | k in cache && MatchesViewPattern(k)
  }

  function Elems(keys: seq<string>): set<string> {
    set k | k in keys
  }

  predicate Distinct(keys: seq<string>) {
    forall i, j | 0 <= i < j < |keys| :: keys[i] != keys[j]
  }

  /** `order` visits every key of `keys` exactly once: the iteration order of the scanned set. */
  predicate Enumerates(order: seq<string>, keys: set<string>) {
    Distinct(order) && Elems(order) == keys
  }

  lemma HeadInElems(order: seq<string>)
    ensures |order| > 0 ==> order[0] in Elems(order)
  {
  }

  lemma NothingToEnumerate(order: seq<string>)
    requires Elems(order) == {}
    ensures order == []
  {
    HeadInElems(order);
  }

  /** What one iteration of the loop does with `key`: the `addView` call it makes, or why it throws. */
  datatype Step = Flushed(call: AddCall) | Rejected(error: Error)

  /** GET: the value under `key`, if any. */
  function Lookup(cache: map<string, Entry>, key: string): Option<Value> {
    if key in cache then Some(cache[key].value) else None
  }

  /**
    One iteration on `key` holding `value`: parse the id out of the key,
    then the value (null and a sorted set both throw), as an `int`.
   */
  function Judge(key: string, value: Option<Value>): Step {
    match ParseViewKey(key)
    case None => Rejected(MalformedKey(key))
    case Some(id) =>
      match value
      case None => Rejected(MissingCount(key))
      case Some(Ranked(_)) => Rejected(WrongType)
      case Some(v) =>
        match ParseInt(StringOf(v))
        case None => Rejected(BadCount(key))
        case Some(n) => Flushed(AddCall(id, n))
  }

  function Inspect(cache: map<string, Entry>, key: string): Step {
    Judge(key, Lookup(cache, key))
  }

  /** A counter n the application wrote under `ViewKey(id)`, as text or as an integer, is flushed as `addView(id, n)`. */
  lemma CounterFlushed(key: string, productId: int, n: int)
    requires key == ViewKey(productId)
    requires LongMin <= productId <= LongMax && IntMin <= n <= IntMax
    ensures Judge(key, Some(Text(Show(n)))) == Flushed(AddCall(productId, n))
    ensures Judge(key, Some(Number(n))) == Flushed(AddCall(productId, n))
  {
    ViewKeyRoundTrip(productId);
    ShowParseJava(n, IntMin, IntMax);
  }

  /** The outcome of a pass: the state it leaves and the `addView` calls it issued, in order. */
  datatype PassResult =
    | Completed(state: State, calls: seq<AddCall>)
    | Aborted(error: Error, state: State, calls: seq<AddCall>)

  /** The loop of the pass, one key after the other, before any rollback. */
  function FlushAll(s: State, order: seq<string>, mode: AddMode): PassResult
    decreases |order|
  {
    if order == [] then Completed(s, [])
    else match Inspect(s.cache, order[0])
      case Rejected(e) => Aborted(e, s, [])
      case Flushed(c) =>
        var next := s.(db := AddView(s.db, c, mode), cache := s.cache - {order[0]});
        match FlushAll(next, order[1..], mode)
        case Completed(t, cs) => Completed(t, [c] + cs)
        case Aborted(e, t, cs) => Aborted(e, t, [c] + cs)
  }

  /** Index of the first false entry, or the length when there is none. */
  function FirstFalse(b: seq<bool>): (i: nat)
    ensures i <= |b|
    ensures forall j | 0 <= j < i :: b[j]
    ensures i < |b| ==> !b[i]
  {
    if b == [] || !b[0] then 0 else 1 + FirstFalse(b[1..])
  }

  lemma FirstFalseCons(b: seq<bool>)
    ensures FirstFalse([true] + b) == 1 + FirstFalse(b)
  {
    assert ([true] + b)[1..] == b;
  }

  /** `f` applied to each element, in order. */
  function MapSeq<A, B>(f: A -> B, s: seq<A>): (r: seq<B>)
    ensures |r| == |s|
    ensures forall j | 0 <= j < |s| :: r[j] == f(s[j])
  {
    if s == [] then [] else [f(s[0])] + MapSeq(f, s[1..])
  }

  /** For each key of `keys`, whether the pass can process it. */
  function Verdicts(cache: map<string, Entry>, keys: seq<string>): (b: seq<bool>)
    ensures |b| == |keys|
    ensures forall j | 0 <= j < |keys| :: b[j] == Inspect(cache, keys[j]).Flushed?
  {
    MapSeq(k => Inspect(cache, k).Flushed?, keys)
  }

  /** Index of the first key the pass cannot process, judged on the cache as the pass found it. */
  function FirstRejected(cache: map<string, Entry>, order: seq<string>): (i: nat)
    ensures i <= |order|
    ensures forall j | 0 <= j < i :: Inspect(cache, order[j]).Flushed?
    ensures i < |order| ==> Inspect(cache, order[i]).Rejected?
  {
    FirstFalse(Verdicts(cache, order))
  }

  /** The calls for `keys`, each judged on the cache as the pass found it. */
  function CallsFor(cache: map<string, Entry>, keys: seq<string>): (r: seq<AddCall>)
    requires forall j | 0 <= j < |keys| :: Inspect(cache, keys[j]).Flushed?
    ensures |r| == |keys|
    ensures forall j | 0 <= j < |keys| :: r[j] == Inspect(cache, keys[j]).call
  {
    seq(|keys|, j requires 0 <= j < |keys| => Inspect(cache, keys[j]).call)
  }

  /** Two caches agree on every key of `keys`. */
  predicate AgreeOn(c1: map<string, Entry>, c2: map<string, Entry>, keys: seq<string>) {
    forall j | 0 <= j < |keys| :: (keys[j] in c1 <==> keys[j] in c2) && (keys[j] in c1 ==> c1[keys[j]] == c2[keys[j]])
  }

  lemma AgreeingCachesJudgeAlike(c1: map<string, Entry>, c2: map<string, Entry>, keys: seq<string>)
    requires AgreeOn(c1, c2, keys)
    ensures FirstRejected(c1, keys) == FirstRejected(c2, keys)
    ensures forall j | 0 <= j < |keys| :: Inspect(c1, keys[j]) == Inspect(c2, keys[j])
  {
    forall j | 0 <= j < |keys| ensures Inspect(c1, keys[j]) == Inspect(c2, keys[j]) {
      assert Lookup(c1, keys[j]) == Lookup(c2, keys[j]);
    }
    SamePointwise(Verdicts(c1, keys), Verdicts(c2, keys));
  }

  lemma SamePointwise<T>(a: seq<T>, b: seq<T>)
    requires |a| == |b|
    requires forall j | 0 <= j < |a| :: a[j] == b[j]
    ensures a == b
  {
  }

  /** The calls the pass should issue: one for each key before the first bad one. */
  function PredictedCalls(cache: map<string, Entry>, order: seq<string>): seq<AddCall> {
    CallsFor(cache, order[..FirstRejected(cache, order)])
  }

  /** The cache the pass should leave: the keys before the first bad one deleted. */
  function PredictedCache(cache: map<string, Entry>, order: seq<string>): map<string, Entry> {
    cache - Elems(order[..FirstRejected(cache, order)])
  }

  /** What the pass should do, judged on the cache as it found it. */
  function Predicted(s: State, order: seq<string>, mode: AddMode): PassResult {
    var i := FirstRejected(s.cache, order);
    var calls := PredictedCalls(s.cache, order);
    var after := s.(db := ApplyCalls(s.db, calls, mode), cache := PredictedCache(s.cache, order));
    if i == |order| then Completed(after, calls)
    else Aborted(Inspect(s.cache, order[i]).error, after, calls)
  }

  /** The cache after the first key of `order` is deleted judges the remaining keys as before. */
  lemma TailJudgedAlike(cache: map<string, Entry>, order: seq<string>)
    requires Distinct(order) && order != [] && Inspect(cache, order[0]).Flushed?
    ensures var rest := order[1..];
      var c2 := cache - {order[0]};
      && FirstRejected(cache, order) == FirstRejected(c2, rest) + 1
      && forall j | 0 <= j < |rest| :: Inspect(c2, rest[j]) == Inspect(cache, rest[j])
  {
    var k := order[0];
    var rest := order[1..];
    assert forall j | 0 <= j < |rest| :: rest[j] != k by {
      forall j | 0 <= j < |rest| ensures rest[j] != k {
        assert rest[j] == order[j + 1];
      }
    }
    assert AgreeOn(cache - {k}, cache, rest);
    AgreeingCachesJudgeAlike(cache - {k}, cache, rest);
    var b := Verdicts(cache, order);
    forall j | 0 < j < |b| ensures b[j] == Verdicts(cache, rest)[j - 1] {
      assert rest[j - 1] == order[j];
    }
    ConsPointwise(b, true, Verdicts(cache, rest));
    FirstFalseCons(Verdicts(cache, rest));
  }

  lemma PredictedCallsStep(cache: map<string, Entry>, order: seq<string>)
    requires Distinct(order) && order != [] && Inspect(cache, order[0]).Flushed?
    ensures PredictedCalls(cache, order) == [Inspect(cache, order[0]).call] + PredictedCalls(cache - {order[0]}, order[1..])
  {
    var rest := order[1..];
    var c2 := cache - {order[0]};
    TailJudgedAlike(cache, order);
    var i := FirstRejected(cache, order);
    var lhs := PredictedCalls(cache, order);
    var tail := PredictedCalls(c2, rest);
    forall j | 0 < j < |lhs| ensures lhs[j] == tail[j - 1] {
      assert rest[j - 1] == order[j];
    }
    ConsPointwise(lhs, Inspect(cache, order[0]).call, tail);
  }

  lemma ConsPointwise<T>(s: seq<T>, head: T, tail: seq<T>)
    requires |s| == |tail| + 1 && s[0] == head
    requires forall j | 0 < j < |s| :: s[j] == tail[j - 1]
    ensures s == [head] + tail
  {
  }

  lemma PredictedCacheStep(cache: map<string, Entry>, order: seq<string>)
    requires Distinct(order) && order != [] && Inspect(cache, order[0]).Flushed?
    ensures PredictedCache(cache, order) == PredictedCache(cache - {order[0]}, order[1..])
  {
    var rest := order[1..];
    TailJudgedAlike(cache, order);
    var i := FirstRejected(cache, order);
    ElemsPrefix(order, i);
    RemoveTwice(cache, {order[0]}, Elems(rest[..i - 1]));
  }

  lemma RemoveTwice(m: map<string, Entry>, a: set<string>, b: set<string>)
    ensures (m - a) - b == m - (a + b)
  {
  }

  /** The keys of a non-empty prefix: the first key and the keys of the prefix of the tail. */
  lemma ElemsPrefix(keys: seq<string>, i: nat)
    requires 1 <= i <= |keys|
    ensures Elems(keys[..i]) == {keys[0]} + Elems(keys[1..][..i - 1])
  {
    assert keys[..i] == [keys[0]] + keys[1..][..i - 1];
  }

  /** Prepending one flushed key to a prediction for the keys after it. */
  lemma PredictedStep(s: State, order: seq<string>, mode: AddMode)
    requires Distinct(order) && order != [] && Inspect(s.cache, order[0]).Flushed?
    ensures var c := Inspect(s.cache, order[0]).call;
      var next := s.(db := AddView(s.db, c, mode), cache := s.cache - {order[0]});
      Predicted(s, order, mode) == match Predicted(next, order[1..], mode)
        case Completed(t, cs) => Completed(t, [c] + cs)
        case Aborted(e, t, cs) => Aborted(e, t, [c] + cs)
  {
    var c := Inspect(s.cache, order[0]).call;
    var next := s.(db := AddView(s.db, c, mode), cache := s.cache - {order[0]});
    TailJudgedAlike(s.cache, order);
    PredictedCallsStep(s.cache, order);
    PredictedCacheStep(s.cache, order);
    var tail := PredictedCalls(next.cache, order[1..]);
    ApplyCallsCons(s.db, c, tail, mode);
    var i := FirstRejected(s.cache, order);
    if i < |order| {
      assert order[1..][i - 1] == order[i];
    }
  }

  /**
    The sequential loop does what judging every key on the cache as the pass
    found it predicts: it flushes the keys before the first bad one, in
    order, each with the count it held at the start, and stops there.
   */
  lemma {:induction false} FlushAllFollowsReference(s: State, order: seq<string>, mode: AddMode)
    requires Distinct(order)
    ensures FlushAll(s, order, mode) == Predicted(s, order, mode)
    decreases |order|
  {
    var i := FirstRejected(s.cache, order);
    if order == [] || Inspect(s.cache, order[0]).Rejected? {
      assert order[..i] == [];
      assert Elems(order[..i]) == {};
      assert s.cache - {} == s.cache;
    } else {
      var c := Inspect(s.cache, order[0]).call;
      var next := s.(db := AddView(s.db, c, mode), cache := s.cache - {order[0]});
      assert Distinct(order[1..]);
      FlushAllFollowsReference(next, order[1..], mode);
      PredictedStep(s, order, mode);
    }
  }

  /**
    `UpdateViewRDS` over the scanned keys in the iteration order `order`,
    with `addView` behaving as `mode` says.
   */
  function UpdateViewRds(s: State, order: seq<string>, mode: AddMode): (r: PassResult)
    requires Valid(s)
    requires Enumerates(order, ScanViewKeys(s.cache))
    ensures r.state.clock == s.clock
    ensures Valid(r.state)
    // nothing to scan: nothing changes
    ensures ScanViewKeys(s.cache) == {} ==> r == Completed(s, [])
    // the pass completes exactly when every scanned key can be processed
    ensures r.Completed? <==> forall k | k in ScanViewKeys(s.cache) :: Inspect(s.cache, k).Flushed?
    // one addView per scanned key, in iteration order, with the count it held
    ensures r.Completed? ==> |r.calls| == |order|
    ensures r.Completed? ==> forall j | 0 <= j < |order| :: r.calls[j] == Inspect(s.cache, order[j]).call
    ensures r.Completed? ==> r.state.db == ApplyCalls(s.db, r.calls, mode)
    // every scanned key is gone; every other key is untouched
    ensures r.Completed? ==> r.state.cache == s.cache - ScanViewKeys(s.cache)
    ensures r.Completed? ==> ScanViewKeys(r.state.cache) == {}
    // a failing key: the database is rolled back, the keys before it stay deleted
    ensures r.Aborted? ==> r.state.db == s.db
    ensures r.Aborted? ==>
      var i := FirstRejected(s.cache, order);
      && i < |order|
      && r.error == Inspect(s.cache, order[i]).error
      && r.state.cache == s.cache - Elems(order[..i])
  {
    FlushAllFollowsReference(s, order, mode);
    assert order[..|order|] == order;
    if ScanViewKeys(s.cache) == {} then
      NothingToEnumerate(order);
      Completed(s, [])
    else
    match FlushAll(s, order, mode)
    case Completed(t, cs) => Completed(t, cs)
    case Aborted(e, t, cs) => Aborted(e, t.(db := s.db), cs)
  }
}
