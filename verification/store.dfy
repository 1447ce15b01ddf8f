/**
  The state every operation of `ProductRedisService` moves between: the
  cache store's keyspace (string values and sorted sets, each with an
  optional expiry stamp), the product table's view totals, and the store's
  clock in milliseconds.
 */
module Store {
  import opened Options
  import opened Decimal

  /** Opaque identity of a serialized `ProductMainResponseDto`, a ranking board member. */
  type Member = int

  /**
    A string value is either raw text or, once INCR has written it, an
    integer held in the store's integer encoding; GET renders the latter as
    its decimal text. A sorted set maps each member to its score.
   */
  datatype Value = Text(text: string) | Number(number: int) | Ranked(board: map<Member, int>)

  /** What GET returns for a string value. */
  function StringOf(v: Value): string
    requires !v.Ranked?
  {
    if v.Text? then v.text else Show(v.number)
  }

  /** `expiresAt` is the last millisecond at which the key is still live; None means no TTL. */
  datatype Entry = Entry(value: Value, expiresAt: Option<int>)

  datatype State = State(cache: map<string, Entry>, db: map<int, int>, clock: int)

  datatype Error =
    | WrongType              // a string command on a sorted set or the other way round
    | NotAnInteger           // INCR on a value that is not a 64-bit decimal
    | IncrementOverflow      // INCR past the largest 64-bit value
    | InvalidExpireTime      // SET with a TTL that is not positive
    | UnknownProduct         // the product table has no row for the id
    | MalformedKey(key: string)
    | MissingCount(key: string)
    | BadCount(key: string)

  /** The state after a command or a sequence of commands, and the first error raised, if any. */
  datatype Outcome = Done(state: State) | Failed(error: Error, state: State)

  datatype Result<+T> = Ok(value: T) | Err(error: Error)

  predicate Live(e: Entry, now: int) {
    e.expiresAt.None? || now <= e.expiresAt.value
  }

  /** No key whose expiry has passed is still visible. */
  predicate Valid(s: State) {
    forall k | k in s.cache :: Live(s.cache[k], s.clock)
  }

  /** Every key other than `key` is present and holds the same entry before and after. */
  predicate OthersUnchanged(before: map<string, Entry>, after: map<string, Entry>, key: string) {
    && before.Keys - {key} == after.Keys - {key}
    && (forall k | k != key && k in before :: k in after && after[k] == before[k])
  }

  /** Writing a key that was absent adds just that key. */
  lemma AddedKey(before: map<string, Entry>, after: map<string, Entry>, key: string)
    requires OthersUnchanged(before, after, key) && key !in before && key in after
    ensures after - {key} == before
    ensures after.Keys == before.Keys + {key}
  {
  }

  lemma OthersUnchangedTrans(a: map<string, Entry>, b: map<string, Entry>, c: map<string, Entry>, key: string)
    requires OthersUnchanged(a, b, key) && OthersUnchanged(b, c, key)
    ensures OthersUnchanged(a, c, key)
  {
  }

  /** The counter stored under `key`, as Redis reads it. */
  function Counter(cache: map<string, Entry>, key: string): Option<int> {
    if key !in cache then None
    else match cache[key].value
      case Text(t) => ParseRedis(t)
      case Number(n) => if LongMin <= n <= LongMax then Some(n) else None
      case Ranked(_) => None
  }

  /** The sorted set under `key`; a missing key reads as the empty set. */
  function BoardAt(cache: map<string, Entry>, key: string): map<Member, int> {
    if key in cache && cache[key].value.Ranked? then cache[key].value.board else map[]
  }

  /** Write one key; nothing else changes. */
  function Put(s: State, key: string, e: Entry): (r: State)
    ensures r.db == s.db && r.clock == s.clock
    ensures OthersUnchanged(s.cache, r.cache, key)
    ensures key in r.cache && r.cache[key] == e
    ensures Valid(s) && Live(e, s.clock) ==> Valid(r)
  {
    s.(cache := s.cache[key := e])
  }

  /** A counter written as `Show(v)` reads back as v. */
  lemma CounterReadsBack(cache: map<string, Entry>, key: string, v: int)
    requires key in cache && cache[key].value == Text(Show(v))
    ensures LongMin <= v <= LongMax ==> Counter(cache, key) == Some(v)
  {
    ParseRedisExact(Show(v), v);
  }

  /** Time passes; every key whose expiry stamp is now behind the clock disappears. */
  function Tick(s: State, elapsed: nat): (r: State)
    ensures Valid(r)
    ensures r.clock == s.clock + elapsed && r.db == s.db
    ensures forall k | k in s.cache :: k in r.cache <==> Live(s.cache[k], r.clock)
    ensures forall k | k in r.cache :: k in s.cache && r.cache[k] == s.cache[k]
  {
    var now := s.clock + elapsed;
    State(map k | k in s.cache && Live(s.cache[k], now) :: s.cache[k], s.db, now)
  }
}

/**
  The two `ProductRepository` queries the service calls. Their bodies are
  not part of this model: `getView` is a lookup of the stored total and
  `addView` is parameterised by `AddMode`.
 */
module Repository {
  import opened Options

  function GetView(db: map<int, int>, productId: int): (r: Option<int>)
    ensures r.Some? <==> productId in db
    ensures r.Some? ==> r.value == db[productId]
  {
    if productId in db then Some(db[productId]) else None
  }

  /** `Additive`: `addView(id, n)` adds n to the stored total. `Overwrite`: it stores n as the total. */
  datatype AddMode = Additive | Overwrite

  /** One call `addView(productId, count)`. */
  datatype AddCall = AddCall(productId: int, count: int)

  /** An update of a row that does not exist changes nothing. */
  function AddView(db: map<int, int>, call: AddCall, mode: AddMode): (r: map<int, int>)
    ensures r.Keys == db.Keys
    ensures forall id | id in db && id != call.productId :: r[id] == db[id]
  {
    if call.productId !in db then db
    else if mode == Additive then db[call.productId := db[call.productId] + call.count]
    else db[call.productId := call.count]
  }

  /** The calls executed one after the other, first call first. */
  function ApplyCalls(db: map<int, int>, calls: seq<AddCall>, mode: AddMode): (r: map<int, int>)
    ensures r.Keys == db.Keys
  {
    if calls == [] then db else ApplyCalls(AddView(db, calls[0], mode), calls[1..], mode)
  }

  lemma ApplyCallsCons(db: map<int, int>, call: AddCall, calls: seq<AddCall>, mode: AddMode)
    ensures ApplyCalls(db, [call] + calls, mode) == ApplyCalls(AddView(db, call, mode), calls, mode)
  {
    assert ([call] + calls)[1..] == calls;
  }

  /** Total of the counts handed over for `id`. */
  function SumFor(calls: seq<AddCall>, id: int): int {
    if calls == [] then 0
    else (if calls[0].productId == id then calls[0].count else 0) + SumFor(calls[1..], id)
  }

  /** The count of the last call for `id`, if there is one. */
  function LastFor(calls: seq<AddCall>, id: int): Option<int> {
    if calls == [] then None
    else match LastFor(calls[1..], id)
      case Some(n) => Some(n)
      case None => if calls[0].productId == id then Some(calls[0].count) else None
  }

  /** With an additive `addView`, a row gains the sum of every count handed over for it. */
  lemma {:induction false} ApplyAdditive(db: map<int, int>, calls: seq<AddCall>, id: int)
    requires id in db
    ensures ApplyCalls(db, calls, Additive)[id] == db[id] + SumFor(calls, id)
  {
    if calls != [] {
      ApplyAdditive(AddView(db, calls[0], Additive), calls[1..], id);
    }
  }

  /** With an overwriting `addView`, a row holds the last count handed over for it. */
  lemma {:induction false} ApplyOverwrite(db: map<int, int>, calls: seq<AddCall>, id: int)
    requires id in db
    ensures ApplyCalls(db, calls, Overwrite)[id] == match LastFor(calls, id)
      case Some(n) => n
      case None => db[id]
  {
    if calls != [] {
      ApplyOverwrite(AddView(db, calls[0], Overwrite), calls[1..], id);
    }
  }
}
