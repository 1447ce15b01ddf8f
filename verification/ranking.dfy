/**
  The ranking boards: one sorted set per category under
  `Ranking::<categoryId>`, filled member by member (`setRankingBoard`) or
  for a whole product list in one pipeline (`warmupRankingPipeLine`), and
  read back as the 100 best-scored members (`getRankingBoard`).
 */
module Ranking {
  import opened Options
  import opened Keys
  import opened Store

  /** `reverseRangeWithScores(key, 0, 99)` returns ranks 0 to 99. */
  const BoardSize: nat := 100

  /** The two things the warm-up reads from a `Product`: its view total and its main DTO. */
  datatype Product = Product(view: int, mainDto: Member)

  datatype Scored = Scored(member: Member, score: int)

  /**
    The order of a reverse range: higher score first; equal scores by
    member, higher first.
   */
  predicate Above(a: Scored, b: Scored) {
    a.score > b.score || (a.score == b.score && a.member > b.member)
  }

  /** `setRankingBoard`: ZADD, which inserts the member or replaces its score. */
  function SetRankingBoard(s: State, key: string, member: Member, score: int): (r: Outcome)
    requires Valid(s)
    ensures r.state.db == s.db && r.state.clock == s.clock
    ensures OthersUnchanged(s.cache, r.state.cache, key)
    ensures Valid(r.state)
    ensures r.Failed? <==> key in s.cache && !s.cache[key].value.Ranked?
    ensures r.Failed? ==> r == Failed(WrongType, s)
    ensures r.Done? ==> key in r.state.cache && r.state.cache[key].value.Ranked?
    ensures r.Done? ==> r.state.cache[key].expiresAt == if key in s.cache then s.cache[key].expiresAt else None
    // the member is on the board with the new score; nobody else moved
    ensures r.Done? ==>
      var before := BoardAt(s.cache, key);
      var after := BoardAt(r.state.cache, key);
      && after.Keys == before.Keys + {member}
      && after[member] == score
      && (forall m | m in before && m != member :: after[m] == before[m])
    // re-adding a member does not duplicate it
    ensures r.Done? && member in BoardAt(s.cache, key) ==>
      |BoardAt(r.state.cache, key)| == |BoardAt(s.cache, key)|
  {
    if key !in s.cache then Done(Put(s, key, Entry(Ranked(map[member := score]), None)))
    else match s.cache[key].value
      case Ranked(board) => Done(Put(s, key, s.cache[key].(value := Ranked(board[member := score]))))
      case _ => Failed(WrongType, s)
  }

  /**
    A pipeline of ZADDs to `key`, one per product, in list order. Every
    command runs; the first error is reported at the end.
   */
  function RunPipeline(s: State, key: string, products: seq<Product>): Outcome
    requires Valid(s)
    decreases |products|
  {
    if products == [] then Done(s)
    else
      var first := SetRankingBoard(s, key, products[0].mainDto, products[0].view);
      var rest := RunPipeline(first.state, key, products[1..]);
      if first.Failed? then Failed(first.error, rest.state) else rest
  }

  /**
    `warmupRankingPipeLine`: one ZADD per product to the category's board.
    Only that key changes. On an absent key or a sorted set the pipeline
    succeeds and leaves the list-order upsert of the products' totals; on a
    string every ZADD fails and nothing changes.
   */
  function WarmupRankingPipeline(s: State, products: seq<Product>, categoryId: int): (r: Outcome)
    requires Valid(s)
    ensures r.state.db == s.db && r.state.clock == s.clock
    ensures OthersUnchanged(s.cache, r.state.cache, RankingKey(categoryId))
    ensures Valid(r.state)
    ensures var key := RankingKey(categoryId);
      (key in s.cache ==> s.cache[key].value.Ranked?) ==>
        r.Done? && BoardAt(r.state.cache, key) == Upserts(BoardAt(s.cache, key), products)
    ensures var key := RankingKey(categoryId);
      key in s.cache && !s.cache[key].value.Ranked? ==>
        r.state == s && (r.Failed? <==> products != [])
  {
    var key := RankingKey(categoryId);
    WarmupFrame(s, key, products);
    if key in s.cache && !s.cache[key].value.Ranked? then
      WarmupOnString(s, key, products);
      RunPipeline(s, key, products)
    else
      WarmupFollowsUpserts(s, key, products);
      RunPipeline(s, key, products)
  }

  /** The members a product list puts on the board. */
  function MembersOf(products: seq<Product>): set<Member> {
    set j | 0 <= j < |products| :: products[j].mainDto
  }

  /** No later product in the list carries the same member as `products[i]`. */
  predicate LastOccurrence(products: seq<Product>, i: int)
    requires 0 <= i < |products|
  {
    forall j | i < j < |products| :: products[j].mainDto != products[i].mainDto
  }

  /** A warm-up writes the ranking key only. */
  lemma {:induction false} WarmupFrame(s: State, key: string, products: seq<Product>)
    requires Valid(s)
    ensures var r := RunPipeline(s, key, products);
      && r.state.db == s.db && r.state.clock == s.clock
      && OthersUnchanged(s.cache, r.state.cache, key)
      && Valid(r.state)
    decreases |products|
  {
    if products != [] {
      var first := SetRankingBoard(s, key, products[0].mainDto, products[0].view);
      WarmupFrame(first.state, key, products[1..]);
    }
  }

  /** When the key holds a string every ZADD fails, so a non-empty warm-up fails and changes nothing. */
  lemma {:induction false} WarmupOnString(s: State, key: string, products: seq<Product>)
    requires Valid(s)
    requires key in s.cache && !s.cache[key].value.Ranked?
    ensures var r := RunPipeline(s, key, products);
      r.state == s && (r.Failed? <==> products != [])
    decreases |products|
  {
    if products != [] {
      WarmupOnString(s, key, products[1..]);
    }
  }

  lemma MembersOfCons(products: seq<Product>)
    requires products != []
    ensures MembersOf(products) == {products[0].mainDto} + MembersOf(products[1..])
  {
    var rest := products[1..];
    assert forall j | 0 <= j < |rest| :: rest[j] == products[j + 1];
  }

  /** Reference for a warm-up on the board alone: each product's score written over the board in list order. */
  function Upserts(board: map<Member, int>, products: seq<Product>): map<Member, int>
    decreases |products|
  {
    if products == [] then board
    else Upserts(board[products[0].mainDto := products[0].view], products[1..])
  }

  /**
    After the upserts the board holds the old members and the listed ones;
    a listed member's score is the view total of its last occurrence in the
    list; an unlisted member keeps its score.
   */
  lemma {:induction false} UpsertsLastScoreWins(board: map<Member, int>, products: seq<Product>)
    ensures var after := Upserts(board, products);
      && after.Keys == board.Keys + MembersOf(products)
      && (forall i | 0 <= i < |products| && LastOccurrence(products, i) :: after[products[i].mainDto] == products[i].view)
      && (forall m | m in board && m !in MembersOf(products) :: after[m] == board[m])
    decreases |products|
  {
    if products != [] {
      var p := products[0];
      var rest := products[1..];
      UpsertsLastScoreWins(board[p.mainDto := p.view], rest);
      MembersOfCons(products);
      var after := Upserts(board, products);
      forall i | 0 <= i < |products| && LastOccurrence(products, i)
        ensures after[products[i].mainDto] == products[i].view
      {
        if i > 0 {
          assert rest[i - 1] == products[i];
          assert LastOccurrence(rest, i - 1) by {
            forall j | i - 1 < j < |rest| ensures rest[j].mainDto != rest[i - 1].mainDto {
              assert rest[j] == products[j + 1];
            }
          }
        } else {
          assert forall j | 0 <= j < |rest| :: rest[j].mainDto != p.mainDto by {
            forall j | 0 <= j < |rest| ensures rest[j].mainDto != p.mainDto {
              assert rest[j] == products[j + 1];
            }
          }
          assert p.mainDto !in MembersOf(rest);
        }
      }
    }
  }

  /** The first ZADD of a warm-up on a key that does not hold a string. */
  lemma FirstUpsert(s: State, key: string, products: seq<Product>) returns (t: State)
    requires Valid(s)
    requires products != []
    requires key in s.cache ==> s.cache[key].value.Ranked?
    ensures Valid(t)
    ensures RunPipeline(s, key, products) == RunPipeline(t, key, products[1..])
    ensures key in t.cache && t.cache[key].value.Ranked?
    ensures BoardAt(t.cache, key) == BoardAt(s.cache, key)[products[0].mainDto := products[0].view]
  {
    t := SetRankingBoard(s, key, products[0].mainDto, products[0].view).state;
  }

  /** A warm-up on a key that does not hold a string succeeds and writes the reference board. */
  lemma {:induction false} WarmupFollowsUpserts(s: State, key: string, products: seq<Product>)
    requires Valid(s)
    requires key in s.cache ==> s.cache[key].value.Ranked?
    ensures var r := RunPipeline(s, key, products);
      && r.Done?
      && (key in r.state.cache <==> key in s.cache || products != [])
      && BoardAt(r.state.cache, key) == Upserts(BoardAt(s.cache, key), products)
    decreases |products|
  {
    if products != [] {
      var t := FirstUpsert(s, key, products);
      WarmupFollowsUpserts(t, key, products[1..]);
    }
  }

  /**
    After a warm-up the board holds the old members and the listed ones;
    a listed member's score is the view total of its last occurrence in the
    list; an unlisted member keeps its score.
   */
  lemma WarmupLastScoreWins(s: State, key: string, products: seq<Product>)
    requires Valid(s)
    requires key in s.cache ==> s.cache[key].value.Ranked?
    ensures var r := RunPipeline(s, key, products);
      var before := BoardAt(s.cache, key);
      var after := BoardAt(r.state.cache, key);
      && r.Done?
      && (key in r.state.cache <==> key in s.cache || products != [])
      && after.Keys == before.Keys + MembersOf(products)
      && (forall i | 0 <= i < |products| && LastOccurrence(products, i) :: after[products[i].mainDto] == products[i].view)
      && (forall m | m in before && m !in MembersOf(products) :: after[m] == before[m])
  {
    WarmupFollowsUpserts(s, key, products);
    UpsertsLastScoreWins(BoardAt(s.cache, key), products);
  }

  /** The members listed in a range. */
  function RangeMembers(r: seq<Scored>): set<Member> {
    set i | 0 <= i < |r| :: r[i].member
  }

  /**
    `r` is the reverse range of ranks 0 to n-1 of `board`: as many entries
    as the board has, up to n; each a member with its score; strictly in
    reverse-range order; and no member left out ranks above one listed.
   */
  predicate IsTopRange(board: map<Member, int>, r: seq<Scored>, n: nat) {
    && |r| == (if n < |board| then n else |board|)
    && (forall i | 0 <= i < |r| :: r[i].member in board && board[r[i].member] == r[i].score)
    && (forall i, j | 0 <= i < j < |r| :: Above(r[i], r[j]))
    && (forall m, i | m in board && m !in RangeMembers(r) && 0 <= i < |r| :: Above(r[i], Scored(m, board[m])))
  }

  /** Any two different entries are ordered one way or the other. */
  lemma AboveTotal(a: Scored, b: Scored)
    ensures a == b || Above(a, b) || Above(b, a)
    ensures !(Above(a, b) && Above(b, a))
  {
  }

  /** A set that is not empty has an element to pick. */
  lemma NonEmptyHasKey(s: set<Member>)
    requires s != {}
    ensures exists k :: k in s
  {
    if forall k :: k !in s {
      assert false;
    }
  }

  /** The entry of `board` that ranks first. */
  method BestEntry(board: map<Member, int>) returns (top: Scored)
    requires |board| > 0
    ensures top.member in board && board[top.member] == top.score
    ensures forall m | m in board && m != top.member :: Above(top, Scored(m, board[m]))
  {
    var keys := board.Keys;
    NonEmptyHasKey(keys);
    var first :| first in keys;
    top := Scored(first, board[first]);
    var todo := keys - {first};
    while todo != {}
      invariant todo <= keys
      invariant top.member in board && board[top.member] == top.score
      invariant top.member !in todo
      invariant forall m | m in board && m !in todo && m != top.member :: Above(top, Scored(m, board[m]))
      decreases todo
    {
      NonEmptyHasKey(todo);
      var m :| m in todo;
      if Above(Scored(m, board[m]), top) {
        top := Scored(m, board[m]);
      }
      todo := todo - {m};
    }
  }

  /**
    Loop state of `TopRange`: `r` lists, best first, every member of `board`
    not left in `rest`, and everything in `rest` ranks below all of `r`.
   */
  predicate Selected(board: map<Member, int>, rest: map<Member, int>, r: seq<Scored>) {
    && |r| + |rest| == |board|
    && (forall m | m in rest :: m in board && rest[m] == board[m])
    && (forall m | m in board :: m in rest <==> m !in RangeMembers(r))
    && (forall i | 0 <= i < |r| :: r[i].member in board && board[r[i].member] == r[i].score)
    && (forall i, j | 0 <= i < j < |r| :: Above(r[i], r[j]))
    && (forall m, i | m in rest && 0 <= i < |r| :: Above(r[i], Scored(m, rest[m])))
  }

  lemma RangeMembersSnoc(r: seq<Scored>, top: Scored)
    ensures RangeMembers(r + [top]) == RangeMembers(r) + {top.member}
  {
    assert forall i | 0 <= i < |r| :: (r + [top])[i] == r[i];
    assert (r + [top])[|r|] == top;
  }

  /** Moving the best entry of `rest` to the end of `r` keeps `Selected`. */
  lemma SelectStep(board: map<Member, int>, rest: map<Member, int>, r: seq<Scored>, top: Scored)
    requires Selected(board, rest, r)
    requires top.member in rest && rest[top.member] == top.score
    requires forall m | m in rest && m != top.member :: Above(top, Scored(m, rest[m]))
    ensures Selected(board, rest - {top.member}, r + [top])
  {
    var rest' := rest - {top.member};
    RangeMembersSnoc(r, top);
    assert |rest'| == |rest| - 1 by {
      assert rest'.Keys == rest.Keys - {top.member};
    }
    SnocEntries(board, r, top);
    assert forall i | 0 <= i < |r| :: Above(r[i], top) by {
      assert Scored(top.member, rest[top.member]) == top;
    }
    SnocOrdered(r, top);
    SnocAboveRest(rest, r, top);
  }

  lemma SnocEntries(board: map<Member, int>, r: seq<Scored>, top: Scored)
    requires forall i | 0 <= i < |r| :: r[i].member in board && board[r[i].member] == r[i].score
    requires top.member in board && board[top.member] == top.score
    ensures forall i | 0 <= i < |r| + 1 :: (r + [top])[i].member in board && board[(r + [top])[i].member] == (r + [top])[i].score
  {
    forall i | 0 <= i < |r| + 1
      ensures (r + [top])[i].member in board && board[(r + [top])[i].member] == (r + [top])[i].score
    {
      if i < |r| {
        assert (r + [top])[i] == r[i];
      }
    }
  }

  lemma SnocOrdered(r: seq<Scored>, top: Scored)
    requires forall i, j | 0 <= i < j < |r| :: Above(r[i], r[j])
    requires forall i | 0 <= i < |r| :: Above(r[i], top)
    ensures forall i, j | 0 <= i < j < |r| + 1 :: Above((r + [top])[i], (r + [top])[j])
  {
    forall i, j | 0 <= i < j < |r| + 1 ensures Above((r + [top])[i], (r + [top])[j]) {
      assert (r + [top])[i] == r[i];
      if j < |r| {
        assert (r + [top])[j] == r[j];
      }
    }
  }

  lemma SnocAboveRest(rest: map<Member, int>, r: seq<Scored>, top: Scored)
    requires forall m, i | m in rest && 0 <= i < |r| :: Above(r[i], Scored(m, rest[m]))
    requires forall m | m in rest && m != top.member :: Above(top, Scored(m, rest[m]))
    ensures forall m, i | m in rest - {top.member} && 0 <= i < |r| + 1 :: Above((r + [top])[i], Scored(m, (rest - {top.member})[m]))
  {
    forall m, i | m in rest - {top.member} && 0 <= i < |r| + 1
      ensures Above((r + [top])[i], Scored(m, (rest - {top.member})[m]))
    {
      if i < |r| {
        assert (r + [top])[i] == r[i];
      }
    }
  }

  /** When the loop stops, `Selected` is a top range. */
  lemma SelectDone(board: map<Member, int>, rest: map<Member, int>, r: seq<Scored>, n: nat)
    requires Selected(board, rest, r)
    requires |r| <= n
    requires |r| == n || |rest| == 0
    ensures IsTopRange(board, r, n)
  {
  }

  /** Ranks 0 to n-1 of `board`, best first. */
  method TopRange(board: map<Member, int>, n: nat) returns (r: seq<Scored>)
    ensures IsTopRange(board, r, n)
  {
    r := [];
    var rest := board;
    while |r| < n && |rest| > 0
      invariant |r| <= n
      invariant Selected(board, rest, r)
      decreases |rest|
    {
      var top := BestEntry(rest);
      SelectStep(board, rest, r, top);
      r := r + [top];
      rest := rest - {top.member};
    }
    SelectDone(board, rest, r, n);
  }

  /** `getRankingBoard`: the reverse range 0..99 of the set under `key`. */
  method GetRankingBoard(s: State, key: string) returns (r: Result<seq<Scored>>)
    requires Valid(s)
    ensures key !in s.cache ==> r == Ok([])
    ensures key in s.cache && !s.cache[key].value.Ranked? ==> r == Err(WrongType)
    ensures key in s.cache && s.cache[key].value.Ranked? ==>
      r.Ok? && IsTopRange(s.cache[key].value.board, r.value, BoardSize)
  {
    if key !in s.cache {
      return Ok([]);
    }
    match s.cache[key].value
    case Ranked(board) =>
      var top := TopRange(board, BoardSize);
      return Ok(top);
    case _ =>
      return Err(WrongType);
  }

  /** At a rank where two top ranges agree on everything above, r1's entry does not rank below r2's. */
  lemma NotOutranked(board: map<Member, int>, r1: seq<Scored>, r2: seq<Scored>, n: nat, d: nat)
    requires IsTopRange(board, r1, n) && IsTopRange(board, r2, n)
    requires d < |r1|
    requires forall i | 0 <= i < d :: r1[i] == r2[i]
    ensures !Above(r2[d], r1[d])
  {
    var x := r2[d];
    AboveTotal(r1[d], x);
    if x.member in RangeMembers(r1) {
      var j :| 0 <= j < |r1| && r1[j].member == x.member;
      ListedAtOrBelow(board, r1, r2, n, d, j);
    } else {
      UnlistedBelow(board, r1, n, d, x);
    }
  }

  /** When r2's entry at rank d is listed in r1, r1 lists it at rank d or below. */
  lemma ListedAtOrBelow(board: map<Member, int>, r1: seq<Scored>, r2: seq<Scored>, n: nat, d: nat, j: nat)
    requires IsTopRange(board, r1, n) && IsTopRange(board, r2, n)
    requires d < |r1|
    requires forall i | 0 <= i < d :: r1[i] == r2[i]
    requires j < |r1| && r1[j].member == r2[d].member
    ensures r1[d] == r2[d] || Above(r1[d], r2[d])
  {
    assert r1[j] == r2[d];
    forall i | 0 <= i < d ensures r1[i] != r2[d] {
      assert Above(r2[i], r2[d]);
    }
    if d < j {
      assert Above(r1[d], r1[j]);
    }
  }

  /** A board entry a top range leaves out ranks below every listed entry. */
  lemma UnlistedBelow(board: map<Member, int>, r: seq<Scored>, n: nat, d: nat, x: Scored)
    requires IsTopRange(board, r, n)
    requires d < |r|
    requires x.member in board && board[x.member] == x.score && x.member !in RangeMembers(r)
    ensures Above(r[d], x)
  {
  }

  /** Two ranges agree above rank d. */
  predicate AgreeAbove(r1: seq<Scored>, r2: seq<Scored>, d: int) {
    forall i | 0 <= i < d && i < |r1| && i < |r2| :: r1[i] == r2[i]
  }

  /** Two top ranges that agree above rank d agree at rank d. */
  lemma SameRank(board: map<Member, int>, r1: seq<Scored>, r2: seq<Scored>, n: nat, d: nat)
    requires IsTopRange(board, r1, n) && IsTopRange(board, r2, n)
    requires d < |r1| && AgreeAbove(r1, r2, d)
    ensures r1[d] == r2[d]
  {
    NotOutranked(board, r1, r2, n, d);
    NotOutranked(board, r2, r1, n, d);
    AboveTotal(r1[d], r2[d]);
  }

  /** Two equally long ranges that agree at every rank where they agree above it are equal. */
  lemma RankByRank(r1: seq<Scored>, r2: seq<Scored>)
    requires |r1| == |r2|
    requires forall d | 0 <= d < |r1| && AgreeAbove(r1, r2, d) :: r1[d] == r2[d]
    ensures r1 == r2
  {
    var d := 0;
    while d < |r1|
      invariant d <= |r1|
      invariant AgreeAbove(r1, r2, d)
    {
      d := d + 1;
    }
  }

  /** Two ranges that both meet `IsTopRange` are the same: the query has exactly one answer. */
  lemma TopRangeUnique(board: map<Member, int>, r1: seq<Scored>, r2: seq<Scored>, n: nat)
    requires IsTopRange(board, r1, n) && IsTopRange(board, r2, n)
    ensures r1 == r2
  {
    forall d | 0 <= d < |r1| && AgreeAbove(r1, r2, d) ensures r1[d] == r2[d] {
      SameRank(board, r1, r2, n, d);
    }
    RankByRank(r1, r2);
  }
}
