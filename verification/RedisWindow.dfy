/**
 The same limiter as a Redis sorted set with key expiry, and its agreement with the list.
 Both read one clock per operation; a key lives while the clock has not passed its expiry.
 */
module RedisWindow {
  import opened SlidingWindow

  /** A sorted set maps each member to its score; the key may have expired. */
  datatype ZKey = Absent | Present(scores: map<nat, int>, expireAt: int)

  function Live(k: ZKey, now: int): map<nat, int> {
    if k.Present? && now <= k.expireAt then k.scores else map[]
  }

  /** ZREMRANGEBYSCORE key 0 cutoff */
  function RemRange(z: map<nat, int>, cutoff: int): map<nat, int> {
    map m | m in z && !(0 <= z[m] <= cutoff) :: z[m]
  }

  /** What is left of the key after a pruning that inserts nothing. */
  function Pruned(k: ZKey, now: int, cutoff: int): ZKey {
    var z := RemRange(Live(k, now), cutoff);
    if z == map[] || k.Absent? then Absent else Present(z, k.expireAt)
  }

  /** A consume the server runs at its time `at`, for a request that carries its own time. */
  function ServerConsume(k: ZKey, c: Call, windowMs: int, at: int): (ZKey, Reply) {
    var z := RemRange(Live(k, at), c.now - windowMs);
    if |z| >= c.max then (Pruned(k, at, c.now - windowMs), Reply(false, |z|))
    else (Present(z[c.member := c.now], at + windowMs), Reply(true, |z| + 1))
  }

  function ServerQuery(k: ZKey, now: int, windowMs: int, at: int): (ZKey, nat) {
    (Pruned(k, at, now - windowMs), |RemRange(Live(k, at), now - windowMs)|)
  }

  // Both at the request's own time.

  function RedisConsume(k: ZKey, c: Call, windowMs: int): (ZKey, Reply) { ServerConsume(k, c, windowMs, c.now) }

  function RedisQuery(k: ZKey, now: int, windowMs: int): (ZKey, nat) { ServerQuery(k, now, windowMs, now) }

  datatype Op = Use(call: Call) | Ask(now: int)

  datatype Answer = Used(reply: Reply) | Counted(count: nat)

  function OpTime(op: Op): int { if op.Use? then op.call.now else op.now }

  function MemStep(arr: seq<Hit>, op: Op, windowMs: int): (seq<Hit>, Answer) {
    match op
    case Use(c) => var (a, r) := Consume(arr, c, windowMs); (a, Used(r))
    case Ask(now) => (arr, Counted(Query(arr, now, windowMs)))
  }

  function RedisStep(k: ZKey, op: Op, windowMs: int): (ZKey, Answer) {
    match op
    case Use(c) => var (z, r) := RedisConsume(k, c, windowMs); (z, Used(r))
    case Ask(now) => var (z, n) := RedisQuery(k, now, windowMs); (z, Counted(n))
  }

  function MemRun(arr: seq<Hit>, ops: seq<Op>, windowMs: int): seq<Answer>
    decreases |ops|
  {
    if ops == [] then []
    else var (a, ans) := MemStep(arr, ops[0], windowMs); [ans] + MemRun(a, ops[1..], windowMs)
  }

  function RedisRun(k: ZKey, ops: seq<Op>, windowMs: int): seq<Answer>
    decreases |ops|
  {
    if ops == [] then []
    else var (z, ans) := RedisStep(k, ops[0], windowMs); [ans] + RedisRun(z, ops[1..], windowMs)
  }

  // ---- the relation between the two stores ---------------------------------------------

  /** The list read as a map from member to time. */
  function AsMap(arr: seq<Hit>): map<nat, int> {
    if arr == [] then map[] else AsMap(arr[1..])[arr[0].member := arr[0].ts]
  }

  function Above(z: map<nat, int>, lo: int): map<nat, int> { map m | m in z && z[m] > lo :: z[m] }

  ghost predicate Distinct(arr: seq<Hit>) { forall i, j :: DistinctAt(arr, i, j) }

  ghost predicate DistinctAt(arr: seq<Hit>, i: int, j: int) {
    0 <= i < j < |arr| ==> arr[i].member != arr[j].member
  }

  ghost predicate ListOk(arr: seq<Hit>, now: int) {
    Sorted(arr) && NoneAfter(arr, now) && Distinct(arr)
  }

  /** Every stored score is a time in the past, and outlives the key by no more than the window. */
  ghost predicate KeyOk(k: ZKey, now: int, windowMs: int) {
    k.Present? ==> forall m <- k.scores :: 0 <= k.scores[m] <= now && k.scores[m] <= k.expireAt - windowMs
  }

  /** Inside the window at `now`, both stores hold the same members at the same times. */
  ghost predicate Agree(arr: seq<Hit>, k: ZKey, now: int, windowMs: int) {
    && ListOk(arr, now) && KeyOk(k, now, windowMs)
    && Above(AsMap(arr), now - windowMs) == Above(Live(k, now), now - windowMs)
  }

  lemma {:induction false} AsMapIn(arr: seq<Hit>, m: nat)
    ensures m in AsMap(arr) <==> HasMember(arr, m)
    ensures m in AsMap(arr) ==> Hit(AsMap(arr)[m], m) in arr
  {
    if arr != [] {
      AsMapIn(arr[1..], m);
      if HasMember(arr, m) && arr[0].member != m {
        var h :| h in arr && h.member == m;
        assert h in arr[1..];
      }
      if arr[0].member == m { assert arr[0] in arr; }
    }
  }

  lemma {:induction false} HeadNotInTail(arr: seq<Hit>)
    requires arr != [] && Distinct(arr)
    ensures Distinct(arr[1..]) && !HasMember(arr[1..], arr[0].member)
  {
    forall h | h in arr[1..] ensures h.member != arr[0].member {
      var i :| 0 <= i < |arr[1..]| && arr[1..][i] == h;
      assert DistinctAt(arr, 0, i + 1);
    }
    forall i, j ensures DistinctAt(arr[1..], i, j) {
      assert DistinctAt(arr, i + 1, j + 1);
    }
  }

  lemma {:induction false} AsMapSize(arr: seq<Hit>)
    requires Distinct(arr)
    ensures |AsMap(arr)| == |arr|
  {
    if arr != [] {
      var rest := arr[1..];
      HeadNotInTail(arr);
      AsMapSize(rest);
      AsMapIn(rest, arr[0].member);
    }
  }

  lemma {:induction false} AsMapKeep(arr: seq<Hit>, lo: int)
    requires Distinct(arr)
    ensures AsMap(Keep(arr, lo)) == Above(AsMap(arr), lo)
  {
    if arr != [] {
      var rest := arr[1..];
      HeadNotInTail(arr);
      AsMapKeep(rest, lo);
      AsMapIn(rest, arr[0].member);
      if arr[0].ts > lo {
        assert ([arr[0]] + Keep(rest, lo))[1..] == Keep(rest, lo);
      } else {
        assert [] + Keep(rest, lo) == Keep(rest, lo);
      }
    }
  }

  lemma {:induction false} AsMapSnoc(arr: seq<Hit>, h: Hit)
    requires !HasMember(arr, h.member)
    ensures AsMap(arr + [h]) == AsMap(arr)[h.member := h.ts]
  {
    if arr == [] {
      assert [] + [h] == [h] && [h][1..] == [];
    } else {
      assert (arr + [h])[1..] == arr[1..] + [h];
      assert arr[0] in arr;
      AsMapSnoc(arr[1..], h);
    }
  }

  lemma {:induction false} KeepDistinct(arr: seq<Hit>, lo: int)
    requires Distinct(arr)
    ensures Distinct(Keep(arr, lo))
  {
    if arr != [] {
      HeadNotInTail(arr);
      KeepDistinct(arr[1..], lo);
      var r := Keep(arr[1..], lo);
      forall i | 0 <= i < |r| ensures r[i].member != arr[0].member {
        KeepIn(arr[1..], lo, r[i]);
        assert r[i] in r;
      }
      if arr[0].ts > lo {
        DistinctCons(arr[0], r);
      } else {
        assert Keep(arr, lo) == r;
      }
    }
  }

  lemma {:induction false} DistinctCons(h: Hit, r: seq<Hit>)
    requires Distinct(r) && forall i :: 0 <= i < |r| ==> r[i].member != h.member
    ensures Distinct([h] + r)
  {
    forall i, j ensures DistinctAt([h] + r, i, j) {
      assert DistinctAt(r, i - 1, j - 1);
    }
  }

  lemma {:induction false} DistinctSnoc(r: seq<Hit>, h: Hit)
    requires Distinct(r) && !HasMember(r, h.member)
    ensures Distinct(r + [h])
  {
    forall i, j ensures DistinctAt(r + [h], i, j) {
      assert DistinctAt(r, i, j);
    }
  }

  /** Both stores count the same entries inside the window. */
  lemma {:induction false} SameCount(arr: seq<Hit>, k: ZKey, now: int, windowMs: int)
    requires Agree(arr, k, now, windowMs)
    ensures var lo := now - windowMs;
            && Prune(arr, lo) == Keep(arr, lo)
            && RemRange(Live(k, now), lo) == AsMap(Keep(arr, lo))
            && |RemRange(Live(k, now), lo)| == |Keep(arr, lo)|
  {
    var lo := now - windowMs;
    HeadPruneIsFilter(arr, lo);
    AsMapKeep(arr, lo);
    KeepDistinct(arr, lo);
    AsMapSize(Keep(arr, lo));
    assert RemRange(Live(k, now), lo) == Above(Live(k, now), lo);
  }

  /** Letting time pass, key expiry included, keeps the stores in agreement. */
  lemma {:induction false} Later(arr: seq<Hit>, k: ZKey, now: int, then': int, windowMs: int)
    requires Agree(arr, k, now, windowMs) && now <= then'
    ensures Agree(arr, k, then', windowMs)
  {
    var lo, lo' := now - windowMs, then' - windowMs;
    AboveTwice(AsMap(arr), lo, lo');
    AboveTwice(Live(k, now), lo, lo');
    LiveLater(k, now, then', windowMs);
  }

  lemma {:induction false} AboveTwice(z: map<nat, int>, lo: int, lo': int)
    requires lo <= lo'
    ensures Above(Above(z, lo), lo') == Above(z, lo')
  {}

  lemma {:induction false} LiveLater(k: ZKey, now: int, then': int, windowMs: int)
    requires KeyOk(k, now, windowMs) && now <= then'
    ensures Above(Live(k, now), then' - windowMs) == Above(Live(k, then'), then' - windowMs)
  {}

  lemma {:induction false} KeepListOk(arr: seq<Hit>, now: int, lo: int)
    requires ListOk(arr, now)
    ensures ListOk(Keep(arr, lo), now)
  {
    HeadPruneIsFilter(arr, lo);
    PruneSorted(arr, lo);
    PruneSub(arr, lo);
    KeepDistinct(arr, lo);
  }

  lemma {:induction false} PrunedAgrees(arr: seq<Hit>, k: ZKey, now: int, windowMs: int, kept: seq<Hit>)
    requires Agree(arr, k, now, windowMs)
    requires kept == arr || kept == Keep(arr, now - windowMs)
    ensures Agree(kept, Pruned(k, now, now - windowMs), now, windowMs)
  {
    var lo := now - windowMs;
    KeepListOk(arr, now, lo);
    AsMapKeep(arr, lo);
    PrunedOk(k, now, windowMs);
    AboveTwice(AsMap(arr), lo, lo);
  }

  lemma {:induction false} PrunedOk(k: ZKey, now: int, windowMs: int)
    requires KeyOk(k, now, windowMs)
    ensures var p := Pruned(k, now, now - windowMs);
            KeyOk(p, now, windowMs) && Above(Live(p, now), now - windowMs) == Above(Live(k, now), now - windowMs)
  {}

  /** A pruned list and the scores left beside it, about to admit `c`. */
  ghost predicate Ready(arr: seq<Hit>, z: map<nat, int>, c: Call, windowMs: int) {
    && ListOk(arr, c.now) && !HasMember(arr, c.member) && z == AsMap(arr)
    && (forall h <- arr :: h.ts > c.now - windowMs)
    && (forall m <- z :: 0 <= z[m] <= c.now)
  }

  lemma {:induction false} InsertAgrees(arr: seq<Hit>, z: map<nat, int>, c: Call, windowMs: int)
    requires windowMs > 0 && c.now >= 0 && Ready(arr, z, c, windowMs)
    ensures Agree(arr + [Hit(c.now, c.member)], Present(z[c.member := c.now], c.now + windowMs), c.now, windowMs)
  {
    AsMapSnoc(arr, Hit(c.now, c.member));
    SortedSnoc(arr, Hit(c.now, c.member));
    DistinctSnoc(arr, Hit(c.now, c.member));
  }

  lemma {:induction false} UseAgrees(arr: seq<Hit>, k: ZKey, c: Call, windowMs: int)
    requires windowMs > 0 && c.now >= 0 && Agree(arr, k, c.now, windowMs) && !HasMember(arr, c.member)
    ensures var (a, r) := Consume(arr, c, windowMs);
            var (z, r') := RedisConsume(k, c, windowMs);
            r == r' && Agree(a, z, c.now, windowMs)
  {
    var kept := Keep(arr, c.now - windowMs);
    SameCount(arr, k, c.now, windowMs);
    KeepNew(arr, c.now - windowMs, c.member);
    if |kept| >= c.max {
      PrunedAgrees(arr, k, c.now, windowMs, kept);
    } else {
      AdmitAgrees(arr, k, c, windowMs);
    }
    UseWith(arr, k, c, windowMs, kept);
  }

  lemma {:induction false} UseWith(arr: seq<Hit>, k: ZKey, c: Call, windowMs: int, kept: seq<Hit>)
    requires kept == Prune(arr, c.now - windowMs) && !HasMember(kept, c.member)
    requires |RemRange(Live(k, c.now), c.now - windowMs)| == |kept|
    requires if |kept| >= c.max then Agree(kept, Pruned(k, c.now, c.now - windowMs), c.now, windowMs)
             else Agree(kept + [Hit(c.now, c.member)],
                        Present(RemRange(Live(k, c.now), c.now - windowMs)[c.member := c.now], c.now + windowMs),
                        c.now, windowMs)
    ensures var (a, r) := Consume(arr, c, windowMs);
            var (z, r') := RedisConsume(k, c, windowMs);
            r == r' && Agree(a, z, c.now, windowMs)
  {
    UseOutcomes(arr, k, c, windowMs, kept);
  }

  /** Both stores decide on the entries left after pruning. */
  lemma {:induction false} UseOutcomes(arr: seq<Hit>, k: ZKey, c: Call, windowMs: int, kept: seq<Hit>)
    requires kept == Prune(arr, c.now - windowMs) && !HasMember(kept, c.member)
    requires |RemRange(Live(k, c.now), c.now - windowMs)| == |kept|
    ensures Consume(arr, c, windowMs).1 == RedisConsume(k, c, windowMs).1
    ensures Consume(arr, c, windowMs).0 == if |kept| >= c.max then kept else kept + [Hit(c.now, c.member)]
    ensures RedisConsume(k, c, windowMs).0
         == if |kept| >= c.max then Pruned(k, c.now, c.now - windowMs)
            else Present(RemRange(Live(k, c.now), c.now - windowMs)[c.member := c.now], c.now + windowMs)
  {}

  lemma {:induction false} KeepNew(arr: seq<Hit>, lo: int, member: nat)
    ensures forall h <- Keep(arr, lo) :: h in arr && h.ts > lo
    ensures !HasMember(arr, member) ==> !HasMember(Keep(arr, lo), member)
  {
    forall h | h in Keep(arr, lo) ensures h in arr && h.ts > lo { KeepIn(arr, lo, h); }
  }

  lemma {:induction false} AdmitAgrees(arr: seq<Hit>, k: ZKey, c: Call, windowMs: int)
    requires windowMs > 0 && c.now >= 0 && Agree(arr, k, c.now, windowMs) && !HasMember(arr, c.member)
    ensures Agree(Keep(arr, c.now - windowMs) + [Hit(c.now, c.member)],
                  Present(RemRange(Live(k, c.now), c.now - windowMs)[c.member := c.now], c.now + windowMs),
                  c.now, windowMs)
  {
    var lo := c.now - windowMs;
    PrunedReady(arr, k, c, windowMs);
    InsertAgrees(Keep(arr, lo), RemRange(Live(k, c.now), lo), c, windowMs);
  }

  lemma {:induction false} PrunedReady(arr: seq<Hit>, k: ZKey, c: Call, windowMs: int)
    requires Agree(arr, k, c.now, windowMs) && !HasMember(arr, c.member)
    ensures Ready(Keep(arr, c.now - windowMs), RemRange(Live(k, c.now), c.now - windowMs), c, windowMs)
  {
    var lo := c.now - windowMs;
    SameCount(arr, k, c.now, windowMs);
    KeepListOk(arr, c.now, lo);
    KeepNew(arr, lo, c.member);
    ScoresPast(k, c.now, windowMs);
  }

  lemma {:induction false} ScoresPast(k: ZKey, now: int, windowMs: int)
    requires KeyOk(k, now, windowMs)
    ensures var z := RemRange(Live(k, now), now - windowMs); forall m <- z :: 0 <= z[m] <= now
  {}

  lemma {:induction false} StepAgrees(arr: seq<Hit>, k: ZKey, op: Op, now: int, windowMs: int)
    requires windowMs > 0 && 0 <= now <= OpTime(op) && Agree(arr, k, now, windowMs)
    requires op.Use? ==> !HasMember(arr, op.call.member)
    ensures MemStep(arr, op, windowMs).1 == RedisStep(k, op, windowMs).1
    ensures Agree(MemStep(arr, op, windowMs).0, RedisStep(k, op, windowMs).0, OpTime(op), windowMs)
  {
    Later(arr, k, now, OpTime(op), windowMs);
    match op
    case Use(c) => UseAgrees(arr, k, c, windowMs);
    case Ask(t) => AskAgrees(arr, k, t, windowMs);
  }

  lemma {:induction false} AskAgrees(arr: seq<Hit>, k: ZKey, now: int, windowMs: int)
    requires Agree(arr, k, now, windowMs)
    ensures RedisQuery(k, now, windowMs).1 == Query(arr, now, windowMs)
    ensures Agree(arr, RedisQuery(k, now, windowMs).0, now, windowMs)
  {
    SameCount(arr, k, now, windowMs);
    PrunedAgrees(arr, k, now, windowMs, arr);
  }

  // ---- whole runs -----------------------------------------------------------------------

  ghost predicate Forward(ops: seq<Op>, now: int) {
    && (forall i :: 0 <= i < |ops| ==> now <= OpTime(ops[i]))
    && (forall i, j :: 0 <= i < j < |ops| ==> OpTime(ops[i]) <= OpTime(ops[j]))
  }

  ghost predicate FreshFor(arr: seq<Hit>, ops: seq<Op>) {
    && (forall i :: 0 <= i < |ops| && ops[i].Use? ==> !HasMember(arr, ops[i].call.member))
    && (forall i, j :: 0 <= i < j < |ops| && ops[i].Use? && ops[j].Use?
                       ==> ops[i].call.member != ops[j].call.member)
  }

  lemma {:induction false} StepKeepsFresh(arr: seq<Hit>, ops: seq<Op>, windowMs: int)
    requires ops != [] && FreshFor(arr, ops)
    ensures FreshFor(MemStep(arr, ops[0], windowMs).0, ops[1..])
  {
    var a := MemStep(arr, ops[0], windowMs).0;
    if ops[0].Use? {
      PruneSub(arr, ops[0].call.now - windowMs);
    }
    forall i | 0 <= i < |ops[1..]| && ops[1..][i].Use? ensures !HasMember(a, ops[1..][i].call.member) {
      assert ops[i + 1].Use?;
    }
  }

  lemma {:induction false} RunsAgree(arr: seq<Hit>, k: ZKey, ops: seq<Op>, now: int, windowMs: int)
    requires windowMs > 0 && now >= 0 && Agree(arr, k, now, windowMs)
    requires Forward(ops, now) && FreshFor(arr, ops)
    ensures MemRun(arr, ops, windowMs) == RedisRun(k, ops, windowMs)
    decreases |ops|
  {
    if ops != [] {
      StepAgrees(arr, k, ops[0], now, windowMs);
      StepKeepsFresh(arr, ops, windowMs);
      RunsAgree(MemStep(arr, ops[0], windowMs).0, RedisStep(k, ops[0], windowMs).0, ops[1..], OpTime(ops[0]), windowMs);
    }
  }

  /** From an empty bucket, list and sorted set give the same answers on every sequence of calls and queries. */
  lemma {:induction false} Refinement(ops: seq<Op>, windowMs: int)
    requires windowMs > 0 && Forward(ops, 0) && FreshFor([], ops)
    ensures MemRun([], ops, windowMs) == RedisRun(Absent, ops, windowMs)
  {
    RunsAgree([], Absent, ops, 0, windowMs);
  }

  function Uses(ops: seq<Op>): seq<Op> {
    if ops == [] then [] else (if ops[0].Use? then [ops[0]] else []) + Uses(ops[1..])
  }

  function Replies(answers: seq<Answer>): seq<Answer> {
    if answers == [] then [] else (if answers[0].Used? then [answers[0]] else []) + Replies(answers[1..])
  }

  lemma {:induction false} MemIgnoresQueries(arr: seq<Hit>, ops: seq<Op>, windowMs: int)
    ensures Replies(MemRun(arr, ops, windowMs)) == MemRun(arr, Uses(ops), windowMs)
    decreases |ops|
  {
    if ops != [] {
      var (a, ans) := MemStep(arr, ops[0], windowMs);
      MemIgnoresQueries(a, ops[1..], windowMs);
      assert ([ans] + MemRun(a, ops[1..], windowMs))[1..] == MemRun(a, ops[1..], windowMs);
      if ops[0].Use? {
        assert ([ops[0]] + Uses(ops[1..]))[1..] == Uses(ops[1..]);
      } else {
        assert [] + Uses(ops[1..]) == Uses(ops[1..]);
      }
    }
  }

  lemma {:induction false} UsesIn(ops: seq<Op>)
    ensures forall op <- Uses(ops) :: op in ops && op.Use?
  {
    if ops != [] {
      UsesIn(ops[1..]);
    }
  }

  lemma {:induction false} UsesStayInOrder(arr: seq<Hit>, ops: seq<Op>, now: int)
    requires Forward(ops, now) && FreshFor(arr, ops)
    ensures Forward(Uses(ops), now) && FreshFor(arr, Uses(ops))
    decreases |ops|
  {
    if ops != [] {
      UsesStayInOrder(arr, ops[1..], OpTime(ops[0]));
      UsesIn(ops[1..]);
      var rest := Uses(ops[1..]);
      forall j | 0 <= j < |rest| && ops[0].Use? ensures rest[j].call.member != ops[0].call.member {
        assert rest[j] in ops[1..];
        var i :| 0 <= i < |ops[1..]| && ops[1..][i] == rest[j];
        assert ops[i + 1] == rest[j];
      }
    }
  }

  /** Queries prune the sorted set, and still leave every later consume result unchanged. */
  lemma {:induction false} QueriesChangeNothing(ops: seq<Op>, windowMs: int)
    requires windowMs > 0 && Forward(ops, 0) && FreshFor([], ops)
    ensures Replies(RedisRun(Absent, ops, windowMs)) == RedisRun(Absent, Uses(ops), windowMs)
  {
    Refinement(ops, windowMs);
    MemIgnoresQueries([], ops, windowMs);
    UsesStayInOrder([], ops, 0);
    Refinement(Uses(ops), windowMs);
  }
}
