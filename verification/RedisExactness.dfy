/** When the list and the sorted set give the same answers although request times cross. */
module RedisExactness {
  import opened SlidingWindow
  import opened RedisWindow

  /** A consume and the time at which the server runs it. */
  datatype Sent = Sent(call: Call, at: int)

  function ListAnswers(arr: seq<Hit>, xs: seq<Sent>, windowMs: int): seq<Reply>
    decreases |xs|
  {
    if xs == [] then []
    else var (a, r) := Consume(arr, xs[0].call, windowMs); [r] + ListAnswers(a, xs[1..], windowMs)
  }

  function SetAnswers(k: ZKey, xs: seq<Sent>, windowMs: int): seq<Reply>
    decreases |xs|
  {
    if xs == [] then []
    else var (z, r) := ServerConsume(k, xs[0].call, windowMs, xs[0].at); [r] + SetAnswers(z, xs[1..], windowMs)
  }

  predicate AnswerAlike(xs: seq<Sent>, windowMs: int) {
    ListAnswers([], xs, windowMs) == SetAnswers(Absent, xs, windowMs)
  }

  /** One limit, fresh members, no time before 0. */
  ghost predicate LegalSent(xs: seq<Sent>, max: nat) {
    && (forall x <- xs :: x.call.max == max && 0 <= x.call.now)
    && (forall i, j :: FreshPair(xs, i, j))
  }

  predicate FreshPair(xs: seq<Sent>, i: int, j: int) { 0 <= i < j < |xs| ==> xs[i].call.member != xs[j].call.member }

  /** Every consume at its own time, and no time more than `skew` behind an earlier one. */
  ghost predicate OwnTimes(xs: seq<Sent>, skew: nat) {
    (forall x <- xs :: x.at == x.call.now) && forall i, j :: SkewPair(xs, skew, i, j)
  }

  predicate SkewPair(xs: seq<Sent>, skew: nat, i: int, j: int) {
    0 <= i < j < |xs| ==> xs[j].call.now >= xs[i].call.now - skew
  }

  /** A server clock that goes forward, and consumes at most `delay` behind their requests. */
  ghost predicate ServerTimes(xs: seq<Sent>, delay: nat) {
    && (forall x <- xs :: x.call.now <= x.at <= x.call.now + delay)
    && forall i, j :: ServedPair(xs, i, j)
  }

  predicate ServedPair(xs: seq<Sent>, i: int, j: int) { 0 <= i < j < |xs| ==> xs[i].at <= xs[j].at }

  // ---- agreement: times in order --------------------------------------------------------

  /** Consumes in order from `now` on, with members new to the list. */
  ghost predicate InOrder(arr: seq<Hit>, xs: seq<Sent>, now: int) {
    && (forall x <- xs :: x.at == x.call.now >= now && !HasMember(arr, x.call.member))
    && (forall i, j :: SkewPair(xs, 0, i, j)) && (forall i, j :: FreshPair(xs, i, j))
  }

  lemma {:induction false} OrderTail(arr: seq<Hit>, xs: seq<Sent>, now: int, windowMs: int)
    requires xs != [] && InOrder(arr, xs, now)
    ensures InOrder(Consume(arr, xs[0].call, windowMs).0, xs[1..], xs[0].call.now)
  {
    var c, rest := xs[0].call, xs[1..];
    PruneSub(arr, c.now - windowMs);
    forall i, j ensures SkewPair(rest, 0, i, j) { assert SkewPair(xs, 0, i + 1, j + 1); }
    forall i, j ensures FreshPair(rest, i, j) { assert FreshPair(xs, i + 1, j + 1); }
    var a := Consume(arr, c, windowMs).0;
    forall x | x in rest ensures x.at == x.call.now >= c.now && !HasMember(a, x.call.member) {
      var i :| 0 <= i < |rest| && rest[i] == x;
      assert xs[i + 1] == x && x in xs;
      assert SkewPair(xs, 0, 0, i + 1) && FreshPair(xs, 0, i + 1);
    }
  }

  lemma {:induction false} OrderAgrees(arr: seq<Hit>, k: ZKey, xs: seq<Sent>, now: int, windowMs: int)
    requires windowMs > 0 && now >= 0 && Agree(arr, k, now, windowMs) && InOrder(arr, xs, now)
    ensures ListAnswers(arr, xs, windowMs) == SetAnswers(k, xs, windowMs)
    decreases |xs|
  {
    if xs != [] {
      var c := xs[0].call;
      assert xs[0] in xs;
      Later(arr, k, now, c.now, windowMs);
      UseAgrees(arr, k, c, windowMs);
      OrderTail(arr, xs, now, windowMs);
      OrderAgrees(Consume(arr, c, windowMs).0, RedisConsume(k, c, windowMs).0, xs[1..], c.now, windowMs);
    }
  }

  // ---- agreement: limits of none and one ------------------------------------------------

  lemma {:induction false} NoneAgrees(xs: seq<Sent>, windowMs: int)
    requires forall x <- xs :: x.call.max == 0
    ensures ListAnswers([], xs, windowMs) == SetAnswers(Absent, xs, windowMs)
    decreases |xs|
  {
    if xs != [] {
      assert xs[0] in xs;
      NoneAgrees(xs[1..], windowMs);
    }
  }

  /** Both stores hold the same single admission, or none. */
  predicate Alike(arr: seq<Hit>, k: ZKey, windowMs: int) {
    || (arr == [] && k == Absent)
    || (|arr| == 1 && k.Present? && 0 <= arr[0].ts && k.scores == map[arr[0].member := arr[0].ts]
        && arr[0].ts + windowMs <= k.expireAt)
  }

  /** While the hit is in the list's window, the key is alive and keeps it; else both forget it. */
  lemma {:induction false} SameLeft(h: Hit, k: ZKey, c: Call, at: int, windowMs: int)
    requires windowMs > 0 && Alike([h], k, windowMs) && c.now <= at <= c.now + 1
    ensures RemRange(Live(k, at), c.now - windowMs) == if h.ts > c.now - windowMs then k.scores else map[]
    ensures Prune([h], c.now - windowMs) == if h.ts > c.now - windowMs then [h] else []
  {
    assert [h][1..] == [];
  }

  lemma {:induction false} OneStep(arr: seq<Hit>, k: ZKey, c: Call, at: int, windowMs: int)
    requires windowMs > 0 && Alike(arr, k, windowMs) && c.max == 1 && 0 <= c.now <= at <= c.now + 1
    ensures Consume(arr, c, windowMs).1 == ServerConsume(k, c, windowMs, at).1
    ensures Alike(Consume(arr, c, windowMs).0, ServerConsume(k, c, windowMs, at).0, windowMs)
  {
    assert [] + [Hit(c.now, c.member)] == [Hit(c.now, c.member)];
    if arr != [] {
      assert arr == [arr[0]];
      SameLeft(arr[0], k, c, at, windowMs);
    }
  }

  lemma {:induction false} OneAgrees(arr: seq<Hit>, k: ZKey, xs: seq<Sent>, windowMs: int)
    requires windowMs > 0 && Alike(arr, k, windowMs)
    requires forall x <- xs :: x.call.max == 1 && 0 <= x.call.now <= x.at <= x.call.now + 1
    ensures ListAnswers(arr, xs, windowMs) == SetAnswers(k, xs, windowMs)
    decreases |xs|
  {
    if xs != [] {
      var x := xs[0];
      assert x in xs && forall y <- xs[1..] :: y in xs;
      OneStep(arr, k, x.call, x.at, windowMs);
      OneAgrees(Consume(arr, x.call, windowMs).0, ServerConsume(k, x.call, windowMs, x.at).0, xs[1..], windowMs);
    }
  }

  // ---- the last answer ------------------------------------------------------------------

  function Last<T>(answers: seq<T>): T
    requires answers != []
  {
    answers[|answers| - 1]
  }

  function ListAfter(arr: seq<Hit>, xs: seq<Sent>, windowMs: int): seq<Hit>
    decreases |xs|
  {
    if xs == [] then arr else ListAfter(Consume(arr, xs[0].call, windowMs).0, xs[1..], windowMs)
  }

  function SetAfter(k: ZKey, xs: seq<Sent>, windowMs: int): ZKey
    decreases |xs|
  {
    if xs == [] then k else SetAfter(ServerConsume(k, xs[0].call, windowMs, xs[0].at).0, xs[1..], windowMs)
  }

  lemma {:induction false} ListLast(arr: seq<Hit>, xs: seq<Sent>, x: Sent, windowMs: int)
    ensures ListAfter(arr, xs + [x], windowMs) == Consume(ListAfter(arr, xs, windowMs), x.call, windowMs).0
    ensures var r := ListAnswers(arr, xs + [x], windowMs);
            r != [] && Last(r) == Consume(ListAfter(arr, xs, windowMs), x.call, windowMs).1
    decreases |xs|
  {
    if xs == [] {
      assert [] + [x] == [x] && [x][1..] == [];
    } else {
      assert (xs + [x])[1..] == xs[1..] + [x];
      ListLast(Consume(arr, xs[0].call, windowMs).0, xs[1..], x, windowMs);
    }
  }

  lemma {:induction false} SetLast(k: ZKey, xs: seq<Sent>, x: Sent, windowMs: int)
    ensures SetAfter(k, xs + [x], windowMs) == ServerConsume(SetAfter(k, xs, windowMs), x.call, windowMs, x.at).0
    ensures var r := SetAnswers(k, xs + [x], windowMs);
            r != [] && Last(r) == ServerConsume(SetAfter(k, xs, windowMs), x.call, windowMs, x.at).1
    decreases |xs|
  {
    if xs == [] {
      assert [] + [x] == [x] && [x][1..] == [];
    } else {
      assert (xs + [x])[1..] == xs[1..] + [x];
      SetLast(ServerConsume(k, xs[0].call, windowMs, xs[0].at).0, xs[1..], x, windowMs);
    }
  }

  // ---- disagreement: two requests that cross by a millisecond ---------------------------

  /** A request of time 1 first, then `n` of time 0, run at `a`. */
  function Behind(max: nat, n: nat, a: int): seq<Sent> {
    if n == 0 then [] + [Sent(Call(max, 1, 0), 1)] else Behind(max, n - 1, a) + [Sent(Call(max, 0, n), a)]
  }

  /** A full limit of them, and a consume when the window of time 0 is over. */
  function Crossed(max: nat, a: int, windowMs: int): seq<Sent>
    requires max >= 1
  {
    Behind(max, max - 1, a) + [Sent(Call(max, windowMs, max), windowMs)]
  }

  /** The younger head shields what is behind it. */
  ghost predicate YoungHead(arr: seq<Hit>, size: nat) {
    |arr| == size > 0 && arr[0].ts == 1 && forall h <- arr :: h.member < size
  }

  lemma {:induction false} ListGrows(arr: seq<Hit>, c: Call, size: nat, windowMs: int)
    requires windowMs > 0 && YoungHead(arr, size) && c == Call(c.max, 0, size) && size < c.max
    ensures YoungHead(Consume(arr, c, windowMs).0, size + 1)
  {
    assert Consume(arr, c, windowMs).0 == arr + [Hit(0, size)];
  }

  lemma {:induction false} ListBehind(max: nat, n: nat, a: int, windowMs: int)
    requires windowMs > 0 && n < max
    ensures YoungHead(ListAfter([], Behind(max, n, a), windowMs), n + 1)
  {
    if n == 0 {
      ListLast([], [], Sent(Call(max, 1, 0), 1), windowMs);
      assert [] + [Hit(1, 0)] == [Hit(1, 0)];
    } else {
      ListBehind(max, n - 1, a, windowMs);
      ListLast([], Behind(max, n - 1, a), Sent(Call(max, 0, n), a), windowMs);
      ListGrows(ListAfter([], Behind(max, n - 1, a), windowMs), Call(max, 0, n), n, windowMs);
    }
  }

  /** One entry of time 1, all others of time 0, none of them expired at the window's end. */
  ghost predicate OneAhead(k: ZKey, size: nat, windowMs: int) {
    && k.Present? && k.expireAt >= windowMs && |k.scores| == size
    && 0 in k.scores && k.scores[0] == 1
    && (forall m <- k.scores :: m < size && (m != 0 ==> k.scores[m] == 0))
  }

  lemma {:induction false} SetGrows(k: ZKey, c: Call, size: nat, a: int, windowMs: int)
    requires windowMs > 0 && OneAhead(k, size, windowMs) && c == Call(c.max, 0, size) && size < c.max && 0 <= a <= 1
    ensures OneAhead(ServerConsume(k, c, windowMs, a).0, size + 1, windowMs)
  {
    assert a <= k.expireAt;
    assert RemRange(Live(k, a), 0 - windowMs) == k.scores;
    assert size !in k.scores;
  }

  lemma {:induction false} FirstAhead(c: Call, windowMs: int)
    requires windowMs > 0 && c.max >= 1 && c.now == 1 && c.member == 0
    ensures OneAhead(ServerConsume(Absent, c, windowMs, 1).0, 1, windowMs)
  {
    assert RemRange(Live(Absent, 1), 1 - windowMs) == map[];
  }

  lemma {:induction false} SetFirst(c: Call, windowMs: int)
    requires windowMs > 0 && c == Call(c.max, 1, 0) && c.max >= 1
    ensures OneAhead(SetAfter(Absent, [] + [Sent(c, 1)], windowMs), 1, windowMs)
  {
    SetLast(Absent, [], Sent(c, 1), windowMs);
    FirstAhead(c, windowMs);
  }

  lemma {:induction false} SetBehind(max: nat, n: nat, a: int, windowMs: int)
    requires windowMs > 0 && n < max && 0 <= a <= 1
    ensures OneAhead(SetAfter(Absent, Behind(max, n, a), windowMs), n + 1, windowMs)
  {
    if n == 0 {
      SetFirst(Call(max, 1, 0), windowMs);
    } else {
      SetBehind(max, n - 1, a, windowMs);
      SetBehindNext(Behind(max, n - 1, a), Call(max, 0, n), n, a, windowMs);
    }
  }

  lemma {:induction false} SetBehindNext(xs: seq<Sent>, c: Call, size: nat, a: int, windowMs: int)
    requires windowMs > 0 && c == Call(c.max, 0, size) && size < c.max && 0 <= a <= 1
    requires OneAhead(SetAfter(Absent, xs, windowMs), size, windowMs)
    ensures OneAhead(SetAfter(Absent, xs + [Sent(c, a)], windowMs), size + 1, windowMs)
  {
    SetGrows(SetAfter(Absent, xs, windowMs), c, size, a, windowMs);
    SetLast(Absent, xs, Sent(c, a), windowMs);
  }

  lemma {:induction false} ListStaysFull(arr: seq<Hit>, c: Call, windowMs: int)
    requires YoungHead(arr, c.max) && c.now == windowMs
    ensures Consume(arr, c, windowMs).1 == Reply(false, c.max)
  {}

  lemma {:induction false} SetOpens(k: ZKey, c: Call, windowMs: int)
    requires c.max >= 2 && OneAhead(k, c.max, windowMs) && c.now == windowMs
    ensures ServerConsume(k, c, windowMs, windowMs).1 == Reply(true, 2)
  {
    assert RemRange(Live(k, windowMs), 0) == map[0 := 1];
  }

  lemma {:induction false} CrossedDisagrees(max: nat, a: int, windowMs: int)
    requires windowMs > 0 && max >= 2 && 0 <= a <= 1
    ensures !AnswerAlike(Crossed(max, a, windowMs), windowMs)
  {
    var xs, x := Behind(max, max - 1, a), Sent(Call(max, windowMs, max), windowMs);
    ListBehind(max, max - 1, a, windowMs);
    SetBehind(max, max - 1, a, windowMs);
    ListLast([], xs, x, windowMs);
    SetLast(Absent, xs, x, windowMs);
    ListStaysFull(ListAfter([], xs, windowMs), x.call, windowMs);
    SetOpens(SetAfter(Absent, xs, windowMs), x.call, windowMs);
  }

  lemma {:induction false} BehindAre(max: nat, n: nat, a: int)
    ensures |Behind(max, n, a)| == n + 1 && Behind(max, n, a)[0] == Sent(Call(max, 1, 0), 1)
    ensures forall i :: 1 <= i <= n ==> Behind(max, n, a)[i] == Sent(Call(max, 0, i), a)
  {
    if n > 0 { BehindAre(max, n - 1, a); }
  }

  lemma {:induction false} CrossedLegal(max: nat, a: int, windowMs: int)
    requires windowMs > 0 && max >= 1
    ensures LegalSent(Crossed(max, a, windowMs), max)
  {
    BehindAre(max, max - 1, a);
    var xs := Crossed(max, a, windowMs);
    forall i, j ensures FreshPair(xs, i, j) {}
  }

  lemma {:induction false} CrossedTimes(max: nat, windowMs: int, d: nat)
    requires windowMs > 0 && max >= 1 && d >= 1
    ensures OwnTimes(Crossed(max, 0, windowMs), d) && ServerTimes(Crossed(max, 1, windowMs), d)
  {
    BehindAre(max, max - 1, 0);
    BehindAre(max, max - 1, 1);
    forall i, j ensures SkewPair(Crossed(max, 0, windowMs), d, i, j) {}
    forall i, j ensures ServedPair(Crossed(max, 1, windowMs), i, j) {}
  }

  /** A key expires on the server's clock although the late request still has its entry in the window. */
  function Expired(windowMs: int): seq<Sent> { [Sent(Call(1, 0, 0), 0), Sent(Call(1, windowMs - 1, 1), windowMs + 1)] }

  lemma {:induction false} ExpiredDisagrees(windowMs: int, delay: nat)
    requires windowMs > 0 && delay >= 2
    ensures LegalSent(Expired(windowMs), 1) && ServerTimes(Expired(windowMs), delay)
    ensures !AnswerAlike(Expired(windowMs), windowMs)
  {
    var xs := Expired(windowMs);
    var rest := [Sent(Call(1, windowMs - 1, 1), windowMs + 1)];
    forall i, j ensures FreshPair(xs, i, j) {}
    forall i, j ensures ServedPair(xs, i, j) {}
    assert xs[1..] == rest && rest[1..] == [] && [] + [Hit(0, 0)] == [Hit(0, 0)];
    assert RemRange(Live(Absent, 0), 0 - windowMs) == map[];
    var k := Present(map[0 := 0], windowMs);
    assert RemRange(Live(k, windowMs + 1), -1) == map[];
    assert ListAnswers([Hit(0, 0)], rest, windowMs)[0] == Reply(false, 1);
    assert SetAnswers(k, rest, windowMs)[0] == Reply(true, 1);
    assert ListAnswers([], xs, windowMs)[1] == Reply(false, 1);
    assert SetAnswers(Absent, xs, windowMs)[1] == Reply(true, 1);
  }

  // ---- exactly --------------------------------------------------------------------------

  lemma {:induction false} OrderlyAnswers(xs: seq<Sent>, max: nat, windowMs: int)
    requires windowMs > 0 && LegalSent(xs, max) && OwnTimes(xs, 0)
    ensures AnswerAlike(xs, windowMs)
  {
    OrderAgrees([], Absent, xs, 0, windowMs);
  }

  /**
   The stores run at the requests' own times: over all consumes with one limit whose times cross by at
   most `skew`, list and sorted set answer alike if and only if no times cross or the limit is at most one.
   */
  lemma {:induction false} AlikeExactly(windowMs: int, skew: nat, max: nat)
    requires windowMs > 0
    ensures (forall xs :: LegalSent(xs, max) && OwnTimes(xs, skew) ==> AnswerAlike(xs, windowMs))
            <==> skew == 0 || max <= 1
  {
    if skew == 0 || max <= 1 {
      forall xs | LegalSent(xs, max) && OwnTimes(xs, skew) ensures AnswerAlike(xs, windowMs) {
        if max == 0 {
          NoneAgrees(xs, windowMs);
        } else if max == 1 {
          OneAgrees([], Absent, xs, windowMs);
        } else {
          OrderlyAnswers(xs, max, windowMs);
        }
      }
    } else {
      CrossedLegal(max, 0, windowMs);
      CrossedTimes(max, windowMs, skew);
      CrossedDisagrees(max, 0, windowMs);
    }
  }

  /**
   The sorted set runs on a server's clock: over all consumes with one limit that reach it at most `delay`
   behind their requests, the stores answer alike if and only if nothing is delayed, nothing is admitted, or
   a limit of one meets a delay of one.  From two milliseconds on the key can expire under a late request.
   */
  lemma {:induction false} ServerAlikeExactly(windowMs: int, delay: nat, max: nat)
    requires windowMs > 0
    ensures (forall xs :: LegalSent(xs, max) && ServerTimes(xs, delay) ==> AnswerAlike(xs, windowMs))
            <==> delay == 0 || max == 0 || (max == 1 && delay == 1)
  {
    if delay == 0 || max == 0 || (max == 1 && delay == 1) {
      forall xs | LegalSent(xs, max) && ServerTimes(xs, delay) ensures AnswerAlike(xs, windowMs) {
        if max == 0 {
          NoneAgrees(xs, windowMs);
        } else if max == 1 {
          OneAgrees([], Absent, xs, windowMs);
        } else {
          PunctualOwn(xs);
          OrderlyAnswers(xs, max, windowMs);
        }
      }
    } else if max == 1 {
      ExpiredDisagrees(windowMs, delay);
    } else {
      CrossedLegal(max, 1, windowMs);
      CrossedTimes(max, windowMs, delay);
      CrossedDisagrees(max, 1, windowMs);
    }
  }

  lemma {:induction false} PunctualOwn(xs: seq<Sent>)
    requires ServerTimes(xs, 0)
    ensures OwnTimes(xs, 0)
  {
    forall i, j ensures SkewPair(xs, 0, i, j) {
      if 0 <= i < j < |xs| { assert xs[i] in xs && xs[j] in xs && ServedPair(xs, i, j); }
    }
  }

  // ---- queries --------------------------------------------------------------------------

  /** Consumes and queries at their own times, which cross by at most `skew`. */
  ghost predicate LegalAsked(ops: seq<Op>, max: nat, skew: nat) {
    && (forall op <- ops :: OpTime(op) >= 0 && (op.Use? ==> op.call.max == max))
    && (forall i, j :: OpSkew(ops, skew, i, j)) && FreshFor([], ops)
  }

  predicate OpSkew(ops: seq<Op>, skew: nat, i: int, j: int) {
    0 <= i < j < |ops| ==> OpTime(ops[j]) >= OpTime(ops[i]) - skew
  }

  /** Leaving the queries out changes no consume's answer. */
  predicate QueriesHarmless(ops: seq<Op>, windowMs: int) {
    Replies(RedisRun(Absent, ops, windowMs)) == RedisRun(Absent, Uses(ops), windowMs)
  }

  lemma {:induction false} NothingToQuery(ops: seq<Op>, windowMs: int)
    requires forall op <- ops :: op.Use? ==> op.call.max == 0
    ensures QueriesHarmless(ops, windowMs)
    decreases |ops|
  {
    if ops != [] {
      assert ops[0] in ops;
      NothingToQuery(ops[1..], windowMs);
      var rest := RedisRun(Absent, ops[1..], windowMs);
      var ans := RedisStep(Absent, ops[0], windowMs).1;
      assert RedisRun(Absent, ops, windowMs) == [ans] + rest && ([ans] + rest)[1..] == rest;
      if ops[0].Use? {
        assert ([ops[0]] + Uses(ops[1..]))[1..] == Uses(ops[1..]);
      } else {
        assert [] + Uses(ops[1..]) == Uses(ops[1..]) && [] + Replies(rest) == Replies(rest);
      }
    }
  }

  function RunAfter(k: ZKey, ops: seq<Op>, windowMs: int): ZKey
    decreases |ops|
  {
    if ops == [] then k else RunAfter(RedisStep(k, ops[0], windowMs).0, ops[1..], windowMs)
  }

  lemma {:induction false} RunLast(k: ZKey, ops: seq<Op>, op: Op, windowMs: int)
    ensures RunAfter(k, ops + [op], windowMs) == RedisStep(RunAfter(k, ops, windowMs), op, windowMs).0
    ensures var r := RedisRun(k, ops + [op], windowMs);
            r != [] && Last(r) == RedisStep(RunAfter(k, ops, windowMs), op, windowMs).1
    decreases |ops|
  {
    if ops == [] {
      assert [] + [op] == [op] && [op][1..] == [];
    } else {
      assert (ops + [op])[1..] == ops[1..] + [op];
      RunLast(RedisStep(k, ops[0], windowMs).0, ops[1..], op, windowMs);
    }
  }

  lemma {:induction false} LastReply(answers: seq<Answer>)
    requires answers != [] && Last(answers).Used?
    ensures Replies(answers) != [] && Last(Replies(answers)) == Last(answers)
  {
    if |answers| == 1 {
      assert answers[1..] == [] && answers == [answers[0]];
    } else {
      LastReply(answers[1..]);
    }
  }

  lemma {:induction false} UsesSnoc(ops: seq<Op>, op: Op)
    ensures Uses(ops + [op]) == Uses(ops) + (if op.Use? then [op] else [])
  {
    if ops == [] {
      assert [] + [op] == [op] && [op][1..] == [];
    } else {
      assert (ops + [op])[1..] == ops[1..] + [op];
      UsesSnoc(ops[1..], op);
      UsesHead(ops + [op]);
      UsesHead(ops);
    }
  }

  lemma {:induction false} UsesHead(ops: seq<Op>)
    requires ops != []
    ensures Uses(ops) == (if ops[0].Use? then [ops[0]] else []) + Uses(ops[1..])
  {}

  /** A full limit at time 0. */
  function Filling(max: nat, n: nat): seq<Op> {
    if n == 0 then [] else Filling(max, n - 1) + [Use(Call(max, 0, n - 1))]
  }

  /** A query when its window is over, and a consume from before that. */
  function Asked(max: nat, windowMs: int): seq<Op> {
    Filling(max, max) + [Ask(windowMs)] + [Use(Call(max, windowMs - 1, max))]
  }

  /** Only entries of time 0, alive up to the window's end. */
  ghost predicate AllOld(k: ZKey, size: nat, windowMs: int) {
    && (size == 0 ==> k == Absent)
    && (size > 0 ==> k.Present? && k.expireAt == windowMs && |k.scores| == size
                     && forall m <- k.scores :: m < size && k.scores[m] == 0)
  }

  lemma {:induction false} OldGrows(k: ZKey, c: Call, size: nat, windowMs: int)
    requires windowMs > 0 && AllOld(k, size, windowMs) && c == Call(c.max, 0, size) && size < c.max
    ensures AllOld(RedisStep(k, Use(c), windowMs).0, size + 1, windowMs)
  {
    assert RemRange(Live(k, 0), 0 - windowMs) == Live(k, 0);
    assert size !in Live(k, 0);
  }

  lemma {:induction false} FillingOld(max: nat, n: nat, windowMs: int)
    requires windowMs > 0 && n <= max
    ensures AllOld(RunAfter(Absent, Filling(max, n), windowMs), n, windowMs)
    ensures Uses(Filling(max, n)) == Filling(max, n)
  {
    if n > 0 {
      FillingOld(max, n - 1, windowMs);
      RunLast(Absent, Filling(max, n - 1), Use(Call(max, 0, n - 1)), windowMs);
      OldGrows(RunAfter(Absent, Filling(max, n - 1), windowMs), Call(max, 0, n - 1), n - 1, windowMs);
      UsesSnoc(Filling(max, n - 1), Use(Call(max, 0, n - 1)));
    }
  }

  /** The query empties the key, so the late consume is admitted. */
  lemma {:induction false} QueryOpens(k: ZKey, max: nat, windowMs: int)
    requires windowMs > 0 && max >= 1 && AllOld(k, max, windowMs)
    ensures var z := RedisStep(k, Ask(windowMs), windowMs).0;
            RedisStep(z, Use(Call(max, windowMs - 1, max)), windowMs).1 == Used(Reply(true, 1))
  {
    assert RemRange(Live(k, windowMs), 0) == map[];
    assert RemRange(Live(Absent, windowMs - 1), -1) == map[];
  }

  /** Without the query the key is still full. */
  lemma {:induction false} StillFull(k: ZKey, max: nat, windowMs: int)
    requires windowMs > 0 && max >= 1 && AllOld(k, max, windowMs)
    ensures RedisStep(k, Use(Call(max, windowMs - 1, max)), windowMs).1 == Used(Reply(false, max))
  {
    assert RemRange(Live(k, windowMs - 1), -1) == k.scores;
  }

  lemma {:induction false} QueryMatters(max: nat, windowMs: int)
    requires windowMs > 0 && max >= 1
    ensures !QueriesHarmless(Asked(max, windowMs), windowMs)
  {
    var xs, ask, late := Filling(max, max), Ask(windowMs), Use(Call(max, windowMs - 1, max));
    var k := RunAfter(Absent, xs, windowMs);
    FillingOld(max, max, windowMs);
    RunLast(Absent, xs, ask, windowMs);
    RunLast(Absent, xs + [ask], late, windowMs);
    QueryOpens(k, max, windowMs);
    LastReply(RedisRun(Absent, Asked(max, windowMs), windowMs));
    UsesSnoc(xs, ask);
    UsesSnoc(xs + [ask], late);
    assert xs + [] == xs && Uses(Asked(max, windowMs)) == xs + [late];
    RunLast(Absent, xs, late, windowMs);
    StillFull(k, max, windowMs);
  }

  lemma {:induction false} FillingAre(max: nat, n: nat)
    ensures |Filling(max, n)| == n && forall i :: 0 <= i < n ==> Filling(max, n)[i] == Use(Call(max, 0, i))
  {
    if n > 0 { FillingAre(max, n - 1); }
  }

  lemma {:induction false} AskedLegal(max: nat, windowMs: int, skew: nat)
    requires windowMs > 0 && skew >= 1
    ensures LegalAsked(Asked(max, windowMs), max, skew)
  {
    FillingAre(max, max);
    var ops := Asked(max, windowMs);
    forall i, j ensures OpSkew(ops, skew, i, j) {}
    assert FreshFor([], ops);
  }

  lemma {:induction false} OrderlyQueries(ops: seq<Op>, max: nat, windowMs: int)
    requires windowMs > 0 && LegalAsked(ops, max, 0)
    ensures QueriesHarmless(ops, windowMs)
  {
    forall i | 0 <= i < |ops| ensures 0 <= OpTime(ops[i]) { assert ops[i] in ops; }
    forall i, j | 0 <= i < j < |ops| ensures OpTime(ops[i]) <= OpTime(ops[j]) { assert OpSkew(ops, 0, i, j); }
    QueriesChangeNothing(ops, windowMs);
  }

  /**
   A query prunes the sorted set.  Over all consumes and queries with one limit whose times cross by at most
   `skew`, no query changes a consume's answer if and only if no times cross or nothing is admitted.
   */
  lemma {:induction false} QueriesExactly(windowMs: int, skew: nat, max: nat)
    requires windowMs > 0
    ensures (forall ops :: LegalAsked(ops, max, skew) ==> QueriesHarmless(ops, windowMs))
            <==> skew == 0 || max == 0
  {
    if skew == 0 || max == 0 {
      forall ops | LegalAsked(ops, max, skew) ensures QueriesHarmless(ops, windowMs) {
        if max == 0 { NothingToQuery(ops, windowMs); } else { OrderlyQueries(ops, max, windowMs); }
      }
    } else {
      AskedLegal(max, windowMs, skew);
      QueryMatters(max, windowMs);
    }
  }
}
