/** The Lua version of the atomic consume, and when it agrees with the in-memory one. */
module RedisConsume {
  import opened Options
  import opened Escrow
  import opened LedgerModel

  /** A decoded JSON hint.  `Null` is a value that Lua takes for true. */
  datatype LuaHint = Null | Key(pk: string)

  datatype LuaNonce = LuaNonce(amount: int, used: bool, hint: LuaHint, expireAt: int)

  datatype Redis = Redis(escrow: Balances, nonces: map<string, LuaNonce>)

  function Encode(hint: Option<string>): LuaHint { if hint.Some? then Key(hint.value) else Null }

  predicate Alive(r: Redis, nonce: string, now: int) { nonce in r.nonces && now <= r.nonces[nonce].expireAt }

  /** Seconds, rounded up, at least one. */
  function TtlSeconds(ttlMs: int): int {
    var s := (ttlMs + 999) / 1000;
    if s < 1 then 1 else s
  }

  /** A key outlives its nonce, by less than a second. */
  lemma {:induction false} KeyOutlivesNonce(ttlMs: int)
    requires ttlMs > 0
    ensures ttlMs <= 1000 * TtlSeconds(ttlMs) < ttlMs + 1000
  {}

  function RedisSetNonce(r: Redis, nonce: string, amount: int, hint: Option<string>, now: int): Redis {
    r.(nonces := r.nonces[nonce := LuaNonce(amount, false, Encode(Bind(hint)), now + 1000 * TtlSeconds(NONCE_TTL_MS))])
  }

  function LuaVerdict(r: Redis, nonce: string, pk: string, amount: int, now: int): Reply {
    if !Alive(r, nonce, now) then Reply(false, NonceNotFound, 0)
    else
      var n := r.nonces[nonce];
      if n.used then Reply(false, NonceAlreadyUsed, 0)
      else if amount < n.amount then Reply(false, InsufficientPayment, 0)
      else if n.hint != Key(pk) then Reply(false, HintMismatch, 0)
      else if Balance(r.escrow, pk) < amount then Reply(false, InsufficientBalance, Balance(r.escrow, pk))
      else Reply(true, Ok, Balance(r.escrow, pk) - amount)
  }

  /** The used nonce is written back with its remaining life, at least one millisecond. */
  function LuaConsume(r: Redis, nonce: string, pk: string, amount: int, now: int): Redis {
    var v := LuaVerdict(r, nonce, pk, amount, now);
    if v.ok && nonce in r.nonces then
      var n := r.nonces[nonce];
      var ttl := if n.expireAt - now < 1 then 1 else n.expireAt - now;
      Redis(r.escrow[pk := v.balance], r.nonces[nonce := n.(used := true, expireAt := now + ttl)])
    else r
  }

  predicate Live(s: Store, nonce: string, now: int) { nonce in s.nonces && now <= s.nonces[nonce].expiresAt }

  // ---- one call -------------------------------------------------------------------------

  ghost predicate SameNonce(s: Store, r: Redis, nonce: string, now: int) {
    && Live(s, nonce, now) && Alive(r, nonce, now)
    && var a, b := s.nonces[nonce], r.nonces[nonce];
       a.amount == b.amount && a.used == b.used && Encode(a.hint) == b.hint && b.expireAt >= a.expiresAt
  }

  ghost predicate SameBalances(s: Store, r: Redis) { forall pk :: Balance(s.escrow, pk) == Balance(r.escrow, pk) }

  /**
   On a live nonce the two stores answer alike and move the same amount, except for one family:
   an unused nonce issued without a hint and offered enough.  Lua refuses it as a hint mismatch.
   */
  lemma {:induction false} ConsumeAgreesExactly(s: Store, r: Redis, nonce: string, pk: string, amount: int, now: int)
    requires SameNonce(s, r, nonce, now) && SameBalances(s, r)
    ensures var n := s.nonces[nonce];
            (&& Verdict(s, nonce, pk, amount, now) == LuaVerdict(r, nonce, pk, amount, now)
             && SameBalances(Consume(s, nonce, pk, amount, now), LuaConsume(r, nonce, pk, amount, now)))
            <==> !(n.hint.None? && !n.used && amount >= n.amount)
  {
    var n := s.nonces[nonce];
    assert Balance(s.escrow, pk) == Balance(r.escrow, pk);
    if !(n.hint.None? && !n.used && amount >= n.amount) {
      forall q ensures Balance(Consume(s, nonce, pk, amount, now).escrow, q)
                    == Balance(LuaConsume(r, nonce, pk, amount, now).escrow, q)
      {
        assert Balance(s.escrow, q) == Balance(r.escrow, q);
      }
    }
  }

  /** The disagreement, on a funded account and a quote without a hint. */
  lemma {:induction false} UnhintedNonceRefusedByLua()
    ensures var s := SetNonce(Store(map["agent" := 50], map[], map[]), "n", 20, None, 0);
            var r := RedisSetNonce(Redis(map["agent" := 50], map[]), "n", 20, None, 0);
            && SameNonce(s, r, "n", 1) && SameBalances(s, r)
            && Verdict(s, "n", "agent", 20, 1) == Reply(true, Ok, 30)
            && LuaVerdict(r, "n", "agent", 20, 1) == Reply(false, HintMismatch, 0)
  {}

  // ---- whole runs -----------------------------------------------------------------------

  datatype Op =
    | Fund(pk: string, amount: int)
    | Issue(nonce: string, price: int, hint: Option<string>)
    | Spend(nonce: string, pk: string, amount: int)
    | Tidy                                              // the in-memory sweeper; Redis expires keys by itself

  datatype Timed = Timed(op: Op, at: int)

  function MemDo(s: Store, x: Timed): Store {
    match x.op
    case Fund(pk, amount) => IncrEscrow(s, pk, amount)
    case Issue(nonce, price, hint) => SetNonce(s, nonce, price, hint, x.at)
    case Spend(nonce, pk, amount) => Consume(s, nonce, pk, amount, x.at)
    case Tidy => SweepNonces(s, x.at)
  }

  function RedisDo(r: Redis, x: Timed): Redis {
    match x.op
    case Fund(pk, amount) => r.(escrow := r.escrow[pk := Balance(r.escrow, pk) + amount])
    case Issue(nonce, price, hint) => RedisSetNonce(r, nonce, price, hint, x.at)
    case Spend(nonce, pk, amount) => LuaConsume(r, nonce, pk, amount, x.at)
    case Tidy => r
  }

  /** What the payers are told, with the in-memory liveness of each nonce at that moment. */
  function MemReplies(s: Store, ops: seq<Timed>): seq<(Reply, bool)>
    decreases |ops|
  {
    if ops == [] then []
    else
      var x := ops[0];
      (if x.op.Spend? then [(Verdict(s, x.op.nonce, x.op.pk, x.op.amount, x.at), Live(s, x.op.nonce, x.at))] else [])
      + MemReplies(MemDo(s, x), ops[1..])
  }

  function RedisReplies(r: Redis, ops: seq<Timed>): seq<Reply>
    decreases |ops|
  {
    if ops == [] then []
    else
      var x := ops[0];
      (if x.op.Spend? then [LuaVerdict(r, x.op.nonce, x.op.pk, x.op.amount, x.at)] else [])
      + RedisReplies(RedisDo(r, x), ops[1..])
  }

  ghost predicate Forward(ops: seq<Timed>, now: int) {
    && (forall i :: 0 <= i < |ops| ==> now <= ops[i].at)
    && (forall i, j :: 0 <= i < j < |ops| ==> ops[i].at <= ops[j].at)
  }

  ghost predicate AllHinted(ops: seq<Timed>) {
    forall i :: 0 <= i < |ops| && ops[i].op.Issue? ==> Bind(ops[i].op.hint).Some?
  }

  /** What is live in memory is alive in Redis and equal; what is alive and unused in Redis is live in memory. */
  ghost predicate NoncesMatch(s: Store, r: Redis, now: int) {
    && (forall n :: Live(s, n, now) ==> SameNonce(s, r, n, now) && s.nonces[n].hint.Some?
                                        && (!s.nonces[n].used ==> r.nonces[n].expireAt == s.nonces[n].expiresAt))
    && (forall n :: Alive(r, n, now) && !r.nonces[n].used ==> Live(s, n, now))
  }

  ghost predicate Match(s: Store, r: Redis, now: int) { SameBalances(s, r) && NoncesMatch(s, r, now) }

  lemma {:induction false} MatchLater(s: Store, r: Redis, now: int, then': int)
    requires Match(s, r, now) && now <= then'
    ensures Match(s, r, then')
  {
    forall n | Live(s, n, then') ensures Live(s, n, now) {}
    forall n | Alive(r, n, then') && !r.nonces[n].used ensures Live(s, n, then') {
      assert Alive(r, n, now) && Live(s, n, now);
    }
  }

  /** Replies on dead nonces: both refuse and quote no balance. */
  lemma {:induction false} SpendReplies(s: Store, r: Redis, nonce: string, pk: string, amount: int, now: int)
    requires Match(s, r, now)
    ensures var m, l := Verdict(s, nonce, pk, amount, now), LuaVerdict(r, nonce, pk, amount, now);
            m.ok == l.ok && m.balance == l.balance && (Live(s, nonce, now) ==> m == l)
  {
    if Live(s, nonce, now) {
      assert SameNonce(s, r, nonce, now);
      assert Balance(s.escrow, pk) == Balance(r.escrow, pk);
    }
  }

  lemma {:induction false} SpendMatches(s: Store, r: Redis, nonce: string, pk: string, amount: int, now: int)
    requires Match(s, r, now)
    ensures Match(Consume(s, nonce, pk, amount, now), LuaConsume(r, nonce, pk, amount, now), now)
  {
    SpendReplies(s, r, nonce, pk, amount, now);
    var s', r' := Consume(s, nonce, pk, amount, now), LuaConsume(r, nonce, pk, amount, now);
    if Verdict(s, nonce, pk, amount, now).ok {
      assert Live(s, nonce, now) && SameNonce(s, r, nonce, now);
      ConsumeAgreesExactly(s, r, nonce, pk, amount, now);
      forall n | Live(s', n, now) ensures SameNonce(s', r', n, now) && s'.nonces[n].hint.Some?
               && (!s'.nonces[n].used ==> r'.nonces[n].expireAt == s'.nonces[n].expiresAt) {
        assert Live(s, n, now);
      }
      forall n | Alive(r', n, now) && !r'.nonces[n].used ensures Live(s', n, now) {
        assert n != nonce && Alive(r, n, now);
      }
    }
  }

  lemma {:induction false} IssueMatches(s: Store, r: Redis, nonce: string, price: int, hint: Option<string>, now: int)
    requires Match(s, r, now) && Bind(hint).Some?
    ensures Match(SetNonce(s, nonce, price, hint, now), RedisSetNonce(r, nonce, price, hint, now), now)
  {
    var s', r' := SetNonce(s, nonce, price, hint, now), RedisSetNonce(r, nonce, price, hint, now);
    forall n | Live(s', n, now) && n != nonce ensures Live(s, n, now) {}
    forall n | Alive(r', n, now) && !r'.nonces[n].used ensures Live(s', n, now) {
      if n != nonce { assert Alive(r, n, now); }
    }
  }

  lemma {:induction false} StepMatches(s: Store, r: Redis, x: Timed, now: int)
    requires Match(s, r, now) && now <= x.at && (x.op.Issue? ==> Bind(x.op.hint).Some?)
    ensures Match(MemDo(s, x), RedisDo(r, x), x.at)
  {
    MatchLater(s, r, now, x.at);
    match x.op
    case Fund(pk, amount) =>
      forall q ensures Balance(MemDo(s, x).escrow, q) == Balance(RedisDo(r, x).escrow, q) {
        assert Balance(s.escrow, q) == Balance(r.escrow, q) && Balance(s.escrow, pk) == Balance(r.escrow, pk);
      }
      NoncesUntouched(s, r, MemDo(s, x), RedisDo(r, x), x.at);
    case Issue(nonce, price, hint) => IssueMatches(s, r, nonce, price, hint, x.at);
    case Spend(nonce, pk, amount) => SpendMatches(s, r, nonce, pk, amount, x.at);
    case Tidy => TidyMatches(s, r, x.at);
  }

  lemma {:induction false} NoncesUntouched(s: Store, r: Redis, s': Store, r': Redis, now: int)
    requires NoncesMatch(s, r, now) && s'.nonces == s.nonces && r'.nonces == r.nonces
    ensures NoncesMatch(s', r', now)
  {
    forall n | Live(s', n, now) ensures Live(s, n, now) {}
    forall n | Alive(r', n, now) && !r'.nonces[n].used
      ensures Live(s', n, now)
    {
      assert Alive(r, n, now);
      assert Live(s, n, now);
    }
  }

  lemma {:induction false} TidyMatches(s: Store, r: Redis, now: int)
    requires Match(s, r, now)
    ensures Match(SweepNonces(s, now), r, now)
  {
    var s' := SweepNonces(s, now);
    forall n ensures Live(s', n, now) <==> Live(s, n, now) {}
  }

  /**
   Whole runs over hinted nonces: every spend is accepted by both stores or by neither and reports
   the same balance, and for a nonce still live in memory the reason is the same too.
   */
  lemma {:induction false} RunsAgree(s: Store, r: Redis, ops: seq<Timed>, now: int)
    requires Match(s, r, now) && Forward(ops, now) && AllHinted(ops)
    ensures var m, l := MemReplies(s, ops), RedisReplies(r, ops);
            && |m| == |l|
            && forall i :: 0 <= i < |m| ==>
                 m[i].0.ok == l[i].ok && m[i].0.balance == l[i].balance && (m[i].1 ==> m[i].0 == l[i])
    decreases |ops|
  {
    if ops != [] {
      var x := ops[0];
      StepMatches(s, r, x, now);
      MatchLater(s, r, now, x.at);
      if x.op.Spend? {
        SpendReplies(s, r, x.op.nonce, x.op.pk, x.op.amount, x.at);
      }
      RunsAgree(MemDo(s, x), RedisDo(r, x), ops[1..], x.at);
    }
  }

  /** From empty stores. */
  lemma {:induction false} ConsumeRefinement(ops: seq<Timed>, now: int)
    requires Forward(ops, now) && AllHinted(ops)
    ensures var m, l := MemReplies(Store(map[], map[], map[]), ops), RedisReplies(Redis(map[], map[]), ops);
            && |m| == |l|
            && forall i :: 0 <= i < |m| ==>
                 m[i].0.ok == l[i].ok && m[i].0.balance == l[i].balance && (m[i].1 ==> m[i].0 == l[i])
  {
    RunsAgree(Store(map[], map[], map[]), Redis(map[], map[]), ops, now);
  }
}
