/** The mass-ban guard: fixed windows that open at the first request after the last one ran out. */
module MassBan {
  import opened Options

  datatype Window = Window(count: nat, expiresAt: int)

  type Counters = map<string, Window>

  function Incr(c: Counters, scope: string, ttlMs: int, now: int): Counters {
    if scope !in c || c[scope].expiresAt <= now then c[scope := Window(1, now + ttlMs)]
    else c[scope := Window(c[scope].count + 1, c[scope].expiresAt)]
  }

  /** One increment, from any request and any admin key. */
  datatype Op = Op(scope: string, now: int)

  function Run(ops: seq<Op>, ttlOf: string -> int): Counters {
    if ops == [] then map[]
    else
      var o := ops[|ops| - 1];
      Incr(Run(ops[..|ops| - 1], ttlOf), o.scope, ttlOf(o.scope), o.now)
  }

  /** The count the last increment of `ops` returned. */
  function LastCount(ops: seq<Op>, ttlOf: string -> int): nat
    requires ops != []
  {
    var o := ops[|ops| - 1];
    var c := Run(ops, ttlOf);
    if o.scope in c then c[o.scope].count else 0
  }

  /** Increments of `scope` in [from, to) that returned at most `max`: the requests this scope let through. */
  function PassedIn(ops: seq<Op>, ttlOf: string -> int, scope: string, max: nat, from: int, to: int): nat {
    if ops == [] then 0
    else
      var o := ops[|ops| - 1];
      PassedIn(ops[..|ops| - 1], ttlOf, scope, max, from, to)
      + (if o.scope == scope && LastCount(ops, ttlOf) <= max && from <= o.now < to then 1 else 0)
  }

  ghost predicate ClockForward(ops: seq<Op>) { forall i, j :: 0 <= i < j < |ops| ==> ops[i].now <= ops[j].now }

  datatype Failure = NoFailure | AtFirst | AtSecond

  datatype Verdict = Passes | Throttled | Unavailable

  /** A limit configured as 0 falls back to the default. */
  function Limit(configured: nat, default: nat): nat { if configured == 0 then default else configured }

  class Guard {
    var massBanCounters: Counters

    constructor ()
      ensures massBanCounters == map[]
    {
      massBanCounters := map[];
    }

    method IncrMassBanCounter(scope: string, ttlMs: int, now: int) returns (count: nat)
      modifies this
      ensures massBanCounters == Incr(old(massBanCounters), scope, ttlMs, now)
      ensures count == massBanCounters[scope].count && count >= 1
    {
      if scope !in massBanCounters || massBanCounters[scope].expiresAt <= now {
        massBanCounters := massBanCounters[scope := Window(1, now + ttlMs)];
        return 1;
      }
      var entry := massBanCounters[scope];
      massBanCounters := massBanCounters[scope := Window(entry.count + 1, entry.expiresAt)];
      return entry.count + 1;
    }

    /**
     Both counters are charged whatever the answer, and the request passes only within both limits.
     A store that fails, at the first increment or the second, blocks the request.
     */
    method MassBanGuard(keyId: string, now: int, perKeyMax: nat, globalMax: nat, failure: Failure) returns (v: Verdict)
      modifies this
      ensures var before := old(massBanCounters);
              var c := Incr(before, KeyScope(keyId), PER_KEY_TTL, now);
              var d := Incr(c, GLOBAL_SCOPE, GLOBAL_TTL, now);
              && massBanCounters == (match failure case AtFirst => before case AtSecond => c case NoFailure => d)
              && (v == Unavailable <==> failure != NoFailure)
              && (v == Passes <==> failure == NoFailure
                                   && c[KeyScope(keyId)].count <= (if perKeyMax == 0 then 10 else perKeyMax)
                                   && d[GLOBAL_SCOPE].count <= (if globalMax == 0 then 50 else globalMax))
    {
      if failure == AtFirst { return Unavailable; }
      var perKey := IncrMassBanCounter(KeyScope(keyId), PER_KEY_TTL, now);
      if failure == AtSecond { return Unavailable; }
      var global := IncrMassBanCounter(GLOBAL_SCOPE, GLOBAL_TTL, now);
      return if perKey > Limit(perKeyMax, 10) || global > Limit(globalMax, 50) then Throttled else Passes;
    }
  }

  const PER_KEY_TTL: int := 60_000
  const GLOBAL_TTL: int := 3_600_000
  const GLOBAL_SCOPE: string := "rl:massban:global"

  function KeyScope(keyId: string): string { "rl:massban:keyid:" + keyId }

  // ---- how many pass --------------------------------------------------------------------

  function Min(a: int, b: int): int { if a < b then a else b }

  /** The most that can pass in any interval of one window's length. */
  function IntervalLimit(max: nat): nat { if max == 0 then 0 else 2 * max - 1 }

  lemma {:induction false} NoneBefore(ops: seq<Op>, ttlOf: string -> int, scope: string, max: nat, from: int, to: int)
    requires forall i :: 0 <= i < |ops| && ops[i].scope == scope ==> ops[i].now < from
    ensures PassedIn(ops, ttlOf, scope, max, from, to) == 0
  {
    if ops != [] {
      NoneBefore(ops[..|ops| - 1], ttlOf, scope, max, from, to);
    }
  }

  /** A scope has a window once it has been charged, and every charge fell before the window's end. */
  ghost predicate WindowOk(ops: seq<Op>, ttlOf: string -> int, scope: string) {
    var c := Run(ops, ttlOf);
    && (scope !in c ==> forall i :: 0 <= i < |ops| ==> ops[i].scope != scope)
    && (scope in c ==> c[scope].count >= 1
                       && (forall i :: 0 <= i < |ops| && ops[i].scope == scope ==> ops[i].now < c[scope].expiresAt)
                       && exists i :: 0 <= i < |ops| && ops[i].now == c[scope].expiresAt - ttlOf(scope))
  }

  lemma {:induction false} WindowsOk(ops: seq<Op>, ttlOf: string -> int, scope: string)
    requires ttlOf(scope) > 0 && ClockForward(ops)
    ensures WindowOk(ops, ttlOf, scope)
  {
    if ops != [] {
      var n := |ops| - 1;
      WindowsOk(ops[..n], ttlOf, scope);
      var c, d := Run(ops[..n], ttlOf), Run(ops, ttlOf);
      assert forall i :: 0 <= i < n ==> ops[i] == ops[..n][i];
      if scope in d {
        if scope in c && c[scope].expiresAt == d[scope].expiresAt {
          var i :| 0 <= i < n && ops[..n][i].now == c[scope].expiresAt - ttlOf(scope);
          assert ops[i].now == d[scope].expiresAt - ttlOf(scope);
        } else {
          assert ops[n].now == d[scope].expiresAt - ttlOf(scope);
        }
      }
    }
  }

  /** How far the count of passes can have come, by where the current window opened. */
  function Reached(w: Window, start: int, max: nat, from: int, to: int): int {
    if start < from then (if max == 0 then 0 else Min(w.count, max) - 1)
    else if start < to then (if max == 0 then 0 else max - 1) + Min(w.count, max)
    else IntervalLimit(max)
  }

  function Reaches(c: Counters, scope: string, ttl: int, max: nat, from: int): int {
    if scope in c then Reached(c[scope], c[scope].expiresAt - ttl, max, from, from + ttl) else 0
  }

  /** One more charge of the scope moves the count of passes no further than its window allows. */
  lemma {:induction false} ChargeReaches(c: Counters, scope: string, ttl: int, now: int, max: nat, from: int, p: nat)
    requires ttl > 0 && p <= Reaches(c, scope, ttl, max, from)
    requires scope in c ==> c[scope].count >= 1 && c[scope].expiresAt - ttl <= now
    requires now < from ==> p == 0
    ensures var d := Incr(c, scope, ttl, now);
            p + (if d[scope].count <= max && from <= now < from + ttl then 1 else 0)
            <= Reaches(d, scope, ttl, max, from)
  {}

  lemma {:induction false} PassedInSnoc(ops: seq<Op>, o: Op, ttlOf: string -> int, scope: string, max: nat, from: int,
                                        to: int)
    ensures Run(ops + [o], ttlOf) == Incr(Run(ops, ttlOf), o.scope, ttlOf(o.scope), o.now)
    ensures PassedIn(ops + [o], ttlOf, scope, max, from, to)
         == PassedIn(ops, ttlOf, scope, max, from, to)
            + (if o.scope == scope && from <= o.now < to
                  && Incr(Run(ops, ttlOf), scope, ttlOf(scope), o.now)[scope].count <= max
               then 1 else 0)
  {
    assert (ops + [o])[..|ops|] == ops;
  }

  /** Every earlier charge of the scope lies before `now`, which lies before the interval. */
  lemma {:induction false} PassesNoneYet(ops: seq<Op>, ttlOf: string -> int, scope: string, max: nat, from: int)
    requires ClockForward(ops) && ops != [] && ops[|ops| - 1].now < from
    ensures PassedIn(ops[..|ops| - 1], ttlOf, scope, max, from, from + ttlOf(scope)) == 0
  {
    var n := |ops| - 1;
    forall i | 0 <= i < n ensures ops[..n][i].now < from { assert ops[i].now <= ops[n].now; }
    NoneBefore(ops[..n], ttlOf, scope, max, from, from + ttlOf(scope));
  }

  /** The window open now was opened by an earlier charge. */
  lemma {:induction false} WindowOpenedBefore(ops: seq<Op>, ttlOf: string -> int, scope: string)
    requires ttlOf(scope) > 0 && ClockForward(ops) && ops != []
    ensures var c := Run(ops[..|ops| - 1], ttlOf);
            scope in c ==> c[scope].count >= 1 && c[scope].expiresAt - ttlOf(scope) <= ops[|ops| - 1].now
  {
    var n := |ops| - 1;
    WindowsOk(ops[..n], ttlOf, scope);
    var c := Run(ops[..n], ttlOf);
    if scope in c {
      var i :| 0 <= i < n && ops[..n][i].now == c[scope].expiresAt - ttlOf(scope);
      assert ops[i].now <= ops[n].now;
    }
  }

  lemma {:induction false} PassesReached(ops: seq<Op>, ttlOf: string -> int, scope: string, max: nat, from: int)
    requires ttlOf(scope) > 0 && ClockForward(ops)
    ensures PassedIn(ops, ttlOf, scope, max, from, from + ttlOf(scope))
         <= Reaches(Run(ops, ttlOf), scope, ttlOf(scope), max, from)
  {
    if ops != [] {
      var pre, o := ops[..|ops| - 1], ops[|ops| - 1];
      var ttl := ttlOf(scope);
      PassesReached(pre, ttlOf, scope, max, from);
      assert pre + [o] == ops;
      PassedInSnoc(pre, o, ttlOf, scope, max, from, from + ttl);
      if o.scope == scope {
        WindowOpenedBefore(ops, ttlOf, scope);
        if o.now < from { PassesNoneYet(ops, ttlOf, scope, max, from); }
        ChargeReaches(Run(pre, ttlOf), scope, ttl, o.now, max, from,
                      PassedIn(pre, ttlOf, scope, max, from, from + ttl));
      }
    }
  }

  /**
   Over any interleaving of admin keys, a scope lets at most 2 * max - 1 requests through in any
   interval as long as its window.
   */
  lemma {:induction false} IntervalBound(ops: seq<Op>, ttlOf: string -> int, scope: string, max: nat, from: int)
    requires ttlOf(scope) > 0 && ClockForward(ops)
    ensures PassedIn(ops, ttlOf, scope, max, from, from + ttlOf(scope)) <= IntervalLimit(max)
  {
    PassesReached(ops, ttlOf, scope, max, from);
  }

  /** One counter window lets at most `max` through. */
  lemma {:induction false} WindowLimit(ops: seq<Op>, ttlOf: string -> int, scope: string, max: nat)
    requires ttlOf(scope) > 0 && ClockForward(ops) && scope in Run(ops, ttlOf)
    ensures var w := Run(ops, ttlOf)[scope];
            PassedIn(ops, ttlOf, scope, max, w.expiresAt - ttlOf(scope), w.expiresAt) <= Min(w.count, max)
  {
    var pre, o := ops[..|ops| - 1], ops[|ops| - 1];
    var c, d := Run(pre, ttlOf), Run(ops, ttlOf);
    var start, end := d[scope].expiresAt - ttlOf(scope), d[scope].expiresAt;
    assert pre + [o] == ops;
    PassedInSnoc(pre, o, ttlOf, scope, max, start, end);
    WindowsOk(pre, ttlOf, scope);
    if scope in c && c[scope].expiresAt == end {
      WindowLimit(pre, ttlOf, scope, max);
    } else {
      NoneBefore(pre, ttlOf, scope, max, start, end);
    }
  }

  // ---- the bound is attained ------------------------------------------------------------

  function Repeat(o: Op, k: nat): seq<Op> { seq(k, _ => o) }

  /** Charges at one instant inside a window all pass while the count stays within `max`. */
  lemma {:induction false} BurstPasses(ops: seq<Op>, o: Op, k: nat, ttlOf: string -> int, max: nat, from: int, to: int)
    requires o.scope in Run(ops, ttlOf) && o.now < Run(ops, ttlOf)[o.scope].expiresAt
    requires Run(ops, ttlOf)[o.scope].count + k <= max && from <= o.now < to
    ensures var w := Run(ops, ttlOf)[o.scope];
            var c := Run(ops + Repeat(o, k), ttlOf);
            && o.scope in c && c[o.scope] == Window(w.count + k, w.expiresAt)
            && PassedIn(ops + Repeat(o, k), ttlOf, o.scope, max, from, to)
               == PassedIn(ops, ttlOf, o.scope, max, from, to) + k
  {
    if k == 0 {
      assert ops + Repeat(o, 0) == ops;
    } else {
      BurstPasses(ops, o, k - 1, ttlOf, max, from, to);
      assert ops + Repeat(o, k) == (ops + Repeat(o, k - 1)) + [o];
      PassedInSnoc(ops + Repeat(o, k - 1), o, ttlOf, o.scope, max, from, to);
    }
  }

  /** One request opens a window, the rest of the limit comes at its last instant, a full limit at the next. */
  function WorstCase(scope: string, ttl: int, max: nat): seq<Op>
    requires max >= 1
  {
    FullWindow(scope, ttl, max) + [Op(scope, ttl)] + Repeat(Op(scope, ttl), max - 1)
  }

  function FullWindow(scope: string, ttl: int, max: nat): seq<Op>
    requires max >= 1
  {
    [Op(scope, 0)] + Repeat(Op(scope, ttl - 1), max - 1)
  }

  lemma {:induction false} IntervalBoundIsTight(scope: string, ttlOf: string -> int, max: nat)
    requires ttlOf(scope) >= 2 && max >= 1
    ensures ClockForward(WorstCase(scope, ttlOf(scope), max))
    ensures PassedIn(WorstCase(scope, ttlOf(scope), max), ttlOf, scope, max, 1, 1 + ttlOf(scope)) == IntervalLimit(max)
  {
    WorstCaseForward(scope, ttlOf(scope), max);
    FirstOpens(scope, ttlOf, max);
    FirstWindowPasses([Op(scope, 0)], scope, ttlOf, max);
    NextWindowPasses(FullWindow(scope, ttlOf(scope), max), scope, ttlOf, max);
  }

  lemma {:induction false} FirstWindowPasses(first: seq<Op>, scope: string, ttlOf: string -> int, max: nat)
    requires ttlOf(scope) >= 2 && max >= 1
    requires scope in Run(first, ttlOf) && Run(first, ttlOf)[scope] == Window(1, ttlOf(scope))
    requires PassedIn(first, ttlOf, scope, max, 1, 1 + ttlOf(scope)) == 0
    ensures var full := first + Repeat(Op(scope, ttlOf(scope) - 1), max - 1);
            && scope in Run(full, ttlOf) && Run(full, ttlOf)[scope] == Window(max, ttlOf(scope))
            && PassedIn(full, ttlOf, scope, max, 1, 1 + ttlOf(scope)) == max - 1
  {
    BurstPasses(first, Op(scope, ttlOf(scope) - 1), max - 1, ttlOf, max, 1, 1 + ttlOf(scope));
  }

  /** A full window, then a burst the moment it has run out. */
  lemma {:induction false} NextWindowPasses(full: seq<Op>, scope: string, ttlOf: string -> int, max: nat)
    requires ttlOf(scope) >= 2 && max >= 1
    requires scope in Run(full, ttlOf) && Run(full, ttlOf)[scope] == Window(max, ttlOf(scope))
    requires PassedIn(full, ttlOf, scope, max, 1, 1 + ttlOf(scope)) == max - 1
    ensures var next := full + [Op(scope, ttlOf(scope))] + Repeat(Op(scope, ttlOf(scope)), max - 1);
            PassedIn(next, ttlOf, scope, max, 1, 1 + ttlOf(scope)) == 2 * max - 1
  {
    var ttl := ttlOf(scope);
    PassedInSnoc(full, Op(scope, ttl), ttlOf, scope, max, 1, 1 + ttl);
    BurstPasses(full + [Op(scope, ttl)], Op(scope, ttl), max - 1, ttlOf, max, 1, 1 + ttl);
  }

  lemma {:induction false} WorstCaseForward(scope: string, ttl: int, max: nat)
    requires ttl >= 2 && max >= 1
    ensures ClockForward(WorstCase(scope, ttl, max))
  {}

  lemma {:induction false} FirstOpens(scope: string, ttlOf: string -> int, max: nat)
    ensures Run([Op(scope, 0)], ttlOf) == map[scope := Window(1, ttlOf(scope))]
    ensures PassedIn([Op(scope, 0)], ttlOf, scope, max, 1, 1 + ttlOf(scope)) == 0
  {
    assert [] + [Op(scope, 0)] == [Op(scope, 0)];
    PassedInSnoc([], Op(scope, 0), ttlOf, scope, max, 1, 1 + ttlOf(scope));
  }

  // ---- requests as charges --------------------------------------------------------------

  function TtlOf(scope: string): int { if scope == GLOBAL_SCOPE then GLOBAL_TTL else PER_KEY_TTL }

  lemma {:induction false} ScopesDiffer(keyId: string)
    ensures KeyScope(keyId) != GLOBAL_SCOPE
  {
    assert KeyScope(keyId)[11] == 'k' && GLOBAL_SCOPE[11] == 'g';
  }

  /** A guarded request: its key, the count its key charge returned, and how it ended. */
  datatype Request = Request(keyId: string, keyAt: int, keyCount: nat, verdict: Option<Verdict>, endedAt: int)

  /** `ops` remembers every charge; both limits are fixed. */
  datatype World = World(counters: Counters, requests: seq<Request>, ops: seq<Op>, now: int)

  datatype Step =
    | ChargeKey(keyId: string, at: int)         // a request starts
    | ChargeGlobal(i: nat, at: int)             // request `i` goes on and gets its verdict
    | Fail(i: nat, at: int)                     // the store fails under it instead

  predicate Open(w: World, i: nat) { i < |w.requests| && w.requests[i].verdict.None? }

  predicate Enabled(w: World, x: Step) { w.now <= x.at && (!x.ChargeKey? ==> Open(w, x.i)) }

  function Charge(w: World, scope: string, at: int): World {
    w.(counters := Incr(w.counters, scope, TtlOf(scope), at), ops := w.ops + [Op(scope, at)], now := at)
  }

  function Act(w: World, x: Step, perKeyMax: nat, globalMax: nat): World
    requires Enabled(w, x)
  {
    match x
    case ChargeKey(keyId, at) =>
      var t := Charge(w, KeyScope(keyId), at);
      t.(requests := w.requests + [Request(keyId, at, t.counters[KeyScope(keyId)].count, None, at)])
    case ChargeGlobal(i, at) =>
      var t := Charge(w, GLOBAL_SCOPE, at);
      var r := w.requests[i];
      var passes := r.keyCount <= perKeyMax && t.counters[GLOBAL_SCOPE].count <= globalMax;
      t.(requests := w.requests[i := r.(verdict := Some(if passes then Passes else Throttled), endedAt := at)])
    case Fail(i, at) =>
      w.(requests := w.requests[i := w.requests[i].(verdict := Some(Unavailable), endedAt := at)], now := at)
  }

  /** The world after any steps in any order; a step that is not possible does nothing. */
  function Guarded(steps: seq<Step>, perKeyMax: nat, globalMax: nat): World {
    if steps == [] then World(map[], [], [], 0)
    else
      var w, x := Guarded(steps[..|steps| - 1], perKeyMax, globalMax), steps[|steps| - 1];
      if Enabled(w, x) then Act(w, x, perKeyMax, globalMax) else w
  }

  /** Requests of `keyId` that passed, by the time of their key charge. */
  function KeyPasses(rs: seq<Request>, keyId: string, from: int, to: int): nat {
    if rs == [] then 0
    else
      var r := rs[|rs| - 1];
      KeyPasses(rs[..|rs| - 1], keyId, from, to)
      + (if r.keyId == keyId && r.verdict == Some(Passes) && from <= r.keyAt < to then 1 else 0)
  }

  /** Requests of any key that passed, by the time of their verdict. */
  function AllPasses(rs: seq<Request>, from: int, to: int): nat {
    if rs == [] then 0
    else AllPasses(rs[..|rs| - 1], from, to) + PassWeight(rs[|rs| - 1], from, to)
  }

  function PassWeight(r: Request, from: int, to: int): nat {
    if r.verdict == Some(Passes) && from <= r.endedAt < to then 1 else 0
  }

  /** Requests of `keyId` whose key charge was within the limit, passed or not. */
  function KeyWithin(rs: seq<Request>, keyId: string, perKeyMax: nat, from: int, to: int): nat {
    if rs == [] then 0
    else
      var r := rs[|rs| - 1];
      KeyWithin(rs[..|rs| - 1], keyId, perKeyMax, from, to) + KeyWeight(r, keyId, perKeyMax, from, to)
  }

  function KeyWeight(r: Request, keyId: string, perKeyMax: nat, from: int, to: int): nat {
    if r.keyId == keyId && r.keyCount <= perKeyMax && from <= r.keyAt < to then 1 else 0
  }

  /** Whoever passed had both counts within their limits. */
  ghost predicate Honest(rs: seq<Request>, perKeyMax: nat) {
    forall r <- rs :: r.verdict == Some(Passes) ==> r.keyCount <= perKeyMax
  }

  /** The counters are the run of all charges, and what passed is among the charges within the limit. */
  ghost predicate GuardInv(w: World, keyId: string, perKeyMax: nat, globalMax: nat, from: int, to: int) {
    && w.counters == Run(w.ops, TtlOf) && ClockForward(w.ops) && (forall o <- w.ops :: o.now <= w.now)
    && Honest(w.requests, perKeyMax)
    && KeyWithin(w.requests, keyId, perKeyMax, from, to) <= PassedIn(w.ops, TtlOf, KeyScope(keyId), perKeyMax, from, to)
    && AllPasses(w.requests, from, to) <= PassedIn(w.ops, TtlOf, GLOBAL_SCOPE, globalMax, from, to)
  }

  lemma {:induction false} ForwardSnoc(ops: seq<Op>, o: Op)
    requires ClockForward(ops) && forall p <- ops :: p.now <= o.now
    ensures ClockForward(ops + [o])
  {}

  lemma {:induction false} RequestsSnoc(rs: seq<Request>, r: Request, keyId: string, max: nat, from: int, to: int)
    ensures KeyWithin(rs + [r], keyId, max, from, to)
         == KeyWithin(rs, keyId, max, from, to) + KeyWeight(r, keyId, max, from, to)
    ensures AllPasses(rs + [r], from, to) == AllPasses(rs, from, to) + PassWeight(r, from, to)
  {
    assert (rs + [r])[..|rs|] == rs;
  }

  lemma {:induction false} RequestsUpdate(rs: seq<Request>, i: nat, r: Request, keyId: string, max: nat, from: int,
                                          to: int)
    requires i < |rs| && r.keyId == rs[i].keyId && r.keyAt == rs[i].keyAt && r.keyCount == rs[i].keyCount
    ensures KeyWithin(rs[i := r], keyId, max, from, to) == KeyWithin(rs, keyId, max, from, to)
    ensures AllPasses(rs[i := r], from, to)
         == AllPasses(rs, from, to) - PassWeight(rs[i], from, to) + PassWeight(r, from, to)
  {
    var n := |rs| - 1;
    if i == n {
      assert rs[i := r][..n] == rs[..n];
    } else {
      assert rs[i := r][..n] == rs[..n][i := r];
      RequestsUpdate(rs[..n], i, r, keyId, max, from, to);
    }
  }

  lemma {:induction false} KeyStepKeeps(w: World, id: string, at: int, keyId: string, perKeyMax: nat, globalMax: nat,
                                        from: int, to: int)
    requires Enabled(w, ChargeKey(id, at)) && GuardInv(w, keyId, perKeyMax, globalMax, from, to)
    ensures GuardInv(Act(w, ChargeKey(id, at), perKeyMax, globalMax), keyId, perKeyMax, globalMax, from, to)
  {
    var t, o := Act(w, ChargeKey(id, at), perKeyMax, globalMax), Op(KeyScope(id), at);
    ScopesDiffer(id);
    ForwardSnoc(w.ops, o);
    KeyCharged(w, id, at, keyId, perKeyMax, globalMax, from, to);
    RequestsSnoc(w.requests, t.requests[|w.requests|], keyId, perKeyMax, from, to);
  }

  /** What a key charge adds to the charges within the limits. */
  lemma {:induction false} KeyCharged(w: World, id: string, at: int, keyId: string, perKeyMax: nat, globalMax: nat,
                                      from: int, to: int)
    requires w.counters == Run(w.ops, TtlOf)
    ensures var t := Charge(w, KeyScope(id), at);
            && t.counters == Run(t.ops, TtlOf)
            && PassedIn(t.ops, TtlOf, KeyScope(keyId), perKeyMax, from, to)
               >= PassedIn(w.ops, TtlOf, KeyScope(keyId), perKeyMax, from, to)
                  + (if id == keyId && t.counters[KeyScope(id)].count <= perKeyMax && from <= at < to then 1 else 0)
            && PassedIn(t.ops, TtlOf, GLOBAL_SCOPE, globalMax, from, to)
               == PassedIn(w.ops, TtlOf, GLOBAL_SCOPE, globalMax, from, to)
  {
    ScopesDiffer(id);
    PassedInSnoc(w.ops, Op(KeyScope(id), at), TtlOf, KeyScope(keyId), perKeyMax, from, to);
    PassedInSnoc(w.ops, Op(KeyScope(id), at), TtlOf, GLOBAL_SCOPE, globalMax, from, to);
  }

  lemma {:induction false} GlobalStepKeeps(w: World, i: nat, at: int, keyId: string, perKeyMax: nat, globalMax: nat,
                                           from: int, to: int)
    requires Enabled(w, ChargeGlobal(i, at)) && GuardInv(w, keyId, perKeyMax, globalMax, from, to)
    ensures GuardInv(Act(w, ChargeGlobal(i, at), perKeyMax, globalMax), keyId, perKeyMax, globalMax, from, to)
  {
    var t, o := Act(w, ChargeGlobal(i, at), perKeyMax, globalMax), Op(GLOBAL_SCOPE, at);
    ScopesDiffer(keyId);
    ForwardSnoc(w.ops, o);
    PassedInSnoc(w.ops, o, TtlOf, KeyScope(keyId), perKeyMax, from, to);
    PassedInSnoc(w.ops, o, TtlOf, GLOBAL_SCOPE, globalMax, from, to);
    RequestsUpdate(w.requests, i, t.requests[i], keyId, perKeyMax, from, to);
  }

  lemma {:induction false} FailStepKeeps(w: World, i: nat, at: int, keyId: string, perKeyMax: nat, globalMax: nat,
                                         from: int, to: int)
    requires Enabled(w, Fail(i, at)) && GuardInv(w, keyId, perKeyMax, globalMax, from, to)
    ensures GuardInv(Act(w, Fail(i, at), perKeyMax, globalMax), keyId, perKeyMax, globalMax, from, to)
  {
    var t := Act(w, Fail(i, at), perKeyMax, globalMax);
    RequestsUpdate(w.requests, i, t.requests[i], keyId, perKeyMax, from, to);
  }

  lemma {:induction false} GuardedKeeps(steps: seq<Step>, keyId: string, perKeyMax: nat, globalMax: nat, from: int,
                                        to: int)
    ensures GuardInv(Guarded(steps, perKeyMax, globalMax), keyId, perKeyMax, globalMax, from, to)
  {
    if steps != [] {
      var pre, x := steps[..|steps| - 1], steps[|steps| - 1];
      GuardedKeeps(pre, keyId, perKeyMax, globalMax, from, to);
      var w := Guarded(pre, perKeyMax, globalMax);
      if Enabled(w, x) {
        match x
        case ChargeKey(id, at) => KeyStepKeeps(w, id, at, keyId, perKeyMax, globalMax, from, to);
        case ChargeGlobal(i, at) => GlobalStepKeeps(w, i, at, keyId, perKeyMax, globalMax, from, to);
        case Fail(i, at) => FailStepKeeps(w, i, at, keyId, perKeyMax, globalMax, from, to);
      }
    }
  }

  lemma {:induction false} PassesWithin(rs: seq<Request>, keyId: string, perKeyMax: nat, from: int, to: int)
    requires Honest(rs, perKeyMax)
    ensures KeyPasses(rs, keyId, from, to) <= KeyWithin(rs, keyId, perKeyMax, from, to)
  {
    if rs != [] {
      assert rs[|rs| - 1] in rs;
      PassesWithin(rs[..|rs| - 1], keyId, perKeyMax, from, to);
    }
  }

  /**
   The guard's promise, over every interleaving of guarded requests and store failures: in any minute at most
   2 max - 1 requests of one key pass, and in any hour at most 2 max - 1 of all keys together.
   */
  lemma {:induction false} GuardBound(steps: seq<Step>, keyId: string, perKeyMax: nat, globalMax: nat, from: int)
    ensures var rs := Guarded(steps, perKeyMax, globalMax).requests;
            && KeyPasses(rs, keyId, from, from + 60_000) <= IntervalLimit(perKeyMax)
            && AllPasses(rs, from, from + 3_600_000) <= IntervalLimit(globalMax)
  {
    var w := Guarded(steps, perKeyMax, globalMax);
    ScopesDiffer(keyId);
    GuardedKeeps(steps, keyId, perKeyMax, globalMax, from, from + PER_KEY_TTL);
    PassesWithin(w.requests, keyId, perKeyMax, from, from + PER_KEY_TTL);
    IntervalBound(w.ops, TtlOf, KeyScope(keyId), perKeyMax, from);
    GuardedKeeps(steps, keyId, perKeyMax, globalMax, from, from + GLOBAL_TTL);
    IntervalBound(w.ops, TtlOf, GLOBAL_SCOPE, globalMax, from);
  }

  /** A guard call that nothing interrupts charges its counters and answers as its steps in the interleaved model do. */
  lemma {:induction false} GuardIsARun(w: World, keyId: string, at: int, perKeyMax: nat, globalMax: nat)
    requires w.now <= at
    ensures var n := |w.requests|;
            var t := Act(w, ChargeKey(keyId, at), perKeyMax, globalMax);
            && Enabled(t, ChargeGlobal(n, at))
            && var u := Act(t, ChargeGlobal(n, at), perKeyMax, globalMax);
               var c := Incr(w.counters, KeyScope(keyId), PER_KEY_TTL, at);
               var d := Incr(c, GLOBAL_SCOPE, GLOBAL_TTL, at);
               && u.counters == d && u.requests[..n] == w.requests
               && (u.requests[n].verdict == Some(Passes)
                   <==> c[KeyScope(keyId)].count <= perKeyMax && d[GLOBAL_SCOPE].count <= globalMax)
  {
    ScopesDiffer(keyId);
  }
}
