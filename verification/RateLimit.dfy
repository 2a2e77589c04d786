/**
 The middleware's plan loop: one request consults several buckets in turn and stops at the
 first refusal.  Each bucket call is an atomic step; between steps other requests run.
 */
module RateLimit {
  import opened SlidingWindow

  datatype Limit = Limit(key: string, max: nat, windowMs: int)

  type Buckets = map<string, seq<Hit>>

  function BucketOf(b: Buckets, key: string): seq<Hit> { if key in b then b[key] else [] }

  /** A request on its way through its plan; `pos` buckets have admitted it. */
  datatype Request = Request(plan: seq<Limit>, now: int, pos: nat, blocked: bool)

  datatype Served = Served(key: string, call: Call)

  datatype World = World(buckets: Buckets, memberCtr: nat, requests: seq<Request>, clock: int, ledger: seq<Served>)

  const START := World(map[], 0, [], 0, [])

  datatype Step = Arrive(plan: seq<Limit>, at: int) | Advance(i: nat, at: int)

  predicate Pending(r: Request) { !r.blocked && r.pos < |r.plan| }

  predicate Passed(r: Request) { !r.blocked && r.pos == |r.plan| }

  /** A step is possible, and a bucket is consulted within `delay` ms of the request's arrival. */
  predicate Enabled(w: World, step: Step, delay: nat) {
    && w.clock <= step.at
    && (step.Advance? ==> step.i < |w.requests| && Pending(w.requests[step.i])
                          && step.at - w.requests[step.i].now <= delay)
  }

  function Apply(w: World, step: Step, delay: nat): World
    requires Enabled(w, step, delay)
  {
    match step
    case Arrive(plan, at) => w.(requests := w.requests + [Request(plan, at, 0, false)], clock := at)
    case Advance(i, at) =>
      var r := w.requests[i];
      var l := r.plan[r.pos];
      var c := Call(l.max, r.now, w.memberCtr + 1);
      var (arr, reply) := Consume(BucketOf(w.buckets, l.key), c, l.windowMs);
      World(w.buckets[l.key := arr], w.memberCtr + 1,
            w.requests[i := if reply.ok then r.(pos := r.pos + 1) else r.(blocked := true)],
            at, w.ledger + [Served(l.key, c)])
  }

  /** The world after any steps in any order; a step that is not possible does nothing. */
  function Run(steps: seq<Step>, delay: nat): World {
    if steps == [] then START
    else
      var w := Run(steps[..|steps| - 1], delay);
      if Enabled(w, steps[|steps| - 1], delay) then Apply(w, steps[|steps| - 1], delay) else w
  }

  /** Every plan agrees on bucket `key`: one window, and limits no larger than `max`. */
  predicate PlansAgree(steps: seq<Step>, key: string, windowMs: int, max: nat) {
    forall s <- steps :: s.Arrive? ==> PlanAgrees(s.plan, key, windowMs, max)
  }

  predicate PlanAgrees(plan: seq<Limit>, key: string, windowMs: int, max: nat) {
    forall l <- plan :: l.key == key ==> l.windowMs == windowMs && l.max <= max
  }

  function CallsOn(ledger: seq<Served>, key: string): seq<Call> {
    if ledger == [] then []
    else
      var s := ledger[|ledger| - 1];
      CallsOn(ledger[..|ledger| - 1], key) + (if s.key == key then [s.call] else [])
  }

  /** Bucket `key` has admitted request `r`. */
  predicate Cleared(r: Request, key: string) {
    exists j :: 0 <= j < r.pos && j < |r.plan| && r.plan[j].key == key
  }

  function Weight(r: Request, key: string, lo: int, hi: int): nat {
    if Cleared(r, key) && lo < r.now <= hi then 1 else 0
  }

  function ClearedWithin(rs: seq<Request>, key: string, lo: int, hi: int): nat {
    if rs == [] then 0
    else ClearedWithin(rs[..|rs| - 1], key, lo, hi) + Weight(rs[|rs| - 1], key, lo, hi)
  }

  predicate Mentions(r: Request, key: string) { exists l :: l in r.plan && l.key == key }

  /** Requests that passed every bucket of a plan naming `key`, by arrival time. */
  function PassedWithin(rs: seq<Request>, key: string, lo: int, hi: int): nat {
    if rs == [] then 0
    else
      var r := rs[|rs| - 1];
      PassedWithin(rs[..|rs| - 1], key, lo, hi) + (if Passed(r) && Mentions(r, key) && lo < r.now <= hi then 1 else 0)
  }

  lemma {:induction false} PassedAreCleared(rs: seq<Request>, key: string, lo: int, hi: int)
    ensures PassedWithin(rs, key, lo, hi) <= ClearedWithin(rs, key, lo, hi)
  {
    if rs != [] {
      var r := rs[|rs| - 1];
      PassedAreCleared(rs[..|rs| - 1], key, lo, hi);
      if Passed(r) && Mentions(r, key) {
        var l :| l in r.plan && l.key == key;
        var j :| 0 <= j < |r.plan| && r.plan[j] == l;
      }
    }
  }

  lemma {:induction false} ClearedUpdate(rs: seq<Request>, i: nat, r: Request, key: string, lo: int, hi: int)
    requires i < |rs|
    ensures ClearedWithin(rs[i := r], key, lo, hi)
         == ClearedWithin(rs, key, lo, hi) - Weight(rs[i], key, lo, hi) + Weight(r, key, lo, hi)
  {
    var n := |rs| - 1;
    if i == n {
      assert rs[i := r][..n] == rs[..n];
    } else {
      assert rs[i := r][..n] == rs[..n][i := r];
      ClearedUpdate(rs[..n], i, r, key, lo, hi);
    }
  }

  lemma {:induction false} ClearedSnoc(rs: seq<Request>, r: Request, key: string, lo: int, hi: int)
    ensures ClearedWithin(rs + [r], key, lo, hi) == ClearedWithin(rs, key, lo, hi) + Weight(r, key, lo, hi)
  {
    assert (rs + [r])[..|rs|] == rs;
  }

  lemma {:induction false} CallsOnSnoc(ledger: seq<Served>, s: Served, key: string)
    ensures CallsOn(ledger + [s], key) == CallsOn(ledger, key) + (if s.key == key then [s.call] else [])
  {
    assert (ledger + [s])[..|ledger|] == ledger;
  }

  // ---- what every step keeps about one bucket -------------------------------------------

  ghost predicate CallsOk(calls: seq<Call>, ctr: nat, clock: int, delay: nat, max: nat) {
    && FreshMembers(calls) && SkewAtMost(calls, delay)
    && forall c <- calls :: c.member <= ctr && c.now <= clock && c.max <= max
  }

  ghost predicate RequestsOk(rs: seq<Request>, clock: int, key: string, windowMs: int, max: nat) {
    forall r <- rs :: r.now <= clock && PlanAgrees(r.plan, key, windowMs, max)
  }

  /** The bucket's calls and its list stay in step. */
  ghost predicate BucketOk(w: World, delay: nat, key: string, windowMs: int, max: nat) {
    var calls := CallsOn(w.ledger, key);
    && CallsOk(calls, w.memberCtr, w.clock, delay, max)
    && BucketOf(w.buckets, key) == ServeAll(calls, windowMs).arr
  }

  ghost predicate Inv(w: World, delay: nat, key: string, windowMs: int, max: nat) {
    && BucketOk(w, delay, key, windowMs, max)
    && RequestsOk(w.requests, w.clock, key, windowMs, max)
  }

  /** Whoever the bucket let through is among its admissions. */
  ghost predicate Backed(rs: seq<Request>, calls: seq<Call>, key: string, windowMs: int, lo: int, hi: int) {
    ClearedWithin(rs, key, lo, hi) <= Within(ServeAll(calls, windowMs).admitted, lo, hi)
  }

  lemma {:induction false} CallsOkSnoc(calls: seq<Call>, c: Call, ctr: nat, clock: int, at: int, delay: nat, max: nat)
    requires CallsOk(calls, ctr, clock, delay, max)
    requires c.member == ctr + 1 && clock <= at && c.now <= at <= c.now + delay && c.max <= max
    ensures CallsOk(calls + [c], ctr + 1, at, delay, max)
  {
    var all := calls + [c];
    forall i, j | 0 <= i < j < |all| ensures all[i].member != all[j].member && all[j].now >= all[i].now - delay {
      assert all[i] == calls[i] && calls[i] in calls;
      if j < |calls| {
        assert all[j] == calls[j];
      }
    }
  }

  function CallOf(w: World, i: nat): Call
    requires i < |w.requests| && Pending(w.requests[i])
  {
    var r := w.requests[i];
    Call(r.plan[r.pos].max, r.now, w.memberCtr + 1)
  }

  /** What a step on bucket `l.key` does to bucket `key`. */
  lemma {:induction false} AdvanceEffect(w: World, i: nat, at: int, delay: nat, key: string)
    requires Enabled(w, Advance(i, at), delay)
    ensures var t := Apply(w, Advance(i, at), delay);
            var r := w.requests[i];
            var l := r.plan[r.pos];
            var arr := BucketOf(w.buckets, l.key);
            var (arr', reply) := Consume(arr, CallOf(w, i), l.windowMs);
            && CallsOn(t.ledger, key) == CallsOn(w.ledger, key) + (if l.key == key then [CallOf(w, i)] else [])
            && BucketOf(t.buckets, key) == (if l.key == key then arr' else BucketOf(w.buckets, key))
            && t.requests == w.requests[i := if reply.ok then r.(pos := r.pos + 1) else r.(blocked := true)]
            && t.memberCtr == w.memberCtr + 1 && t.clock == at
  {
    var r := w.requests[i];
    CallsOnSnoc(w.ledger, Served(r.plan[r.pos].key, CallOf(w, i)), key);
  }

  lemma {:induction false} RequestsKept(rs: seq<Request>, i: nat, r: Request, clock: int, at: int, key: string,
                                        windowMs: int, max: nat)
    requires i < |rs| && r.plan == rs[i].plan && r.now == rs[i].now && clock <= at
    requires RequestsOk(rs, clock, key, windowMs, max)
    ensures RequestsOk(rs[i := r], at, key, windowMs, max)
  {
    assert rs[i] in rs;
  }

  lemma {:induction false} AdvanceKeeps(w: World, i: nat, at: int, delay: nat, key: string, windowMs: int, max: nat)
    requires Enabled(w, Advance(i, at), delay) && Inv(w, delay, key, windowMs, max)
    ensures Inv(Apply(w, Advance(i, at), delay), delay, key, windowMs, max)
  {
    var r := w.requests[i];
    RequestsKept(w.requests, i, r.(pos := r.pos + 1), w.clock, at, key, windowMs, max);
    RequestsKept(w.requests, i, r.(blocked := true), w.clock, at, key, windowMs, max);
    assert r in w.requests;
    if r.plan[r.pos].key == key {
      PlanWindow(w, i, delay, key, windowMs, max);
      HereKeeps(w, i, at, delay, key, windowMs, max);
    } else {
      ThereKeeps(w, i, at, delay, key, windowMs, max);
    }
    AdvanceEffect(w, i, at, delay, key);
  }

  lemma {:induction false} HereKeeps(w: World, i: nat, at: int, delay: nat, key: string, windowMs: int, max: nat)
    requires Enabled(w, Advance(i, at), delay) && BucketOk(w, delay, key, windowMs, max) && w.requests[i].now <= w.clock
    requires var l := w.requests[i].plan[w.requests[i].pos]; l.key == key && l.windowMs == windowMs && l.max <= max
    ensures BucketOk(Apply(w, Advance(i, at), delay), delay, key, windowMs, max)
  {
    AdvanceEffect(w, i, at, delay, key);
    CallsOkSnoc(CallsOn(w.ledger, key), CallOf(w, i), w.memberCtr, w.clock, at, delay, max);
    ServeSnoc(CallsOn(w.ledger, key), CallOf(w, i), windowMs);
  }

  lemma {:induction false} ThereKeeps(w: World, i: nat, at: int, delay: nat, key: string, windowMs: int, max: nat)
    requires Enabled(w, Advance(i, at), delay) && BucketOk(w, delay, key, windowMs, max)
    requires w.requests[i].plan[w.requests[i].pos].key != key
    ensures BucketOk(Apply(w, Advance(i, at), delay), delay, key, windowMs, max)
  {
    AdvanceEffect(w, i, at, delay, key);
    assert CallsOn(w.ledger, key) + [] == CallsOn(w.ledger, key);
  }

  /** One request moves on exactly when its bucket admits it. */
  lemma {:induction false} AdvanceBacked(w: World, i: nat, at: int, delay: nat, key: string, windowMs: int, max: nat,
                                         lo: int, hi: int)
    requires Enabled(w, Advance(i, at), delay) && Inv(w, delay, key, windowMs, max)
    requires Backed(w.requests, CallsOn(w.ledger, key), key, windowMs, lo, hi)
    ensures var t := Apply(w, Advance(i, at), delay);
            Backed(t.requests, CallsOn(t.ledger, key), key, windowMs, lo, hi)
  {
    if w.requests[i].plan[w.requests[i].pos].key == key {
      PlanWindow(w, i, delay, key, windowMs, max);
      HereBacked(w, i, at, delay, key, windowMs, lo, hi);
    } else {
      ThereBacked(w, i, at, delay, key, windowMs, lo, hi);
    }
  }

  lemma {:induction false} HereBacked(w: World, i: nat, at: int, delay: nat, key: string, windowMs: int, lo: int,
                                      hi: int)
    requires Enabled(w, Advance(i, at), delay) && Backed(w.requests, CallsOn(w.ledger, key), key, windowMs, lo, hi)
    requires var r := w.requests[i]; r.plan[r.pos].key == key && r.plan[r.pos].windowMs == windowMs
    requires BucketOf(w.buckets, key) == ServeAll(CallsOn(w.ledger, key), windowMs).arr
    ensures var t := Apply(w, Advance(i, at), delay);
            Backed(t.requests, CallsOn(t.ledger, key), key, windowMs, lo, hi)
  {
    AdvanceEffect(w, i, at, delay, key);
    ConsultedBacked(w.requests, i, CallsOn(w.ledger, key), CallOf(w, i), key, windowMs, lo, hi);
  }

  lemma {:induction false} ThereBacked(w: World, i: nat, at: int, delay: nat, key: string, windowMs: int, lo: int,
                                       hi: int)
    requires Enabled(w, Advance(i, at), delay) && Backed(w.requests, CallsOn(w.ledger, key), key, windowMs, lo, hi)
    requires w.requests[i].plan[w.requests[i].pos].key != key
    ensures var t := Apply(w, Advance(i, at), delay);
            Backed(t.requests, CallsOn(t.ledger, key), key, windowMs, lo, hi)
  {
    var t := Apply(w, Advance(i, at), delay);
    var calls := CallsOn(w.ledger, key);
    AdvanceEffect(w, i, at, delay, key);
    assert calls + [] == calls;
    PassedByBacked(w.requests, i, t.requests[i], calls, key, windowMs, lo, hi);
  }

  lemma {:induction false} PassedByBacked(rs: seq<Request>, i: nat, t: Request, calls: seq<Call>, key: string,
                                          windowMs: int, lo: int,
                       hi: int)
    requires Backed(rs, calls, key, windowMs, lo, hi)
    requires i < |rs| && Pending(rs[i]) && rs[i].plan[rs[i].pos].key != key
    requires t == rs[i].(pos := rs[i].pos + 1) || t == rs[i].(blocked := true)
    ensures Backed(rs[i := t], calls, key, windowMs, lo, hi)
  {
    ClearedUpdate(rs, i, t, key, lo, hi);
    OtherKeyCleared(rs[i], t, key);
  }

  lemma {:induction false} PlanWindow(w: World, i: nat, delay: nat, key: string, windowMs: int, max: nat)
    requires Inv(w, delay, key, windowMs, max) && i < |w.requests| && Pending(w.requests[i])
    requires w.requests[i].plan[w.requests[i].pos].key == key
    ensures var l := w.requests[i].plan[w.requests[i].pos]; l.windowMs == windowMs && l.max <= max
  {
    var r := w.requests[i];
    assert r in w.requests && r.plan[r.pos] in r.plan;
  }

  /** The request that consults the bucket moves on exactly when it is admitted. */
  lemma {:induction false} ConsultedBacked(rs: seq<Request>, i: nat, calls: seq<Call>, c: Call, key: string,
                                           windowMs: int, lo: int,
                        hi: int)
    requires Backed(rs, calls, key, windowMs, lo, hi)
    requires i < |rs| && Pending(rs[i]) && rs[i].plan[rs[i].pos].key == key && rs[i].now == c.now
    ensures var r := rs[i];
            var ok := Consume(ServeAll(calls, windowMs).arr, c, windowMs).1.ok;
            Backed(rs[i := if ok then r.(pos := r.pos + 1) else r.(blocked := true)], calls + [c],
                   key, windowMs, lo, hi)
  {
    var r := rs[i];
    ServeSnoc(calls, c, windowMs);
    AdmittedCount(ServeAll(calls, windowMs), c, windowMs, lo, hi);
    if Consume(ServeAll(calls, windowMs).arr, c, windowMs).1.ok {
      ClearedUpdate(rs, i, r.(pos := r.pos + 1), key, lo, hi);
    } else {
      ClearedUpdate(rs, i, r.(blocked := true), key, lo, hi);
      BlockedCleared(r, key);
    }
  }

  lemma {:induction false} AdmittedCount(b: Bucket, c: Call, windowMs: int, lo: int, hi: int)
    ensures Within(Serve(b, c, windowMs).admitted, lo, hi)
         == Within(b.admitted, lo, hi) + (if Consume(b.arr, c, windowMs).1.ok && lo < c.now <= hi then 1 else 0)
  {
    WithinSnoc(b.admitted, Hit(c.now, c.member), lo, hi);
  }

  lemma {:induction false} BlockedCleared(r: Request, key: string)
    ensures Cleared(r.(blocked := true), key) <==> Cleared(r, key)
  {}

  lemma {:induction false} OtherKeyCleared(r: Request, t: Request, key: string)
    requires Pending(r) && r.plan[r.pos].key != key
    requires t == r.(pos := r.pos + 1) || t == r.(blocked := true)
    ensures Cleared(t, key) <==> Cleared(r, key)
  {}

  lemma {:induction false} ArriveKeeps(w: World, plan: seq<Limit>, at: int, delay: nat, key: string, windowMs: int,
                                       max: nat, lo: int,
                    hi: int)
    requires Enabled(w, Arrive(plan, at), delay) && PlanAgrees(plan, key, windowMs, max)
    requires Inv(w, delay, key, windowMs, max) && Backed(w.requests, CallsOn(w.ledger, key), key, windowMs, lo, hi)
    ensures var t := Apply(w, Arrive(plan, at), delay);
            Inv(t, delay, key, windowMs, max) && Backed(t.requests, CallsOn(t.ledger, key), key, windowMs, lo, hi)
  {
    var r := Request(plan, at, 0, false);
    ClearedSnoc(w.requests, r, key, lo, hi);
    forall x | x in w.requests + [r] ensures x.now <= at && PlanAgrees(x.plan, key, windowMs, max) {
      assert x in w.requests || x == r;
    }
  }

  lemma {:induction false} RunKeeps(steps: seq<Step>, delay: nat, key: string, windowMs: int, max: nat, lo: int,
                                    hi: int)
    requires PlansAgree(steps, key, windowMs, max)
    ensures var w := Run(steps, delay);
            Inv(w, delay, key, windowMs, max) && Backed(w.requests, CallsOn(w.ledger, key), key, windowMs, lo, hi)
  {
    if steps != [] {
      var pre, s := steps[..|steps| - 1], steps[|steps| - 1];
      RunKeeps(pre, delay, key, windowMs, max, lo, hi);
      assert s in steps;
      var v := Run(pre, delay);
      if Enabled(v, s, delay) {
        match s
        case Arrive(plan, at) => ArriveKeeps(v, plan, at, delay, key, windowMs, max, lo, hi);
        case Advance(i, at) =>
          AdvanceKeeps(v, i, at, delay, key, windowMs, max);
          AdvanceBacked(v, i, at, delay, key, windowMs, max, lo, hi);
      }
    }
  }

  /**
   The bound carries through the plan loop, for every bucket at once and under any interleaving:
   if each bucket is consulted within `delay` ms of the request's arrival, at most `max` requests
   naming the bucket pass in any interval of length `windowMs - delay`.
   */
  lemma {:induction false} PassesBounded(steps: seq<Step>, delay: nat, key: string, windowMs: int, max: nat, t: int)
    requires PlansAgree(steps, key, windowMs, max)
    ensures PassedWithin(Run(steps, delay).requests, key, t - (windowMs - delay), t) <= max
  {
    RunBacked(steps, delay, key, windowMs, max, t - (windowMs - delay), t);
    AdmissionsBounded(CallsOn(Run(steps, delay).ledger, key), delay, windowMs, max, t);
  }

  lemma {:induction false} AdmissionsBounded(calls: seq<Call>, delay: nat, windowMs: int, max: nat, t: int)
    requires FreshMembers(calls) && SkewAtMost(calls, delay) && forall c <- calls :: c.max <= max
    ensures Within(ServeAll(calls, windowMs).admitted, t - (windowMs - delay), t) <= max
  {
    WindowBound(calls, windowMs, delay, max, t);
  }

  /** Passes are backed by admissions of calls that are fresh, cross by at most `delay` and keep the limit. */
  lemma {:induction false} RunBacked(steps: seq<Step>, delay: nat, key: string, windowMs: int, max: nat, lo: int,
                                     hi: int)
    requires PlansAgree(steps, key, windowMs, max)
    ensures var w := Run(steps, delay);
            var calls := CallsOn(w.ledger, key);
            && PassedWithin(w.requests, key, lo, hi) <= Within(ServeAll(calls, windowMs).admitted, lo, hi)
            && FreshMembers(calls) && SkewAtMost(calls, delay) && forall c <- calls :: c.max <= max
  {
    RunKeeps(steps, delay, key, windowMs, max, lo, hi);
    PassedAreCleared(Run(steps, delay).requests, key, lo, hi);
  }
}
