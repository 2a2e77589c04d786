/** The plan loop's bound is exact: runs of the middleware that reach past it. */
module RateLimitExactness {
  import opened SlidingWindow
  import opened RateLimit
  import Exact = WindowExactness

  /** Bucket `key` has one window and one limit in every plan. */
  predicate PlansFixed(steps: seq<Step>, key: string, windowMs: int, max: nat) {
    forall s <- steps :: s.Arrive? ==> Fixed(s.plan, key, windowMs, max)
  }

  predicate Fixed(plan: seq<Limit>, key: string, windowMs: int, max: nat) {
    forall l <- plan :: l.key == key ==> l.windowMs == windowMs && l.max == max
  }

  /** More than `max` requests naming the bucket passed among those that arrived in (t - len, t]. */
  predicate Overrun(steps: seq<Step>, delay: nat, key: string, max: nat, len: int, t: int) {
    PassedWithin(Run(steps, delay).requests, key, t - len, t) > max
  }

  // ---- covered lengths ------------------------------------------------------------------

  ghost predicate LimitsFixed(w: World, key: string, windowMs: int, max: nat) {
    && (forall r <- w.requests :: Fixed(r.plan, key, windowMs, max))
    && (forall c <- CallsOn(w.ledger, key) :: c.max == max)
  }

  lemma {:induction false} StepKeepsLimits(w: World, s: Step, delay: nat, key: string, windowMs: int, max: nat)
    requires Enabled(w, s, delay) && LimitsFixed(w, key, windowMs, max)
    requires s.Arrive? ==> Fixed(s.plan, key, windowMs, max)
    ensures LimitsFixed(Apply(w, s, delay), key, windowMs, max)
  {
    if s.Advance? {
      var r := w.requests[s.i];
      assert r in w.requests && r.plan[r.pos] in r.plan;
      AdvanceEffect(w, s.i, s.at, delay, key);
    }
  }

  lemma {:induction false} RunKeepsLimits(steps: seq<Step>, delay: nat, key: string, windowMs: int, max: nat)
    requires PlansFixed(steps, key, windowMs, max)
    ensures LimitsFixed(Run(steps, delay), key, windowMs, max)
  {
    if steps != [] {
      var pre, s := steps[..|steps| - 1], steps[|steps| - 1];
      assert s in steps;
      RunKeepsLimits(pre, delay, key, windowMs, max);
      if Enabled(Run(pre, delay), s, delay) {
        StepKeepsLimits(Run(pre, delay), s, delay, key, windowMs, max);
      }
    }
  }

  lemma {:induction false} CoveredHolds(steps: seq<Step>, delay: nat, key: string, windowMs: int, max: nat, len: int,
                                        t: int)
    requires windowMs > 0 && PlansFixed(steps, key, windowMs, max) && Exact.Covered(windowMs, delay, max, len)
    ensures !Overrun(steps, delay, key, max, len, t)
  {
    var w := Run(steps, delay);
    assert PlansAgree(steps, key, windowMs, max);
    RunBacked(steps, delay, key, windowMs, max, t - len, t);
    RunKeepsLimits(steps, delay, key, windowMs, max);
    Exact.CoveredHolds(CallsOn(w.ledger, key), windowMs, delay, max, len, t);
  }

  // ---- the failing family ---------------------------------------------------------------

  lemma {:induction false} RunSnoc(steps: seq<Step>, s: Step, delay: nat)
    requires Enabled(Run(steps, delay), s, delay)
    ensures Run(steps + [s], delay) == Apply(Run(steps, delay), s, delay)
  {
    assert (steps + [s])[..|steps|] == steps;
  }

  function Done(l: Limit, now: int): Request { Request([l], now, 1, false) }

  function Waiting(l: Limit, now: int): Request { Request([l], now, 0, false) }

  function DoneAt0(l: Limit, k: nat): seq<Request> { seq(k, i requires 0 <= i => Done(l, 0)) }

  function HitsAt0(k: nat): seq<Hit> { seq(k, i requires 0 <= i => Hit(0, i + 1)) }

  /** `k` requests arrive at time 0, each served before the next. */
  function FillSteps(l: Limit, k: nat): seq<Step> {
    if k == 0 then [] else FillSteps(l, k - 1) + [Arrive([l], 0)] + [Advance(k - 1, 0)]
  }

  /** A world reduced to what the next step depends on. */
  predicate Looks(w: World, l: Limit, clock: int, ctr: nat, arr: seq<Hit>, rs: seq<Request>) {
    w.clock == clock && w.memberCtr == ctr && BucketOf(w.buckets, l.key) == arr && w.requests == rs
  }

  lemma {:induction false} ArriveLooks(steps: seq<Step>, delay: nat, l: Limit, clock: int, at: int, ctr: nat,
                                       arr: seq<Hit>,
                    rs: seq<Request>)
    requires Looks(Run(steps, delay), l, clock, ctr, arr, rs) && clock <= at
    ensures Looks(Run(steps + [Arrive([l], at)], delay), l, at, ctr, arr, rs + [Waiting(l, at)])
  {
    RunSnoc(steps, Arrive([l], at), delay);
  }

  /** A waiting request is admitted when the pruned list has room. */
  lemma {:induction false} AdvanceLooks(steps: seq<Step>, delay: nat, l: Limit, i: nat, at: int, ctr: nat,
                                        arr: seq<Hit>, rs: seq<Request>,
                     clock: int, kept: seq<Hit>)
    requires Looks(Run(steps, delay), l, clock, ctr, arr, rs) && clock <= at
    requires i < |rs| && rs[i] == Waiting(l, rs[i].now) && at - rs[i].now <= delay
    requires Prune(arr, rs[i].now - l.windowMs) == kept && |kept| < l.max && forall h <- kept :: h.member <= ctr
    ensures Looks(Run(steps + [Advance(i, at)], delay), l, at, ctr + 1, kept + [Hit(rs[i].now, ctr + 1)],
                  rs[i := Done(l, rs[i].now)])
  {
    RunSnoc(steps, Advance(i, at), delay);
  }

  lemma {:induction false} FillRun(l: Limit, k: nat, delay: nat)
    requires k <= l.max && l.windowMs > 0
    ensures Filled(l, k, delay)
  {
    if k == 0 {
      assert Filled(l, 0, delay);
    } else {
      FillRun(l, k - 1, delay);
      FillMore(l, k - 1, delay);
    }
  }

  predicate Filled(l: Limit, k: nat, delay: nat) {
    Looks(Run(FillSteps(l, k), delay), l, 0, k, HitsAt0(k), DoneAt0(l, k))
  }

  lemma {:induction false} FillMore(l: Limit, k: nat, delay: nat)
    requires k < l.max && l.windowMs > 0 && Filled(l, k, delay)
    ensures Filled(l, k + 1, delay)
  {
    FillOne(FillSteps(l, k), l, k, delay);
  }

  lemma {:induction false} FillOne(steps: seq<Step>, l: Limit, k: nat, delay: nat)
    requires k < l.max && l.windowMs > 0 && Looks(Run(steps, delay), l, 0, k, HitsAt0(k), DoneAt0(l, k))
    ensures Looks(Run(steps + [Arrive([l], 0)] + [Advance(k, 0)], delay), l, 0, k + 1, HitsAt0(k + 1),
                  DoneAt0(l, k + 1))
  {
    var hits, rs := HitsAt0(k), DoneAt0(l, k) + [Waiting(l, 0)];
    ArriveLooks(steps, delay, l, 0, 0, k, hits, DoneAt0(l, k));
    NothingToPrune(hits, 0 - l.windowMs);
    AdvanceLooks(steps + [Arrive([l], 0)], delay, l, k, 0, k, hits, rs, 0, hits);
    assert HitsAt0(k + 1) == hits + [Hit(0, k + 1)];
    assert DoneAt0(l, k + 1) == rs[k := Done(l, 0)];
  }

  lemma {:induction false} NothingToPrune(hits: seq<Hit>, cutoff: int)
    requires hits != [] ==> hits[0].ts > cutoff
    ensures Prune(hits, cutoff) == hits
  {}

  lemma {:induction false} FillFixed(l: Limit, k: nat)
    ensures PlansFixed(FillSteps(l, k), l.key, l.windowMs, l.max)
  {
    if k > 0 { FillFixed(l, k - 1); }
  }

  lemma {:induction false} PassedSnoc(rs: seq<Request>, l: Limit, now: int, lo: int, hi: int)
    ensures PassedWithin(rs + [Done(l, now)], l.key, lo, hi)
         == PassedWithin(rs, l.key, lo, hi) + (if lo < now <= hi then 1 else 0)
  {
    assert (rs + [Done(l, now)])[..|rs|] == rs;
    assert l in Done(l, now).plan;
  }

  lemma {:induction false} PassedAt0(l: Limit, k: nat, lo: int, hi: int)
    requires lo < 0 <= hi
    ensures PassedWithin(DoneAt0(l, k), l.key, lo, hi) == k
  {
    if k > 0 {
      PassedAt0(l, k - 1, lo, hi);
      assert DoneAt0(l, k) == DoneAt0(l, k - 1) + [Done(l, 0)];
      PassedSnoc(DoneAt0(l, k - 1), l, 0, lo, hi);
    }
  }

  /** A full limit at time 0; then one request is overtaken on its way to the bucket by a later one. */
  function OvertakenSteps(l: Limit, s: nat): seq<Step> {
    FillSteps(l, l.max) + [Arrive([l], l.windowMs - s)] + [Arrive([l], l.windowMs)]
    + [Advance(l.max + 1, l.windowMs)] + [Advance(l.max, l.windowMs)]
  }

  lemma {:induction false} OvertakenRun(l: Limit, s: nat, delay: nat)
    requires l.max >= 2 && s <= delay && s <= l.windowMs && l.windowMs > 0
    ensures Run(OvertakenSteps(l, s), delay).requests
         == DoneAt0(l, l.max) + [Done(l, l.windowMs - s)] + [Done(l, l.windowMs)]
  {
    var n, w := l.max, l.windowMs;
    FillRun(l, n, delay);
    var s0, done := FillSteps(l, n), DoneAt0(l, n);
    ArriveLooks(s0, delay, l, 0, w - s, n, HitsAt0(n), done);
    var s1 := s0 + [Arrive([l], w - s)];
    ArriveLooks(s1, delay, l, w - s, w, n, HitsAt0(n), done + [Waiting(l, w - s)]);
    Overtake(s1 + [Arrive([l], w)], l, s, delay, done);
  }

  /** The later request goes first; the earlier one finds a list that no longer knows the full limit. */
  lemma {:induction false} Overtake(steps: seq<Step>, l: Limit, s: nat, delay: nat, done: seq<Request>)
    requires l.max >= 2 && s <= delay && s <= l.windowMs && l.windowMs > 0 && |done| == l.max
    requires Looks(Run(steps, delay), l, l.windowMs, l.max, HitsAt0(l.max),
                   done + [Waiting(l, l.windowMs - s)] + [Waiting(l, l.windowMs)])
    ensures Run(steps + [Advance(l.max + 1, l.windowMs)] + [Advance(l.max, l.windowMs)], delay).requests
         == done + [Done(l, l.windowMs - s)] + [Done(l, l.windowMs)]
  {
    var n, w := l.max, l.windowMs;
    var r2 := done + [Waiting(l, w - s)] + [Waiting(l, w)];
    Exact.PruneAll(HitsAt0(n), 0);
    AdvanceLooks(steps, delay, l, n + 1, w, n, HitsAt0(n), r2, w, []);
    var h := [Hit(w, n + 1)];
    assert [] + h == h;
    var r3 := done + [Waiting(l, w - s)] + [Done(l, w)];
    assert r2[n + 1 := Done(l, w)] == r3;
    NothingToPrune(h, 0 - s);
    AdvanceLooks(steps + [Advance(n + 1, w)], delay, l, n, w, n + 1, h, r3, w, h);
    assert r3[n := Done(l, w - s)] == done + [Done(l, w - s)] + [Done(l, w)];
  }

  /** With a limit of two or more the delay does cost as much of the window as it lasts. */
  lemma {:induction false} DelayBreaksFullWindow(delay: nat, key: string, windowMs: int, max: nat, len: int)
    requires windowMs > 0 && max >= 2 && len > 0 && len > windowMs - delay
    ensures exists steps, t :: PlansFixed(steps, key, windowMs, max) && Overrun(steps, delay, key, max, len, t)
  {
    var l := Limit(key, max, windowMs);
    var s := if delay <= windowMs then delay else windowMs;
    var t := windowMs - s;
    OvertakenFixed(l, s);
    OvertakenRun(l, s, delay);
    OvertakenPasses(l, s, t - len);
    assert Overrun(OvertakenSteps(l, s), delay, key, max, len, t);
  }

  lemma {:induction false} OvertakenFixed(l: Limit, s: nat)
    ensures PlansFixed(OvertakenSteps(l, s), l.key, l.windowMs, l.max)
  {
    FillFixed(l, l.max);
  }

  lemma {:induction false} OvertakenPasses(l: Limit, s: nat, lo: int)
    requires lo < 0 && s <= l.windowMs
    ensures PassedWithin(DoneAt0(l, l.max) + [Done(l, l.windowMs - s)] + [Done(l, l.windowMs)],
                         l.key, lo, l.windowMs - s) > l.max
  {
    var hi := l.windowMs - s;
    PassedAt0(l, l.max, lo, hi);
    PassedSnoc(DoneAt0(l, l.max), l, hi, lo, hi);
    PassedSnoc(DoneAt0(l, l.max) + [Done(l, hi)], l, l.windowMs, lo, hi);
  }

  lemma {:induction false} NextWindowRun(l: Limit, delay: nat)
    requires l.max >= 1 && l.windowMs > 0
    ensures var steps := FillSteps(l, l.max) + [Arrive([l], l.windowMs)] + [Advance(l.max, l.windowMs)];
            Run(steps, delay).requests == DoneAt0(l, l.max) + [Done(l, l.windowMs)]
  {
    var n, w := l.max, l.windowMs;
    FillRun(l, n, delay);
    ArriveLooks(FillSteps(l, n), delay, l, 0, w, n, HitsAt0(n), DoneAt0(l, n));
    var rs := DoneAt0(l, n) + [Waiting(l, w)];
    Exact.PruneAll(HitsAt0(n), 0);
    AdvanceLooks(FillSteps(l, n) + [Arrive([l], w)], delay, l, n, w, n, HitsAt0(n), rs, w, []);
    assert rs[n := Done(l, w)] == DoneAt0(l, n) + [Done(l, w)];
  }

  lemma {:induction false} TwoWindows(delay: nat, key: string, windowMs: int, len: int)
    requires len > windowMs > 0
    ensures exists steps, t :: PlansFixed(steps, key, windowMs, 1) && Overrun(steps, delay, key, 1, len, t)
  {
    var l := Limit(key, 1, windowMs);
    var steps := FillSteps(l, 1) + [Arrive([l], windowMs)] + [Advance(1, windowMs)];
    FillFixed(l, 1);
    NextWindowRun(l, delay);
    PassedAt0(l, 1, windowMs - len, windowMs);
    PassedSnoc(DoneAt0(l, 1), l, windowMs, windowMs - len, windowMs);
    assert PlansFixed(steps, key, windowMs, 1) && Overrun(steps, delay, key, 1, len, windowMs);
  }

  /**
   The promise of the whole middleware, exactly.  Over all interleavings in which every bucket is
   consulted within `delay` ms of the request's arrival, no interval of length `len` has more passes
   through a bucket than its limit, if and only if `len` is at most the window less the delay; a limit
   of one keeps the whole window for every delay.
   */
  lemma {:induction false} PassesExactly(delay: nat, key: string, windowMs: int, max: nat, len: int)
    requires windowMs > 0
    ensures (forall steps, t :: PlansFixed(steps, key, windowMs, max) ==> !Overrun(steps, delay, key, max, len, t))
            <==> Exact.Covered(windowMs, delay, max, len)
  {
    if Exact.Covered(windowMs, delay, max, len) {
      forall steps, t | PlansFixed(steps, key, windowMs, max) ensures !Overrun(steps, delay, key, max, len, t) {
        CoveredHolds(steps, delay, key, windowMs, max, len, t);
      }
    } else if max == 1 {
      TwoWindows(delay, key, windowMs, len);
    } else {
      DelayBreaksFullWindow(delay, key, windowMs, max, len);
    }
  }
}
