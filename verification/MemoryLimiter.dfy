/** The in-memory limiter as the program keeps it, driven by the middleware's loop. */
module MemoryLimiter {
  import opened Options
  import opened SlidingWindow
  import opened RateLimit
  import opened Counting

  /** A request carried through the rest of its plan without interruption. */
  function Walk(b: Buckets, ctr: nat, r: Request): (Buckets, nat, Request)
    decreases Pending(r), |r.plan| - r.pos
  {
    if !Pending(r) then (b, ctr, r)
    else
      var l := r.plan[r.pos];
      var (arr, reply) := Consume(BucketOf(b, l.key), Call(l.max, r.now, ctr + 1), l.windowMs);
      Walk(b[l.key := arr], ctr + 1, if reply.ok then r.(pos := r.pos + 1) else r.(blocked := true))
  }

  /** Each step of the interleaved world is one round of the loop. */
  lemma {:induction false} AdvanceIsOneRound(w: World, i: nat, at: int, delay: nat)
    requires Enabled(w, Advance(i, at), delay)
    ensures var t := Apply(w, Advance(i, at), delay);
            Walk(w.buckets, w.memberCtr, w.requests[i]) == Walk(t.buckets, t.memberCtr, t.requests[i])
  {}

  function Rounds(i: nat, at: int, k: nat): seq<Step> { seq(k, _ => Advance(i, at)) }

  /** `w` after some rounds of request `i`, seen from world `v` before them. */
  ghost predicate RoundsOf(v: World, w: World, i: nat, at: int, k: nat) {
    && i < |v.requests| == |w.requests| && w.clock == at
    && (forall j :: 0 <= j < |v.requests| && j != i ==> w.requests[j] == v.requests[j])
    && w.requests[i].now == at && w.requests[i].plan == v.requests[i].plan
    && (Pending(w.requests[i]) ==> w.requests[i].pos == v.requests[i].pos + k)
    && Walk(w.buckets, w.memberCtr, w.requests[i]) == Walk(v.buckets, v.memberCtr, v.requests[i])
  }

  lemma {:induction false} OneMoreRound(v: World, w: World, i: nat, at: int, k: nat, delay: nat)
    requires RoundsOf(v, w, i, at, k)
    ensures var s := Advance(i, at);
            RoundsOf(v, if Enabled(w, s, delay) then Apply(w, s, delay) else w, i, at, k + 1)
  {
    if Enabled(w, Advance(i, at), delay) {
      AdvanceIsOneRound(w, i, at, delay);
    }
  }

  lemma {:induction false} RoundsFollow(steps: seq<Step>, i: nat, at: int, k: nat, delay: nat)
    requires var v := Run(steps, delay); i < |v.requests| && v.clock == at && v.requests[i].now == at
    ensures RoundsOf(Run(steps, delay), Run(steps + Rounds(i, at, k), delay), i, at, k)
  {
    if k == 0 {
      assert steps + Rounds(i, at, 0) == steps;
    } else {
      RoundsFollow(steps, i, at, k - 1, delay);
      assert steps + Rounds(i, at, k) == (steps + Rounds(i, at, k - 1)) + [Advance(i, at)];
      LastStep(steps + Rounds(i, at, k - 1), Advance(i, at), delay);
      OneMoreRound(Run(steps, delay), Run(steps + Rounds(i, at, k - 1), delay), i, at, k - 1, delay);
    }
  }

  lemma {:induction false} LastStep(steps: seq<Step>, s: Step, delay: nat)
    ensures var w := Run(steps, delay);
            Run(steps + [s], delay) == if Enabled(w, s, delay) then Apply(w, s, delay) else w
  {
    assert (steps + [s])[..|steps|] == steps;
  }

  /**
   The loop is a run of the interleaved world: a request that arrives and takes its rounds at one instant
   leaves the buckets, the counter and itself as `Walk` says, and no other request touched.
   */
  lemma {:induction false} LoopIsARun(steps: seq<Step>, plan: seq<Limit>, at: int, delay: nat)
    requires Run(steps, delay).clock <= at
    ensures var w := Run(steps, delay);
            var n := |w.requests|;
            var t := Run(steps + [Arrive(plan, at)] + Rounds(n, at, |plan|), delay);
            && |t.requests| == n + 1 && t.requests[..n] == w.requests
            && (t.buckets, t.memberCtr, t.requests[n]) == Walk(w.buckets, w.memberCtr, Request(plan, at, 0, false))
  {
    var w := Run(steps, delay);
    var n := |w.requests|;
    var arrived := steps + [Arrive(plan, at)];
    LastStep(steps, Arrive(plan, at), delay);
    RoundsFollow(arrived, n, at, |plan|, delay);
    var t := Run(arrived + Rounds(n, at, |plan|), delay);
    assert !Pending(t.requests[n]);
    forall j | 0 <= j < n ensures t.requests[j] == w.requests[j] {}
  }

  class Limiter {
    var ratelimitBuckets: map<string, seq<Hit>>
    var memberCtr: nat

    constructor ()
      ensures ratelimitBuckets == map[] && memberCtr == 0
    {
      ratelimitBuckets, memberCtr := map[], 0;
    }

    method SlidingWindowConsume(key: string, max: nat, windowMs: int, now: int, member: nat)
      returns (ok: bool, count: nat)
      modifies this`ratelimitBuckets
      ensures var (arr, reply) := Consume(BucketOf(old(ratelimitBuckets), key), Call(max, now, member), windowMs);
              ratelimitBuckets == old(ratelimitBuckets)[key := arr] && ok == reply.ok && count == reply.count
    {
      var arr := if key in ratelimitBuckets then ratelimitBuckets[key] else [];
      var cutoff := now - windowMs;
      var i := 0;
      assert arr[0..] == arr;
      while i < |arr| && arr[i].ts <= cutoff
        invariant i <= |arr| && Prune(arr, cutoff) == Prune(arr[i..], cutoff)
      {
        assert arr[i..][1..] == arr[i + 1..];
        i := i + 1;
      }
      arr := arr[i..];
      ratelimitBuckets := ratelimitBuckets[key := arr];
      if |arr| >= max {
        return false, |arr|;
      }
      if !HasMember(arr, member) {
        arr := arr + [Hit(now, member)];
        ratelimitBuckets := ratelimitBuckets[key := arr];
      }
      return true, |arr|;
    }

    method SlidingWindowQuery(key: string, max: nat, windowMs: int, now: int) returns (count: nat, remaining: nat)
      ensures count == Query(BucketOf(ratelimitBuckets, key), now, windowMs)
      ensures count == Number(BucketOf(ratelimitBuckets, key), Inside(now - windowMs))
      ensures remaining == if count < max then max - count else 0
    {
      var bucket := if key in ratelimitBuckets then ratelimitBuckets[key] else [];
      var cutoff := now - windowMs;
      count := 0;
      KeepCounts(bucket, cutoff);
      assert bucket[0..] == bucket;
      for i := 0 to |bucket|
        invariant count + |Keep(bucket[i..], cutoff)| == |Keep(bucket, cutoff)|
      {
        assert bucket[i..][1..] == bucket[i + 1..];
        if bucket[i].ts > cutoff { count := count + 1; }
      }
      remaining := if count < max then max - count else 0;
    }

    /**
     The loop over the plan: stop at the first refusal; earlier buckets stay charged.  With `failing` the store
     breaks at that position, and the request is let through uncounted from there on.
     */
    method RateLimit(plan: seq<Limit>, now: int, failing: Option<nat>) returns (v: Verdict)
      modifies this
      ensures var upTo := if failing.Some? && failing.value < |plan| then failing.value else |plan|;
              var (b, ctr, r) := Walk(old(ratelimitBuckets), old(memberCtr), Request(plan[..upTo], now, 0, false));
              && ratelimitBuckets == b
              && (v.BlockedBy? <==> r.blocked) && (v.BlockedBy? ==> v.pos == r.pos)
              && (v == Degraded <==> !r.blocked && upTo < |plan|) && v != Off
              && memberCtr == ctr + (if v == Degraded then 1 else 0)
    {
      var upTo := if failing.Some? && failing.value < |plan| then failing.value else |plan|;
      var part := plan[..upTo];
      ghost var start := Walk(ratelimitBuckets, memberCtr, Request(part, now, 0, false));
      for pos := 0 to upTo
        invariant Walk(ratelimitBuckets, memberCtr, Request(part, now, pos, false)) == start
      {
        var l := part[pos];
        memberCtr := memberCtr + 1;
        var ok, count := SlidingWindowConsume(l.key, l.max, l.windowMs, now, memberCtr);
        if !ok {
          return BlockedBy(pos);
        }
      }
      if upTo < |plan| {
        memberCtr := memberCtr + 1;
        return Degraded;
      }
      return Passes;
    }

    /** The middleware: off, or without a healthy store, it lets everything through and counts nothing. */
    method Middleware(plan: seq<Limit>, now: int, enabled: bool, healthy: bool, failing: Option<nat>)
      returns (v: Verdict)
      modifies this
      ensures v == Off <==> !enabled
      ensures !enabled || !healthy ==> ratelimitBuckets == old(ratelimitBuckets) && memberCtr == old(memberCtr)
      ensures enabled && !healthy ==> v == Degraded
      ensures enabled && healthy ==>
                var upTo := if failing.Some? && failing.value < |plan| then failing.value else |plan|;
                var (b, ctr, r) := Walk(old(ratelimitBuckets), old(memberCtr), Request(plan[..upTo], now, 0, false));
                && ratelimitBuckets == b && memberCtr == ctr + (if v == Degraded then 1 else 0)
                && v == (if r.blocked then BlockedBy(r.pos) else if upTo < |plan| then Degraded else Passes)
    {
      if !enabled { return Off; }
      if !healthy { return Degraded; }
      v := RateLimit(plan, now, failing);
    }
  }

  function Inside(cutoff: int): Hit -> bool { (h: Hit) => h.ts > cutoff }

  lemma {:induction false} KeepCounts(arr: seq<Hit>, cutoff: int)
    ensures |Keep(arr, cutoff)| == Number(arr, Inside(cutoff))
  {
    if arr != [] {
      KeepCounts(arr[1..], cutoff);
      assert arr == [arr[0]] + arr[1..];
      NumberCons(arr[0], arr[1..], Inside(cutoff));
    }
  }

  datatype Verdict = Passes | BlockedBy(pos: nat) | Degraded | Off
}
