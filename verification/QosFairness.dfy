/** Who may go ahead of whom, over every run, while the clock moves on inside a scan by at most `drift`. */
module QosFairness {
  import opened QosModel
  import opened QosInvariant
  import opened QosTheorems

  /** During one scan the clock goes forward, and by no more than `drift`. */
  ghost predicate Drifts(env: Env, drift: nat) {
    forall n: nat, i: nat, j: nat :: i <= j ==> env.clock(n)(i) <= env.clock(n)(j) <= env.clock(n)(i) + drift
  }

  ghost predicate AllDrift(steps: seq<Step>, drift: nat) {
    forall x <- steps :: !x.TimeoutStep? ==> Drifts(x.env, drift)
  }

  // ---- what every step keeps ------------------------------------------------------------

  /** Event `a` passed over entry `e`, which was waiting, by less than the drift. */
  predicate Near(a: Event, e: Entry, drift: nat) {
    a.Dispatched? && e.id < a.entry.id ==> Key(e) < Key(a.entry) + drift
  }

  predicate NearAt(log: seq<Event>, i: int, j: int, drift: nat) {
    0 <= i < j < |log| && LeavesQueue(log[j]) ==> Near(log[i], log[j].entry, drift)
  }

  ghost predicate Orderly(log: seq<Event>, q: seq<Entry>, drift: nat) {
    (forall a <- log, e <- q :: Near(a, e, drift)) && (forall i, j :: NearAt(log, i, j, drift))
  }

  lemma {:induction false} OrderlySnoc(log: seq<Event>, q: seq<Entry>, ev: Event, r: seq<Entry>, drift: nat)
    requires Orderly(log, q, drift) && (LeavesQueue(ev) ==> ev.entry in q)
    requires forall e <- r :: e in q && Near(ev, e, drift)
    ensures Orderly(log + [ev], r, drift)
  {
    var all := log + [ev];
    forall a, e | a in all && e in r ensures Near(a, e, drift) {
      assert a in log || a == ev;
    }
    forall i, j ensures NearAt(all, i, j, drift) {
      if 0 <= i < j < |all| {
        assert all[i] == log[i] && log[i] in log;
        assert NearAt(log, i, j, drift);
      }
    }
  }

  /** Whoever stands before the pick leads it by less than the drift, and whoever stands behind does not lead. */
  lemma {:induction false} PickNear(q: seq<Entry>, read: nat -> int, i: nat, drift: nat)
    requires IsPick(q, read, i) && ArrivalOrder(q)
    requires forall a: nat, b: nat :: a <= b ==> read(a) <= read(b) <= read(a) + drift
    ensures forall e <- q :: Near(Dispatched(q[i]), e, drift)
  {
    forall e | e in q ensures Near(Dispatched(q[i]), e, drift) {
      var j :| 0 <= j < |q| && q[j] == e;
      assert OrderAt(q, i, j);
      if j < i {
        assert AgedScore(q[j], read(j)) < AgedScore(q[i], read(i));
        assert read(i) <= read(j) + drift;
      }
    }
  }

  lemma {:induction false} DispatchOrderly(s: State, env: Env, drift: nat)
    requires Accounted(s) && s.queue != [] && Drifts(env, drift) && Orderly(s.log, s.queue, drift)
    ensures var t := DispatchOne(s, env); Orderly(t.log, t.queue, drift)
  {
    var read := env.clock(|s.queue|);
    var i := Best(s.queue, read);
    RemoveAtIs(s.queue, i);
    PickNear(s.queue, read, i, drift);
    OrderlySnoc(s.log, s.queue, Dispatched(s.queue[i]), RemoveAt(s.queue, i), drift);
  }

  lemma {:induction false} DrainOrderly(cfg: Config, s: State, env: Env, drift: nat)
    requires Accounted(s) && Drifts(env, drift) && Orderly(s.log, s.queue, drift)
    ensures var t := Drain(cfg, s, env); Orderly(t.log, t.queue, drift)
    decreases |s.queue|
  {
    if CanDispatch(cfg, s) {
      DispatchOrderly(s, env, drift);
      DispatchOneKeeps(s, env);
      DrainOrderly(cfg, DispatchOne(s, env), env, drift);
    }
  }

  lemma {:induction false} QueuedOrderly(s: State, e: Entry, drift: nat)
    requires Known(s) && e.id == s.arrivals && Orderly(s.log, s.queue, drift)
    ensures Orderly(s.log, s.queue + [e], drift)
  {
    forall a, x | a in s.log && x in s.queue + [e] ensures Near(a, x, drift) {
      assert EventId(a) < s.arrivals;
      assert x in s.queue || x == e;
    }
  }

  lemma {:induction false} ArriveOrderly(cfg: Config, s: State, score: int, now: int, fallbackUntil: int, env: Env,
                                         drift: nat)
    requires Inv(cfg, s) && Drifts(env, drift) && Orderly(s.log, s.queue, drift)
    ensures var t := Arrive(cfg, s, score, now, fallbackUntil, env); Orderly(t.log, t.queue, drift)
  {
    var e := Entry(s.arrivals, score, now);
    if Forwards(cfg, now, fallbackUntil) {
      OrderlySnoc(s.log, s.queue, Passed(e.id), s.queue, drift);
    } else if Bypasses(cfg, s) {
      OrderlySnoc(s.log, s.queue, Bypassed(e.id), s.queue, drift);
    } else if |s.queue| >= cfg.maxQueueDepth {
      OrderlySnoc(s.log, s.queue, Overflowed(e.id), s.queue, drift);
    } else {
      QueuedOrderly(s, e, drift);
      EnqueueKeeps(s, e);
      DrainOrderly(cfg, Queued(s, e), env, drift);
    }
  }

  lemma {:induction false} ReleaseOrderly(cfg: Config, s: State, id: nat, env: Env, drift: nat)
    requires Accounted(s) && Drifts(env, drift) && Orderly(s.log, s.queue, drift)
    ensures var t := Release(cfg, s, id, env); Orderly(t.log, t.queue, drift)
  {
    if id in s.open {
      SlotFreed(s, id);
      DrainOrderly(cfg, Freed(s, id), env, drift);
    }
  }

  lemma {:induction false} ExpireOrderly(s: State, id: nat, drift: nat)
    requires Orderly(s.log, s.queue, drift)
    ensures var t := Expire(s, id); Orderly(t.log, t.queue, drift)
  {
    var i := IndexOf(s.queue, id);
    if i >= 0 {
      RemoveAtIs(s.queue, i);
      OrderlySnoc(s.log, s.queue, TimedOut(s.queue[i]), RemoveAt(s.queue, i), drift);
    }
  }

  lemma {:induction false} StepOrderly(cfg: Config, s: State, step: Step, drift: nat)
    requires Inv(cfg, s) && Orderly(s.log, s.queue, drift) && (!step.TimeoutStep? ==> Drifts(step.env, drift))
    ensures var t := Apply(cfg, s, step); Orderly(t.log, t.queue, drift)
  {
    match step
    case ArriveStep(score, now, fallbackUntil, env) => ArriveOrderly(cfg, s, score, now, fallbackUntil, env, drift);
    case ReleaseStep(id, env) => ReleaseOrderly(cfg, s, id, env, drift);
    case TimeoutStep(id) => ExpireOrderly(s, id, drift);
  }

  lemma {:induction false} RunOrderly(cfg: Config, steps: seq<Step>, drift: nat)
    requires AllDrift(steps, drift)
    ensures var s := Run(cfg, steps); Orderly(s.log, s.queue, drift)
  {
    if steps != [] {
      var pre, x := steps[..|steps| - 1], steps[|steps| - 1];
      assert x in steps && forall y <- pre :: y in steps;
      RunOrderly(cfg, pre, drift);
      RunKeeps(cfg, pre);
      StepOrderly(cfg, Run(cfg, pre), x, drift);
    }
  }

  // ---- overtaking -----------------------------------------------------------------------

  /** `f` was dispatched while `e`, which had arrived before it, was waiting. */
  ghost predicate Overtook(s: State, f: Entry, e: Entry) {
    e.id < f.id && exists i :: 0 <= i < |s.log| && s.log[i] == Dispatched(f) && StillWaitsAfter(s, i, e)
  }

  /** Whoever overtakes is ahead in aged score at every instant, up to less than the drift of a scan. */
  lemma {:induction false} OvertakerAheadAlways(cfg: Config, steps: seq<Step>, f: Entry, e: Entry, now: int, drift: nat)
    requires AllDrift(steps, drift) && Overtook(Run(cfg, steps), f, e)
    ensures AgedScore(f, now) + drift > AgedScore(e, now)
    ensures f in Seen(Run(cfg, steps)) && e in Seen(Run(cfg, steps))
  {
    var s := Run(cfg, steps);
    RunOrderly(cfg, steps, drift);
    var i :| 0 <= i < |s.log| && s.log[i] == Dispatched(f) && StillWaitsAfter(s, i, e);
    assert LeavesQueue(s.log[i]) && s.log[i] in s.log;
    if e in s.queue {
      assert Near(s.log[i], e, drift);
    } else {
      var j :| i < j < |s.log| && LeavesQueue(s.log[j]) && s.log[j].entry == e;
      assert NearAt(s.log, i, j, drift);
      assert s.log[j] in s.log;
    }
  }

  /** No starvation: past a horizon set by the score gap and the drift, later arrivals cannot go first. */
  lemma {:induction false} BoundedOvertaking(cfg: Config, steps: seq<Step>, maxScore: int, drift: nat)
    requires AllDrift(steps, drift)
    ensures forall f, e :: Overtook(Run(cfg, steps), f, e) && f.score <= maxScore
                           ==> f.enqueuedAt - e.enqueuedAt < 50 * (maxScore - e.score) + drift
  {
    forall f, e | Overtook(Run(cfg, steps), f, e) && f.score <= maxScore
      ensures f.enqueuedAt - e.enqueuedAt < 50 * (maxScore - e.score) + drift
    {
      OvertakerAheadAlways(cfg, steps, f, e, 0, drift);
    }
  }

  ghost predicate Timely(s: State, bound: int) {
    && (forall a <- Seen(s) :: a.enqueuedAt <= bound && a.id < s.arrivals)
    && (forall a <- Seen(s), b <- Seen(s) :: a.id < b.id ==> a.enqueuedAt <= b.enqueuedAt)
  }

  lemma {:induction false} RunTimely(cfg: Config, steps: seq<Step>, bound: int)
    requires ClockForward(steps)
    requires forall x <- steps :: x.ArriveStep? ==> x.now <= bound
    ensures Timely(Run(cfg, steps), bound)
  {
    if steps != [] {
      var pre, x := steps[..|steps| - 1], steps[|steps| - 1];
      var b := if x.ArriveStep? then x.now else bound;
      forall y | y in pre && y.ArriveStep? ensures y.now <= b {
        var i :| 0 <= i < |pre| && pre[i] == y;
        assert steps[i] == y && y in steps;
      }
      RunTimely(cfg, pre, b);
      RunKeeps(cfg, pre);
      StepKeeps(cfg, Run(cfg, pre), x);
      assert x in steps;
      TimelyStep(Run(cfg, pre), Run(cfg, steps), x, b, bound);
    }
  }

  lemma {:induction false} TimelyStep(s: State, t: State, x: Step, b: int, bound: int)
    requires Timely(s, b) && b <= bound && (x.ArriveStep? ==> x.now == b)
    requires Seen(t) == Seen(s) || (x.ArriveStep? && Seen(t) == Seen(s) + {Entry(s.arrivals, x.score, x.now)})
    requires t.arrivals == s.arrivals + (if x.ArriveStep? then 1 else 0)
    ensures Timely(t, bound)
  {
    forall a, c | a in Seen(t) && c in Seen(t) && a.id < c.id ensures a.enqueuedAt <= c.enqueuedAt {
      assert a in Seen(s);
    }
  }

  /**
   With a forward clock an entry is overtaken only by a higher base score, or by one enqueued less than the
   drift after it.  Within one clock reading per scan equal scores leave in order.
   */
  lemma {:induction false} FifoAmongEquals(cfg: Config, steps: seq<Step>, drift: nat)
    requires ClockForward(steps) && AllDrift(steps, drift)
    ensures forall f, e :: Overtook(Run(cfg, steps), f, e) ==>
              f.score > e.score || 0 <= f.enqueuedAt - e.enqueuedAt < drift
  {
    var s := Run(cfg, steps);
    RunTimely(cfg, steps, Latest(steps));
    forall f, e | Overtook(s, f, e) ensures f.score > e.score || 0 <= f.enqueuedAt - e.enqueuedAt < drift {
      OvertakerAheadAlways(cfg, steps, f, e, 0, drift);
    }
  }

  ghost function Latest(steps: seq<Step>): (b: int)
    ensures forall x <- steps :: x.ArriveStep? ==> x.now <= b
  {
    if steps == [] then 0
    else
      var b := Latest(steps[1..]);
      if steps[0].ArriveStep? && steps[0].now > b then steps[0].now else b
  }
}
