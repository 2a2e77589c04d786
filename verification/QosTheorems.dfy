/** Scheduler guarantees over every run: capacity, fairness, refusals and accounting. */
module QosTheorems {
  import opened QosModel
  import opened QosInvariant

  lemma {:induction false} RunKeeps(cfg: Config, steps: seq<Step>)
    ensures Inv(cfg, Run(cfg, steps))
    ensures cfg.bypassThreshold <= 1.0 ==> Run(cfg, steps).inFlight <= cfg.maxInFlight
  {
    if steps != [] {
      var pre := steps[..|steps| - 1];
      RunKeeps(cfg, pre);
      StepKeeps(cfg, Run(cfg, pre), steps[|steps| - 1]);
    }
  }

  lemma {:induction false} StepKeeps(cfg: Config, s: State, step: Step)
    requires Inv(cfg, s)
    ensures var t := Apply(cfg, s, step);
            && Inv(cfg, t)
            && (cfg.bypassThreshold <= 1.0 && s.inFlight <= cfg.maxInFlight ==> t.inFlight <= cfg.maxInFlight)
            && (Seen(t) == Seen(s)
                || (step.ArriveStep? && Seen(t) == Seen(s) + {Entry(s.arrivals, step.score, step.now)}))
            && t.arrivals == s.arrivals + (if step.ArriveStep? then 1 else 0)
  {
    match step
    case ArriveStep(score, now, fallbackUntil, env) => ArriveKeeps(cfg, s, score, now, fallbackUntil, env);
    case ReleaseStep(id, env) => ReleaseKeeps(cfg, s, id, env);
    case TimeoutStep(id) => ExpireKeeps(cfg, s, id);
  }

  // ---- capacity -------------------------------------------------------------------------

  predicate CapSafe(cfg: Config) { cfg.mode.Off? || cfg.maxInFlight == 0 || cfg.bypassThreshold <= 1.0 }

  function Burst(n: nat): seq<Step> { seq(n, _ => ArriveStep(0, 0, 1, CALM)) }

  /** Arrivals below the bypass load all take a slot at once. */
  lemma {:induction false} BurstFills(cfg: Config, n: nat)
    requires !cfg.mode.Off? && (n > 0 ==> (n - 1) as real < BypassLimit(cfg))
    ensures Filled(Run(cfg, Burst(n)), n)
  {
    if n == 0 {
      assert Burst(0) == [];
    } else {
      BurstFills(cfg, n - 1);
      BurstSnoc(n - 1);
      RunSnoc(cfg, Burst(n - 1), ArriveStep(0, 0, 1, CALM));
      BypassNext(cfg, Run(cfg, Burst(n - 1)), n - 1);
    }
  }

  /** The first `n` arrivals hold a slot each, and nobody waits. */
  ghost predicate Filled(s: State, n: nat) {
    s.inFlight == n && s.queue == [] && s.arrivals == n && forall k: nat :: k < n ==> k in s.open
  }

  lemma {:induction false} BypassNext(cfg: Config, s: State, n: nat)
    requires !cfg.mode.Off? && Filled(s, n) && n as real < BypassLimit(cfg)
    ensures Filled(Apply(cfg, s, ArriveStep(0, 0, 1, CALM)), n + 1)
  {
    assert Apply(cfg, s, ArriveStep(0, 0, 1, CALM)) == Logged(s, Bypassed(n));
  }

  lemma {:induction false} BurstSnoc(n: nat)
    ensures Burst(n + 1) == Burst(n) + [ArriveStep(0, 0, 1, CALM)]
  {}

  lemma {:induction false} RunSnoc(cfg: Config, steps: seq<Step>, step: Step)
    ensures Run(cfg, steps + [step]) == Apply(cfg, Run(cfg, steps), step)
  {
    assert (steps + [step])[..|steps|] == steps;
  }

  lemma {:induction false} LimitAboveCap(cfg: Config)
    requires cfg.maxInFlight > 0 && cfg.bypassThreshold > 1.0
    ensures BypassLimit(cfg) > cfg.maxInFlight as real
  {
    var m := cfg.maxInFlight as real;
    assert m * cfg.bypassThreshold > m * 1.0;
  }

  lemma {:induction false} NothingGranted(cfg: Config, steps: seq<Step>)
    requires cfg.mode.Off? || cfg.maxInFlight == 0
    ensures Run(cfg, steps).inFlight == 0 && Run(cfg, steps).open == {}
    ensures cfg.mode.Off? ==> Run(cfg, steps).queue == []
  {
    if steps != [] {
      var pre := steps[..|steps| - 1];
      NothingGranted(cfg, pre);
      StillNothing(cfg, Run(cfg, pre), steps[|steps| - 1]);
    }
  }

  lemma {:induction false} StillNothing(cfg: Config, s: State, step: Step)
    requires (cfg.mode.Off? || cfg.maxInFlight == 0) && s.inFlight == 0 && s.open == {}
    requires cfg.mode.Off? ==> s.queue == []
    ensures var t := Apply(cfg, s, step); t.inFlight == 0 && t.open == {} && (cfg.mode.Off? ==> t.queue == [])
  {
    assert cfg.maxInFlight == 0 ==> BypassLimit(cfg) == 0.0;
  }

  /**
   The cap on concurrent requests holds over every run exactly when the bypass threshold is
   at most one, leaving aside a scheduler that is off or has no slots.
   */
  lemma {:induction false} CapacityExactly(cfg: Config)
    ensures (forall steps :: Run(cfg, steps).inFlight <= cfg.maxInFlight) <==> CapSafe(cfg)
  {
    if CapSafe(cfg) {
      forall steps ensures Run(cfg, steps).inFlight <= cfg.maxInFlight {
        if cfg.bypassThreshold <= 1.0 {
          RunKeeps(cfg, steps);
        } else {
          NothingGranted(cfg, steps);
        }
      }
    } else {
      Overfills(cfg);
    }
  }

  lemma {:induction false} Overfills(cfg: Config)
    requires !CapSafe(cfg)
    ensures exists steps :: Run(cfg, steps).inFlight > cfg.maxInFlight
  {
    LimitAboveCap(cfg);
    BurstFills(cfg, cfg.maxInFlight + 1);
    assert Run(cfg, Burst(cfg.maxInFlight + 1)).inFlight > cfg.maxInFlight;
  }

  /**
   Work conservation and the queue bound at every moment of every run; with a threshold of at most one, the cap
   too.
   */
  lemma {:induction false} CapacityAndWorkConservation(cfg: Config, steps: seq<Step>)
    ensures var s := Run(cfg, steps);
            && 0 <= s.inFlight && |s.queue| <= cfg.maxQueueDepth
            && (s.queue != [] ==> s.inFlight >= cfg.maxInFlight)
            && (cfg.bypassThreshold <= 1.0 ==> s.inFlight <= cfg.maxInFlight)
  {
    RunKeeps(cfg, steps);
  }

  // ---- refusals -------------------------------------------------------------------------

  ghost predicate Refuses(cfg: Config, s: State, step: Step) {
    step.ArriveStep? && Overflowed(s.arrivals) in Apply(cfg, s, step).log
  }

  lemma {:induction false} RefusalMeans(cfg: Config, steps: seq<Step>, step: Step)
    requires step.ArriveStep?
    ensures var s := Run(cfg, steps);
            Refuses(cfg, s, step)
            <==> !Forwards(cfg, step.now, step.fallbackUntil) && !Bypasses(cfg, s) && |s.queue| == cfg.maxQueueDepth
  {
    var s := Run(cfg, steps);
    RunKeeps(cfg, steps);
    NotYetRefused(s);
    if !Forwards(cfg, step.now, step.fallbackUntil) && !Bypasses(cfg, s) {
      ContendRefusal(cfg, s, Entry(s.arrivals, step.score, step.now), step.env);
    }
  }

  lemma {:induction false} NotYetRefused(s: State)
    requires Known(s)
    ensures Overflowed(s.arrivals) !in s.log
  {
    var ev := Overflowed(s.arrivals);
    assert EventId(ev) == s.arrivals;
  }

  lemma {:induction false} ContendRefusal(cfg: Config, s: State, e: Entry, env: Env)
    requires Overflowed(s.arrivals) !in s.log && e.id == s.arrivals && |s.queue| <= cfg.maxQueueDepth
    ensures Overflowed(s.arrivals) in Contend(cfg, s, e, env).log <==> |s.queue| == cfg.maxQueueDepth
  {
    if |s.queue| < cfg.maxQueueDepth {
      DrainRefusesNone(cfg, Queued(s, e), env, s.arrivals);
    }
  }

  /**
   With a threshold of at most one, scheduled traffic gets a 503 exactly when every slot and every queue place
   is taken.
   */
  lemma {:induction false} RefusedExactlyWhenFull(cfg: Config, steps: seq<Step>, step: Step)
    requires cfg.bypassThreshold <= 1.0 && cfg.maxQueueDepth >= 1 && step.ArriveStep?
    ensures var s := Run(cfg, steps);
            Refuses(cfg, s, step)
            <==> !Forwards(cfg, step.now, step.fallbackUntil)
                 && s.inFlight == cfg.maxInFlight && |s.queue| == cfg.maxQueueDepth
  {
    var s := Run(cfg, steps);
    RunKeeps(cfg, steps);
    RefusalMeans(cfg, steps, step);
    if Bypasses(cfg, s) { BypassBelowCap(cfg, s); }
  }

  predicate RefusalSafe(cfg: Config) {
    cfg.mode.Off? || cfg.maxQueueDepth > 0 || BypassLimit(cfg) > (cfg.maxInFlight - 1) as real
  }

  /**
   No request is refused while a slot is free, exactly when there is a queue, leaving aside a
   scheduler that is off or whose fast path covers every slot.
   */
  lemma {:induction false} RefusesOnlyWhenBusyExactly(cfg: Config)
    ensures (forall steps, step :: Refuses(cfg, Run(cfg, steps), step) ==> Run(cfg, steps).inFlight >= cfg.maxInFlight)
            <==> RefusalSafe(cfg)
  {
    if RefusalSafe(cfg) {
      forall steps, step | Refuses(cfg, Run(cfg, steps), step) ensures Run(cfg, steps).inFlight >= cfg.maxInFlight {
        RunKeeps(cfg, steps);
        RefusalMeans(cfg, steps, step);
      }
    } else {
      var n := IdleRefusal(cfg);
      assert Run(cfg, Burst(n)).inFlight < cfg.maxInFlight;
    }
  }

  lemma {:induction false} IdleRefusal(cfg: Config) returns (n: nat)
    requires !RefusalSafe(cfg)
    ensures Refuses(cfg, Run(cfg, Burst(n)), ArriveStep(0, 0, 1, CALM)) && Run(cfg, Burst(n)).inFlight < cfg.maxInFlight
  {
    assert cfg.maxInFlight > 0 by {
      assert cfg.maxInFlight == 0 ==> BypassLimit(cfg) == 0.0 * cfg.bypassThreshold == 0.0;
    }
    n := LeastFrom(BypassLimit(cfg));
    BurstFills(cfg, n);
    RefusalMeans(cfg, Burst(n), ArriveStep(0, 0, 1, CALM));
  }

  lemma {:induction false} LeastFrom(l: real) returns (n: nat)
    ensures l <= n as real && (n > 0 ==> (n - 1) as real < l)
  {
    n := if l <= 0.0 then 0 else if l.Floor as real == l then l.Floor else l.Floor + 1;
  }

  lemma {:induction false} DrainRefusesNone(cfg: Config, s: State, env: Env, id: nat)
    ensures Overflowed(id) in Drain(cfg, s, env).log <==> Overflowed(id) in s.log
    decreases |s.queue|
  {
    if CanDispatch(cfg, s) {
      DrainRefusesNone(cfg, DispatchOne(s, env), env, id);
    }
  }

  // ---- the fast path --------------------------------------------------------------------

  ghost predicate StillWaitsAfter(s: State, i: nat, e: Entry) {
    e in s.queue || exists j :: i < j < |s.log| && LeavesQueue(s.log[j]) && s.log[j].entry == e
  }

  /** The request of event `i` skipped the queue although `e`, which had arrived before it, was waiting. */
  ghost predicate Jumped(s: State, i: int, e: Entry) {
    0 <= i < |s.log| && s.log[i].Bypassed? && StillWaitsAfter(s, i, e) && e.id < s.log[i].id
  }

  predicate FastPathSafe(cfg: Config) {
    cfg.mode.Off? || cfg.maxInFlight == 0 || cfg.maxQueueDepth == 0 || cfg.bypassThreshold <= 1.0
  }

  ghost predicate BypassAt(log: seq<Event>, i: int, j: int) {
    0 <= i < j < |log| && log[i].Bypassed? && LeavesQueue(log[j]) ==> log[i].id < log[j].entry.id
  }

  /** Whoever skipped the queue arrived before everyone who waited then or later. */
  ghost predicate NoJump(log: seq<Event>, q: seq<Entry>) {
    && (forall a <- log, e <- q :: a.Bypassed? ==> a.id < e.id)
    && (forall i, j :: BypassAt(log, i, j))
  }

  lemma {:induction false} FastPathOnlyWhenEmpty(cfg: Config, s: State, now: int, fallbackUntil: int)
    requires Inv(cfg, s) && FastPathSafe(cfg) && !Forwards(cfg, now, fallbackUntil) && Bypasses(cfg, s)
    ensures s.queue == []
  {
    if cfg.bypassThreshold <= 1.0 { BypassBelowCap(cfg, s); }
  }

  lemma {:induction false} NoJumpSnoc(log: seq<Event>, q: seq<Entry>, ev: Event, r: seq<Entry>)
    requires NoJump(log, q) && (forall e <- r :: e in q)
    requires LeavesQueue(ev) ==> ev.entry in q
    requires ev.Bypassed? ==> q == []
    ensures NoJump(log + [ev], r)
  {
    var all := log + [ev];
    forall a, e | a in all && e in r && a.Bypassed? ensures a.id < e.id {
      assert a in log || a == ev;
    }
    forall i, j ensures BypassAt(all, i, j) {
      if 0 <= i < j < |all| {
        assert all[i] == log[i] && log[i] in log;
        assert BypassAt(log, i, j);
      }
    }
  }

  lemma {:induction false} DrainNoJump(cfg: Config, s: State, env: Env)
    requires NoJump(s.log, s.queue)
    ensures var t := Drain(cfg, s, env); NoJump(t.log, t.queue)
    decreases |s.queue|
  {
    if CanDispatch(cfg, s) {
      var i := Best(s.queue, env.clock(|s.queue|));
      RemoveAtIs(s.queue, i);
      NoJumpSnoc(s.log, s.queue, Dispatched(s.queue[i]), RemoveAt(s.queue, i));
      DrainNoJump(cfg, DispatchOne(s, env), env);
    }
  }

  lemma {:induction false} ArriveNoJump(cfg: Config, s: State, score: int, now: int, fallbackUntil: int,
                                        env: Env)
    requires Inv(cfg, s) && FastPathSafe(cfg) && NoJump(s.log, s.queue)
    ensures var t := Arrive(cfg, s, score, now, fallbackUntil, env); NoJump(t.log, t.queue)
  {
    var id := s.arrivals;
    if Forwards(cfg, now, fallbackUntil) {
      NoJumpSnoc(s.log, s.queue, Passed(id), s.queue);
    } else if Bypasses(cfg, s) {
      FastPathOnlyWhenEmpty(cfg, s, now, fallbackUntil);
      NoJumpSnoc(s.log, s.queue, Bypassed(id), s.queue);
    } else if |s.queue| >= cfg.maxQueueDepth {
      NoJumpSnoc(s.log, s.queue, Overflowed(id), s.queue);
    } else {
      QueuedNoJump(s, Entry(id, score, now));
      DrainNoJump(cfg, Queued(s, Entry(id, score, now)), env);
    }
  }

  lemma {:induction false} QueuedNoJump(s: State, e: Entry)
    requires Known(s) && e.id == s.arrivals && NoJump(s.log, s.queue)
    ensures NoJump(s.log, s.queue + [e])
  {
    forall a, x | a in s.log && x in s.queue + [e] && a.Bypassed? ensures a.id < x.id {
      assert EventId(a) < s.arrivals;
      assert x in s.queue || x == e;
    }
  }

  lemma {:induction false} RunNoJump(cfg: Config, steps: seq<Step>)
    requires FastPathSafe(cfg)
    ensures var s := Run(cfg, steps); NoJump(s.log, s.queue)
  {
    if steps != [] {
      var pre, x := steps[..|steps| - 1], steps[|steps| - 1];
      RunNoJump(cfg, pre);
      RunKeeps(cfg, pre);
      StepNoJump(cfg, Run(cfg, pre), x);
    }
  }

  lemma {:induction false} StepNoJump(cfg: Config, s: State, step: Step)
    requires Inv(cfg, s) && FastPathSafe(cfg) && NoJump(s.log, s.queue)
    ensures var t := Apply(cfg, s, step); NoJump(t.log, t.queue)
  {
    match step
    case ArriveStep(score, now, fallbackUntil, env) => ArriveNoJump(cfg, s, score, now, fallbackUntil, env);
    case ReleaseStep(id, env) => DrainNoJump(cfg, Freed(s, id), env);
    case TimeoutStep(id) => ExpireNoJump(s, id);
  }

  lemma {:induction false} ExpireNoJump(s: State, id: nat)
    requires NoJump(s.log, s.queue)
    ensures var t := Expire(s, id); NoJump(t.log, t.queue)
  {
    var i := IndexOf(s.queue, id);
    if i >= 0 {
      RemoveAtIs(s.queue, i);
      NoJumpSnoc(s.log, s.queue, TimedOut(s.queue[i]), RemoveAt(s.queue, i));
    }
  }

  /** Fill to the bypass load, queue one, free one slot, and let the next arrival take it. */
  function JumpSteps(n: nat): seq<Step> {
    Burst(n) + [ArriveStep(0, 0, 1, CALM)] + [ReleaseStep(0, CALM)] + [ArriveStep(0, 0, 1, CALM)]
  }

  lemma {:induction false} JumpHappens(cfg: Config, n: nat)
    requires !cfg.mode.Off? && cfg.maxQueueDepth > 0 && n > cfg.maxInFlight && n > 0
    requires (n - 1) as real < BypassLimit(cfg) <= n as real
    ensures exists i, e :: Jumped(Run(cfg, JumpSteps(n)), i, e)
  {
    var arrive := ArriveStep(0, 0, 1, CALM);
    BurstFills(cfg, n);
    RunThree(cfg, Burst(n), arrive, ReleaseStep(0, CALM), arrive);
    JumpStates(cfg, Run(cfg, Burst(n)), n);
    var t := Run(cfg, JumpSteps(n));
    assert Jumped(t, |t.log| - 1, Entry(n, 0, 0));
  }

  lemma {:induction false} RunThree(cfg: Config, steps: seq<Step>, x: Step, y: Step, z: Step)
    ensures Run(cfg, steps + [x] + [y] + [z]) == Apply(cfg, Apply(cfg, Apply(cfg, Run(cfg, steps), x), y), z)
  {
    RunSnoc(cfg, steps, x);
    RunSnoc(cfg, steps + [x], y);
    RunSnoc(cfg, steps + [x] + [y], z);
  }

  lemma {:induction false} JumpStates(cfg: Config, s: State, n: nat)
    requires !cfg.mode.Off? && cfg.maxQueueDepth > 0 && n > cfg.maxInFlight && n > 0
    requires (n - 1) as real < BypassLimit(cfg) <= n as real
    requires s.inFlight == n && s.queue == [] && s.arrivals == n && 0 in s.open
    ensures var arrive := ArriveStep(0, 0, 1, CALM);
            var t := Apply(cfg, Apply(cfg, Apply(cfg, s, arrive), ReleaseStep(0, CALM)), arrive);
            Jumped(t, |t.log| - 1, Entry(n, 0, 0))
  {
    var arrive := ArriveStep(0, 0, 1, CALM);
    var s1 := Apply(cfg, s, arrive);
    assert s1 == s.(arrivals := n + 1, queue := [Entry(n, 0, 0)]);
    var s2 := Apply(cfg, s1, ReleaseStep(0, CALM));
    assert s2.queue == s1.queue && s2.inFlight == n - 1 && s2.arrivals == n + 1;
    assert Apply(cfg, s2, arrive) == Logged(s2, Bypassed(n + 1));
  }

  /**
   No request ever skips the queue ahead of one waiting in it, exactly when the bypass threshold is
   at most one, leaving aside a scheduler that is off, has no slots or keeps no queue.
   */
  lemma {:induction false} FastPathExactly(cfg: Config)
    ensures (forall steps, i, e :: !Jumped(Run(cfg, steps), i, e)) <==> FastPathSafe(cfg)
  {
    if FastPathSafe(cfg) {
      forall steps, i, e ensures !Jumped(Run(cfg, steps), i, e) {
        RunNoJump(cfg, steps);
        NoJumpMeans(Run(cfg, steps), i, e);
      }
    } else {
      LimitAboveCap(cfg);
      var n := LeastFrom(BypassLimit(cfg));
      JumpHappens(cfg, n);
    }
  }

  lemma {:induction false} NoJumpMeans(s: State, i: int, e: Entry)
    requires NoJump(s.log, s.queue)
    ensures !Jumped(s, i, e)
  {
    if 0 <= i < |s.log| && s.log[i].Bypassed? && StillWaitsAfter(s, i, e) {
      assert s.log[i] in s.log;
      if e !in s.queue {
        var j :| i < j < |s.log| && LeavesQueue(s.log[j]) && s.log[j].entry == e;
        assert BypassAt(s.log, i, j);
      }
    }
  }

  // ---- accounting -----------------------------------------------------------------------

  datatype Tally = Tally(bypassed: nat, dispatched: nat, overflow: nat, timeout: nat)

  function Bump(c: Tally, ev: Event): Tally {
    match ev
    case Passed(_) => c
    case Bypassed(_) => c.(bypassed := c.bypassed + 1)
    case Dispatched(_) => c.(dispatched := c.dispatched + 1)
    case Overflowed(_) => c.(overflow := c.overflow + 1)
    case TimedOut(_) => c.(timeout := c.timeout + 1)
  }

  function Count(log: seq<Event>): Tally {
    if log == [] then Tally(0, 0, 0, 0)
    else Bump(Count(log[..|log| - 1]), log[|log| - 1])
  }

  /** Requests handed on unscheduled, which no counter counts. */
  function PassedOn(log: seq<Event>): nat {
    if log == [] then 0
    else PassedOn(log[..|log| - 1]) + (if log[|log| - 1].Passed? then 1 else 0)
  }

  lemma {:induction false} CountsAll(log: seq<Event>)
    ensures var c := Count(log); PassedOn(log) + c.bypassed + c.dispatched + c.overflow + c.timeout == |log|
  {
    if log != [] {
      CountsAll(log[..|log| - 1]);
    }
  }

  /** Every request has one outcome or still waits, and the slots in use are those granted and not released. */
  lemma {:induction false} Accounting(cfg: Config, steps: seq<Step>)
    ensures var s := Run(cfg, steps);
            var c := Count(s.log);
            && s.arrivals == PassedOn(s.log) + c.bypassed + c.dispatched + c.overflow + c.timeout + |s.queue|
            && (forall i, j :: 0 <= i < j < |s.log| ==> EventId(s.log[i]) != EventId(s.log[j]))
            && (forall a <- s.log, e <- s.queue :: EventId(a) != e.id)
            && s.freed <= GrantedIds(s.log)
            && s.inFlight == |GrantedIds(s.log) - s.freed|
  {
    var s := Run(cfg, steps);
    RunKeeps(cfg, steps);
    CountsAll(s.log);
    assert GrantedIds(s.log) - s.freed == s.open;
    forall i, j | 0 <= i < j < |s.log| ensures EventId(s.log[i]) != EventId(s.log[j]) {
      assert OutcomeAt(s.log, i, j);
    }
  }

  /** When `finish` and `close` both fire, the second changes nothing, however much later it comes. */
  lemma {:induction false} SecondReleaseIgnored(cfg: Config, steps: seq<Step>, later: seq<Step>, id: nat,
                                                env: Env)
    requires id in Run(cfg, steps).freed
    ensures var s := Run(cfg, steps + later); id in s.freed && Release(cfg, s, id, env) == s
  {
    StaysFreed(cfg, steps, later, id);
    RunKeeps(cfg, steps + later);
  }

  lemma {:induction false} StaysFreed(cfg: Config, steps: seq<Step>, later: seq<Step>, id: nat)
    requires id in Run(cfg, steps).freed
    ensures id in Run(cfg, steps + later).freed
  {
    if later == [] {
      assert steps + later == steps;
    } else {
      var pre, x := later[..|later| - 1], later[|later| - 1];
      StaysFreed(cfg, steps, pre, id);
      assert steps + later == (steps + pre) + [x];
      RunSnoc(cfg, steps + pre, x);
      FreedGrows(cfg, Run(cfg, steps + pre), x);
    }
  }

  /** A slot is held until its request's `finish` or `close` fires: without one of them, for ever. */
  lemma {:induction false} HeldUntilReleased(cfg: Config, steps: seq<Step>, later: seq<Step>, id: nat)
    requires id in Run(cfg, steps).open && forall x <- later :: x.ReleaseStep? ==> x.id != id
    ensures id in Run(cfg, steps + later).open
  {
    if later == [] {
      assert steps + later == steps;
    } else {
      var pre, x := later[..|later| - 1], later[|later| - 1];
      assert x in later && forall y <- pre :: y in later;
      HeldUntilReleased(cfg, steps, pre, id);
      assert steps + later == (steps + pre) + [x];
      RunSnoc(cfg, steps + pre, x);
      OpenKept(cfg, Run(cfg, steps + pre), x, id);
    }
  }

  lemma {:induction false} OpenKept(cfg: Config, s: State, step: Step, id: nat)
    requires id in s.open && (step.ReleaseStep? ==> step.id != id)
    ensures id in Apply(cfg, s, step).open
  {
    match step
    case ArriveStep(score, now, fallbackUntil, env) =>
      DrainOpenGrows(cfg, Queued(s, Entry(s.arrivals, score, now)), env);
    case ReleaseStep(other, env) => DrainOpenGrows(cfg, Freed(s, other), env);
    case TimeoutStep(_) =>
  }

  lemma {:induction false} DrainOpenGrows(cfg: Config, s: State, env: Env)
    ensures s.open <= Drain(cfg, s, env).open
    decreases |s.queue|
  {
    if CanDispatch(cfg, s) {
      DrainOpenGrows(cfg, DispatchOne(s, env), env);
    }
  }

  lemma {:induction false} FreedGrows(cfg: Config, s: State, step: Step)
    ensures s.freed <= Apply(cfg, s, step).freed
  {
    match step
    case ArriveStep(score, now, fallbackUntil, env) =>
      DrainFreedGrows(cfg, Queued(s, Entry(s.arrivals, score, now)), env);
    case ReleaseStep(id, env) => DrainFreedGrows(cfg, Freed(s, id), env);
    case TimeoutStep(_) =>
  }

  lemma {:induction false} DrainFreedGrows(cfg: Config, s: State, env: Env)
    ensures s.freed <= Drain(cfg, s, env).freed
    decreases |s.queue|
  {
    if CanDispatch(cfg, s) {
      DrainFreedGrows(cfg, DispatchOne(s, env), env);
    }
  }
}
