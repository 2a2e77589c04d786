/** What each event of the scheduler does, at any moment of any run. */
module QosEffects {
  import opened QosModel
  import opened QosInvariant
  import opened QosTheorems
  import opened QosFairness
  import opened Counting

  /** `q` without its `i`-th entry. */
  function Without(q: seq<Entry>, i: nat): seq<Entry>
    requires i < |q|
  {
    q[..i] + q[i + 1..]
  }

  // ---- arrivals -------------------------------------------------------------------------

  /**
   `t` after arrival `x` in `s`: it is passed on, takes a slot, is refused, waits behind everyone, or finds a free
   slot and an empty queue and runs at once.
   */
  predicate ArrivedAs(cfg: Config, s: State, x: Step, t: State)
    requires x.ArriveStep?
  {
    var e := Entry(s.arrivals, x.score, x.now);
    var counted := s.(arrivals := s.arrivals + 1);
    if cfg.mode == Off || (cfg.mode == Cooperative && x.now >= x.fallbackUntil) then
      t == counted.(log := s.log + [Passed(e.id)])
    else if s.inFlight as real < cfg.maxInFlight as real * cfg.bypassThreshold then
      t == counted.(log := s.log + [Bypassed(e.id)], inFlight := s.inFlight + 1, open := s.open + {e.id})
    else if |s.queue| == cfg.maxQueueDepth then
      t == counted.(log := s.log + [Overflowed(e.id)])
    else if s.inFlight >= cfg.maxInFlight then
      t == counted.(queue := s.queue + [e])
    else
      s.queue == [] && t == Alone(counted, e, x.env)
  }

  /** `e` runs at once, and gives its slot back if its callback throws. */
  function Alone(s: State, e: Entry, env: Env): State {
    var t := s.(log := s.log + [Dispatched(e)]);
    if e.id in env.throwing then t.(freed := s.freed + {e.id})
    else t.(inFlight := s.inFlight + 1, open := s.open + {e.id})
  }

  /** Every arrival of every run, in closed form. */
  lemma {:induction false} ArrivalEffect(cfg: Config, steps: seq<Step>, x: Step)
    requires x.ArriveStep?
    ensures ArrivedAs(cfg, Run(cfg, steps), x, Run(cfg, steps + [x]))
  {
    CapacityAndWorkConservation(cfg, steps);
    ArriveCases(cfg, Run(cfg, steps), x);
    RunSnoc(cfg, steps, x);
  }

  lemma {:induction false} ArriveCases(cfg: Config, s: State, x: Step)
    requires x.ArriveStep? && |s.queue| <= cfg.maxQueueDepth && (s.queue != [] ==> s.inFlight >= cfg.maxInFlight)
    ensures ArrivedAs(cfg, s, x, Apply(cfg, s, x))
  {
    if Forwards(cfg, x.now, x.fallbackUntil) || Bypasses(cfg, s) {
      ArriveUnqueued(cfg, s, x);
    } else {
      Contends(cfg, s, Entry(s.arrivals, x.score, x.now), x.env);
    }
  }

  lemma {:induction false} ArriveUnqueued(cfg: Config, s: State, x: Step)
    requires x.ArriveStep? && (Forwards(cfg, x.now, x.fallbackUntil) || Bypasses(cfg, s))
    ensures ArrivedAs(cfg, s, x, Arrive(cfg, s, x.score, x.now, x.fallbackUntil, x.env))
  {}

  /** An arrival without the fast path; nobody waits while a slot is free. */
  lemma {:induction false} Contends(cfg: Config, s: State, e: Entry, env: Env)
    requires |s.queue| <= cfg.maxQueueDepth && (s.queue != [] ==> s.inFlight >= cfg.maxInFlight)
    ensures var t := Contend(cfg, s, e, env);
            var counted := s.(arrivals := s.arrivals + 1);
            if |s.queue| == cfg.maxQueueDepth then t == counted.(log := s.log + [Overflowed(e.id)])
            else if s.inFlight >= cfg.maxInFlight then t == counted.(queue := s.queue + [e])
            else s.queue == [] && t == Alone(counted, e, env)
  {
    if |s.queue| < cfg.maxQueueDepth && s.inFlight < cfg.maxInFlight {
      OneWaits(cfg, Queued(s, e), env);
    }
  }

  lemma {:induction false} OneWaits(cfg: Config, s: State, env: Env)
    requires |s.queue| == 1 && s.inFlight < cfg.maxInFlight
    ensures Drain(cfg, s, env) == Alone(s.(queue := []), s.queue[0], env)
  {
    RemoveAtIs(s.queue, 0);
  }

  // ---- releases -------------------------------------------------------------------------

  /** A release frees its slot, however busy the scheduler is, and with nobody waiting does no more than that. */
  lemma {:induction false} ReleaseFrees(cfg: Config, steps: seq<Step>, id: nat, env: Env)
    requires id in Run(cfg, steps).open
    ensures var s, t := Run(cfg, steps), Run(cfg, steps + [ReleaseStep(id, env)]);
            && id in t.freed && id !in t.open
            && (s.queue == [] || s.inFlight > cfg.maxInFlight ==>
                  t == s.(inFlight := s.inFlight - 1, open := s.open - {id}, freed := s.freed + {id}))
  {
    var s := Run(cfg, steps);
    RunSnoc(cfg, steps, ReleaseStep(id, env));
    DrainFreedGrows(cfg, Freed(s, id), env);
    RunKeeps(cfg, steps + [ReleaseStep(id, env)]);
  }

  /**
   While requests wait, the freed slot goes to the pick of the scan; unless its callback throws, nobody else
   moves and as many run as before.
   */
  lemma {:induction false} ReleaseHandsOver(cfg: Config, steps: seq<Step>, id: nat, env: Env, i: nat)
    requires var s := Run(cfg, steps);
             && id in s.open && s.queue != [] && s.inFlight == cfg.maxInFlight
             && IsPick(s.queue, env.clock(|s.queue|), i) && s.queue[i].id !in env.throwing
    ensures var s, t := Run(cfg, steps), Run(cfg, steps + [ReleaseStep(id, env)]);
            var e := s.queue[i];
            t == s.(queue := Without(s.queue, i), open := s.open - {id} + {e.id}, freed := s.freed + {id},
                    log := s.log + [Dispatched(e)])
  {
    var s := Run(cfg, steps);
    RunSnoc(cfg, steps, ReleaseStep(id, env));
    OnePick(s.queue, env.clock(|s.queue|), i);
    RemoveAtIs(s.queue, i);
    FullAgain(cfg, Freed(s, id), env);
  }

  /** With one slot free, a dispatch whose callback does not throw ends the drain. */
  lemma {:induction false} FullAgain(cfg: Config, s: State, env: Env)
    requires s.queue != [] && s.inFlight + 1 == cfg.maxInFlight
    requires s.queue[Best(s.queue, env.clock(|s.queue|))].id !in env.throwing
    ensures Drain(cfg, s, env) == DispatchOne(s, env)
  {}

  /** An event of a response whose request holds no slot, waiting, refused or done, changes nothing. */
  lemma {:induction false} ReleaseWithoutSlot(cfg: Config, steps: seq<Step>, id: nat, env: Env)
    requires id !in Run(cfg, steps).open
    ensures Run(cfg, steps + [ReleaseStep(id, env)]) == Run(cfg, steps)
  {
    RunSnoc(cfg, steps, ReleaseStep(id, env));
  }

  // ---- timeouts -------------------------------------------------------------------------

  /** A timer takes its own entry out of the queue, leaves the order of the others, and frees no slot. */
  lemma {:induction false} TimeoutEffect(cfg: Config, steps: seq<Step>, i: nat)
    requires i < |Run(cfg, steps).queue|
    ensures var s := Run(cfg, steps);
            Run(cfg, steps + [TimeoutStep(s.queue[i].id)])
            == s.(queue := Without(s.queue, i), log := s.log + [TimedOut(s.queue[i])])
  {
    var s := Run(cfg, steps);
    InArrivalOrder(cfg, steps);
    ExpireOne(s, i);
    RunSnoc(cfg, steps, TimeoutStep(s.queue[i].id));
  }

  lemma {:induction false} ExpireOne(s: State, i: nat)
    requires i < |s.queue| && ArrivalOrder(s.queue)
    ensures Expire(s, s.queue[i].id) == s.(queue := Without(s.queue, i), log := s.log + [TimedOut(s.queue[i])])
  {
    var j := IndexOf(s.queue, s.queue[i].id);
    assert OrderAt(s.queue, i, j) && OrderAt(s.queue, j, i);
    RemoveAtIs(s.queue, i);
  }

  /** A timer that fires after its request has left the queue changes nothing. */
  lemma {:induction false} LateTimeout(cfg: Config, steps: seq<Step>, id: nat)
    requires forall e <- Run(cfg, steps).queue :: e.id != id
    ensures Run(cfg, steps + [TimeoutStep(id)]) == Run(cfg, steps)
  {
    RunSnoc(cfg, steps, TimeoutStep(id));
  }

  // ---- callbacks that throw -------------------------------------------------------------

  /** Whoever is dispatched in a step holds its slot afterwards, and gives it back at once if its callback throws. */
  lemma {:induction false} ThrowingHoldsNoSlot(cfg: Config, steps: seq<Step>, x: Step, e: Entry)
    requires !x.TimeoutStep?
    requires Dispatched(e) in Run(cfg, steps + [x]).log && Dispatched(e) !in Run(cfg, steps).log
    ensures var t := Run(cfg, steps + [x]);
            if e.id in x.env.throwing then e.id in t.freed && e.id !in t.open else e.id in t.open && e.id !in t.freed
  {
    RunSnoc(cfg, steps, x);
    StepHolds(cfg, Run(cfg, steps), x, e);
    NeverBoth(cfg, steps + [x]);
  }

  /** What a step drains: the state with its request queued, or with its slot freed. */
  function Drained(s: State, x: Step): State {
    match x
    case ArriveStep(score, now, _, _) => Queued(s, Entry(s.arrivals, score, now))
    case ReleaseStep(id, _) => Freed(s, id)
    case TimeoutStep(_) => s
  }

  /** A step that dispatches does so by draining. */
  lemma {:induction false} DispatchDrains(cfg: Config, s: State, x: Step, e: Entry)
    requires !x.TimeoutStep? && Dispatched(e) !in s.log && Dispatched(e) in Apply(cfg, s, x).log
    ensures Apply(cfg, s, x) == Drain(cfg, Drained(s, x), x.env)
  {
    if x.ArriveStep? { ArrivalDrains(cfg, s, x); }
  }

  lemma {:induction false} ArrivalDrains(cfg: Config, s: State, x: Step)
    requires x.ArriveStep?
    ensures var t := Arrive(cfg, s, x.score, x.now, x.fallbackUntil, x.env);
            t.log == s.log + [Passed(s.arrivals)] || t.log == s.log + [Bypassed(s.arrivals)]
            || t.log == s.log + [Overflowed(s.arrivals)] || t == Drain(cfg, Drained(s, x), x.env)
  {}

  lemma {:induction false} StepHolds(cfg: Config, s: State, x: Step, e: Entry)
    requires !x.TimeoutStep? && Dispatched(e) !in s.log && Dispatched(e) in Apply(cfg, s, x).log
    ensures var t := Apply(cfg, s, x); if e.id in x.env.throwing then e.id in t.freed else e.id in t.open
  {
    DispatchDrains(cfg, s, x, e);
    DrainHolds(cfg, Drained(s, x), x.env, e);
  }

  lemma {:induction false} NeverBoth(cfg: Config, steps: seq<Step>)
    ensures Run(cfg, steps).open !! Run(cfg, steps).freed
  {
    RunKeeps(cfg, steps);
  }

  lemma {:induction false} DrainHolds(cfg: Config, s: State, env: Env, e: Entry)
    requires Dispatched(e) !in s.log
    ensures var t := Drain(cfg, s, env);
            Dispatched(e) in t.log ==> if e.id in env.throwing then e.id in t.freed else e.id in t.open
    decreases |s.queue|
  {
    if CanDispatch(cfg, s) {
      var t := DispatchOne(s, env);
      if Dispatched(e) in t.log {
        DrainFreedGrows(cfg, t, env);
        DrainOpenGrows(cfg, t, env);
      } else {
        DrainHolds(cfg, t, env, e);
      }
    }
  }

  // ---- priority -------------------------------------------------------------------------

  /**
   The pick is the highest: whoever is dispatched while `e` waits and goes on waiting leads it in base score
   times 50 less enqueue time, up to less than the drift if `e` came first.
   */
  lemma {:induction false} HighestFirst(cfg: Config, steps: seq<Step>, x: Step, f: Entry, e: Entry, drift: nat)
    requires !x.TimeoutStep? && Drifts(x.env, drift)
    requires var s, t := Run(cfg, steps), Run(cfg, steps + [x]);
             e in s.queue && e in t.queue && Dispatched(f) in t.log && Dispatched(f) !in s.log
    ensures var lead := (50 * f.score - f.enqueuedAt) - (50 * e.score - e.enqueuedAt);
            f.id != e.id && (f.id < e.id ==> lead >= 0) && (f.id > e.id ==> lead + drift > 0)
  {
    RunSnoc(cfg, steps, x);
    InArrivalOrder(cfg, steps);
    StepPicks(cfg, Run(cfg, steps), x, f, e, drift);
  }

  lemma {:induction false} StepPicks(cfg: Config, s: State, x: Step, f: Entry, e: Entry, drift: nat)
    requires !x.TimeoutStep? && Drifts(x.env, drift) && ArrivalOrder(s.queue)
    requires forall y <- s.queue :: y.id < s.arrivals
    requires var t := Apply(cfg, s, x);
             e in s.queue && e in t.queue && Dispatched(f) in t.log && Dispatched(f) !in s.log
    ensures Leads(f, e, drift)
  {
    DispatchDrains(cfg, s, x, f);
    if x.ArriveStep? { AppendOrder(s.queue, Entry(s.arrivals, x.score, x.now)); }
    DrainPicks(cfg, Drained(s, x), x.env, f, e, drift);
  }

  lemma {:induction false} InArrivalOrder(cfg: Config, steps: seq<Step>)
    ensures var s := Run(cfg, steps); ArrivalOrder(s.queue) && forall e <- s.queue :: e.id < s.arrivals
  {
    RunKeeps(cfg, steps);
  }

  /** `f` may go while `e` waits. */
  predicate Leads(f: Entry, e: Entry, drift: nat) {
    f.id != e.id && (f.id < e.id ==> Key(f) >= Key(e)) && (f.id > e.id ==> Key(f) + drift > Key(e))
  }

  lemma {:induction false} DrainPicks(cfg: Config, s: State, env: Env, f: Entry, e: Entry, drift: nat)
    requires ArrivalOrder(s.queue) && Drifts(env, drift) && Dispatched(f) !in s.log
    requires var t := Drain(cfg, s, env); e in t.queue && Dispatched(f) in t.log
    ensures Leads(f, e, drift)
    decreases |s.queue|
  {
    if CanDispatch(cfg, s) {
      var t := DispatchOne(s, env);
      RemoveOrder(s.queue, Best(s.queue, env.clock(|s.queue|)));
      if Dispatched(f) in t.log {
        DrainKeepsQueue(cfg, t, env, e);
        PickLeads(s.queue, env, e, drift);
      } else {
        DrainPicks(cfg, t, env, f, e, drift);
      }
    }
  }

  lemma {:induction false} DrainKeepsQueue(cfg: Config, s: State, env: Env, e: Entry)
    requires e in Drain(cfg, s, env).queue
    ensures e in s.queue
    decreases |s.queue|
  {
    if CanDispatch(cfg, s) {
      DrainKeepsQueue(cfg, DispatchOne(s, env), env, e);
      RemoveAtIs(s.queue, Best(s.queue, env.clock(|s.queue|)));
    }
  }

  lemma {:induction false} PickLeads(q: seq<Entry>, env: Env, e: Entry, drift: nat)
    requires ArrivalOrder(q) && Drifts(env, drift) && q != [] && e in RemoveAt(q, Best(q, env.clock(|q|)))
    ensures Leads(q[Best(q, env.clock(|q|))], e, drift)
  {
    var read := env.clock(|q|);
    var i := Best(q, read);
    RemoveAtIs(q, i);
    var j: nat :| j < |q| && j != i && q[j] == e;
    assert OrderAt(q, i, j) && OrderAt(q, j, i);
    if j < i {
      assert AgedScore(q[j], read(j)) < AgedScore(q[i], read(i)) && read(i) <= read(j) + drift;
    } else {
      assert AgedScore(q[j], read(j)) <= AgedScore(q[i], read(i)) && read(i) <= read(j);
    }
  }

  // ---- counters -------------------------------------------------------------------------

  /** Each counter counts the events of its own kind. */
  lemma {:induction false} CountersByKind(log: seq<Event>)
    ensures Count(log) == Tally(Number(log, (ev: Event) => ev.Bypassed?), Number(log, (ev: Event) => ev.Dispatched?),
                                Number(log, (ev: Event) => ev.Overflowed?), Number(log, (ev: Event) => ev.TimedOut?))
  {
    if log != [] { CountersByKind(log[..|log| - 1]); }
  }
}
