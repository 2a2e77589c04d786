/** The scheduler as the program keeps it: fields updated in place, proved equal to the model. */
module QosScheduler {
  import opened QosModel
  import opened QosInvariant
  import opened QosTheorems

  class Scheduler {
    const cfg: Config
    var qosInFlight: int
    var qosQueue: seq<Entry>
    var arrivals: nat
    var open: set<nat>            // requests whose `released` flag is still false
    var qosTotals: Tally
    ghost var model: State

    /** The fields agree with the model state. */
    ghost predicate Valid()
      reads this
    {
      && qosInFlight == model.inFlight && qosQueue == model.queue && arrivals == model.arrivals
      && open == model.open && qosTotals == Count(model.log)
      && Tidy(model)
    }

    constructor (cfg: Config)
      ensures Valid() && this.cfg == cfg && model == INIT
    {
      this.cfg := cfg;
      qosInFlight, qosQueue, arrivals, open := 0, [], 0, {};
      qosTotals := Tally(0, 0, 0, 0);
      model := INIT;
    }

    /** The linear scan; `read(i)` is the time read for the entry at position `i`. */
    method Scan(read: nat -> int) returns (best: nat)
      requires qosQueue != []
      ensures best == Best(qosQueue, read) && IsPick(qosQueue, read, best)
    {
      best := 0;
      var bestScore := AgedScore(qosQueue[0], read(0));
      for i := 1 to |qosQueue|
        invariant best < i && bestScore == AgedScore(qosQueue[best], read(best))
        invariant forall j: nat :: j < i ==> AgedScore(qosQueue[j], read(j)) <= bestScore
        invariant forall j: nat :: j < best ==> AgedScore(qosQueue[j], read(j)) < bestScore
      {
        var s := AgedScore(qosQueue[i], read(i));
        if s > bestScore {
          bestScore := s;
          best := i;
        }
      }
      OnePick(qosQueue, read, best);
    }

    /** Fills free slots from the queue. */
    method OnSlotFree(env: Env) returns (threw: bool)
      requires Valid()
      modifies this
      ensures Valid()
      ensures model == Drain(cfg, old(model), env)
      decreases |qosQueue|
    {
      threw := false;
      while qosInFlight < cfg.maxInFlight && |qosQueue| > 0
        invariant Valid()
        invariant Drain(cfg, model, env) == Drain(cfg, old(model), env)
        invariant |qosQueue| <= old(|qosQueue|)
        decreases |qosQueue|
      {
        var gaveBack := DispatchBest(env);
        if gaveBack {
          threw := OnSlotFree(env);
          return true;
        }
      }
    }

    /** One round of the loop: take a slot, run the callback, release again if it throws. */
    method DispatchBest(env: Env) returns (gaveBack: bool)
      requires Valid() && qosQueue != []
      modifies this
      ensures Valid()
      ensures model == DispatchOne(old(model), env)
    {
      var best := Scan(env.clock(|qosQueue|));
      var entry := qosQueue[best];
      TakenOrFreed(model, env);
      Take(best);
      gaveBack := entry.id in env.throwing;
      if gaveBack { GiveBack(entry.id); }
    }

    /** The entry at `best` leaves the queue and takes a slot. */
    method Take(best: nat)
      requires Valid() && best < |qosQueue|
      modifies this
      ensures Valid()
      ensures model == Taken(old(model), best)
    {
      var entry := qosQueue[best];
      TidyTaken(model, best);
      CountSnoc(model.log, Dispatched(entry));
      qosQueue := RemoveAt(qosQueue, best);
      qosTotals := Bump(qosTotals, Dispatched(entry));
      qosInFlight := qosInFlight + 1;
      open := open + {entry.id};
      model := Taken(model, best);
    }

    /** The `finish` and `close` handler. */
    method ReleaseSlot(id: nat, env: Env)
      requires Valid()
      modifies this
      ensures Valid() && model == Apply(cfg, old(model), ReleaseStep(id, env))
    {
      if id in open {
        GiveBackAndDrain(id, env);
      }
    }

    method GiveBackAndDrain(id: nat, env: Env)
      requires Valid() && id in open
      modifies this
      ensures Valid()
      ensures model == Drain(cfg, Freed(old(model), id), env)
    {
      GiveBack(id);
      var _ := OnSlotFree(env);
    }

    method GiveBack(id: nat)
      requires Valid() && id in open
      modifies this
      ensures Valid()
      ensures model == Freed(old(model), id)
    {
      open := open - {id};
      qosInFlight := qosInFlight - 1;
      model := Freed(model, id);
    }

    method Middleware(score: int, now: int, fallbackUntil: int, env: Env)
      requires Valid()
      modifies this
      ensures Valid() && model == Apply(cfg, old(model), ArriveStep(score, now, fallbackUntil, env))
    {
      var id := arrivals;
      if cfg.mode.Off? || (cfg.mode.Cooperative? && now >= fallbackUntil) {
        Note(Passed(id));
      } else {
        Schedule(Entry(id, score, now), env);
      }
    }

    method Schedule(e: Entry, env: Env)
      requires Valid() && e.id == arrivals
      modifies this
      ensures Valid()
      ensures Bypasses(cfg, old(model)) ==> model == Logged(old(model), Bypassed(e.id))
      ensures !Bypasses(cfg, old(model)) && |old(model).queue| >= cfg.maxQueueDepth ==>
                model == Logged(old(model), Overflowed(e.id))
      ensures !Bypasses(cfg, old(model)) && |old(model).queue| < cfg.maxQueueDepth ==>
                model == Drain(cfg, Queued(old(model), e), env)
    {
      if qosInFlight as real < BypassLimit(cfg) {
        Note(Bypassed(e.id));
      } else {
        QueueOrRefuse(e, env);
      }
    }

    method QueueOrRefuse(e: Entry, env: Env)
      requires Valid() && e.id == arrivals
      modifies this
      ensures Valid()
      ensures |old(model).queue| >= cfg.maxQueueDepth ==> model == Logged(old(model), Overflowed(e.id))
      ensures |old(model).queue| < cfg.maxQueueDepth ==>
                model == Drain(cfg, Queued(old(model), e), env)
    {
      if |qosQueue| >= cfg.maxQueueDepth {
        Note(Overflowed(e.id));
      } else {
        QueueAndDrain(e, env);
      }
    }

    method QueueAndDrain(e: Entry, env: Env)
      requires Valid() && e.id == arrivals
      modifies this
      ensures Valid()
      ensures model == Drain(cfg, Queued(old(model), e), env)
    {
      Enqueue(e);
      var _ := OnSlotFree(env);
    }

    method Enqueue(e: Entry)
      requires Valid() && e.id == arrivals
      modifies this
      ensures Valid()
      ensures model == Queued(old(model), e)
    {
      AppendOrder(qosQueue, e);
      arrivals := arrivals + 1;
      qosQueue := qosQueue + [e];
      model := Queued(model, e);
    }

    /** An arrival that does not queue; the fast path takes a slot. */
    method Note(ev: Event)
      requires Valid() && !LeavesQueue(ev) && EventId(ev) == arrivals
      modifies this
      ensures Valid()
      ensures model == Logged(old(model), ev)
    {
      CountSnoc(model.log, ev);
      TidyLogged(model, ev);
      qosTotals := Bump(qosTotals, ev);
      if ev.Bypassed? {
        qosInFlight := qosInFlight + 1;
        open := open + {arrivals};
      }
      arrivals := arrivals + 1;
      model := Logged(model, ev);
    }

    /** The queue timer of request `id` fires. */
    method Timeout(id: nat)
      requires Valid()
      modifies this
      ensures Valid() && model == Apply(cfg, old(model), TimeoutStep(id))
    {
      var idx := IndexOf(qosQueue, id);
      if idx >= 0 {
        CountSnoc(model.log, TimedOut(qosQueue[idx]));
        RemoveKeeps(qosQueue, idx);
        qosTotals := Bump(qosTotals, TimedOut(qosQueue[idx]));
        qosQueue := RemoveAt(qosQueue, idx);
        model := Expire(model, id);
      }
    }
  }

  /** Enough about a state to know that a queued request holds no slot. */
  ghost predicate Tidy(s: State) {
    && ArrivalOrder(s.queue)
    && (forall e <- s.queue :: e.id < s.arrivals && e.id !in s.open)
    && (forall id <- s.open :: id < s.arrivals)
  }

  lemma {:induction false} TidyLogged(s: State, ev: Event)
    requires Tidy(s)
    ensures Tidy(Logged(s, ev))
  {}

  /** The entry at `i` runs: it has left the queue and holds a slot. */
  function Taken(s: State, i: nat): State
    requires i < |s.queue|
  {
    s.(queue := RemoveAt(s.queue, i), log := s.log + [Dispatched(s.queue[i])], inFlight := s.inFlight + 1,
       open := s.open + {s.queue[i].id})
  }

  lemma {:induction false} TidyTaken(s: State, i: nat)
    requires Tidy(s) && i < |s.queue|
    ensures Tidy(Taken(s, i))
  {
    RemoveKeeps(s.queue, i);
  }

  /** A dispatch takes a slot and gives it back if the callback throws. */
  lemma {:induction false} TakenOrFreed(s: State, env: Env)
    requires Tidy(s) && s.queue != []
    ensures var best := Best(s.queue, env.clock(|s.queue|));
            var id := s.queue[best].id;
            DispatchOne(s, env) == if id in env.throwing then Freed(Taken(s, best), id) else Taken(s, best)
  {
    var id := s.queue[Best(s.queue, env.clock(|s.queue|))].id;
    assert id !in s.open;
    BackOut(s.open, id);
  }

  lemma {:induction false} BackOut(open: set<nat>, id: nat)
    requires id !in open
    ensures open + {id} - {id} == open
  {}

  lemma {:induction false} CountSnoc(log: seq<Event>, ev: Event)
    ensures Count(log + [ev]) == Bump(Count(log), ev)
  {
    assert (log + [ev])[..|log|] == log;
  }
}
