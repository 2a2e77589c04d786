/** What every step of the QoS scheduler keeps. */
module QosInvariant {
  import opened QosModel

  /** Events that end a stay in the queue. */
  predicate LeavesQueue(ev: Event) { ev.Dispatched? || ev.TimedOut? }

  /** No queued request has an outcome yet. */
  ghost predicate Apart(log: seq<Event>, q: seq<Entry>) { forall a <- log, e <- q :: EventId(a) != e.id }

  /** No request has two outcomes. */
  ghost predicate OneOutcome(log: seq<Event>) { forall i, j :: OutcomeAt(log, i, j) }

  ghost predicate OutcomeAt(log: seq<Event>, i: int, j: int) {
    0 <= i < j < |log| ==> EventId(log[i]) != EventId(log[j])
  }

  ghost predicate ArrivalOrder(q: seq<Entry>) { forall i, j :: OrderAt(q, i, j) }

  ghost predicate OrderAt(q: seq<Entry>, i: int, j: int) { 0 <= i < j < |q| ==> q[i].id < q[j].id }

  ghost predicate Known(s: State) {
    && (forall e <- s.queue :: e.id < s.arrivals)
    && (forall a <- s.log :: EventId(a) < s.arrivals)
  }

  ghost function GrantedIds(log: seq<Event>): set<nat> {
    set a | a in log && Granted(a) :: EventId(a)
  }

  /** The slot count is exact, and a closure has run or has not. */
  ghost predicate SlotsExact(s: State) { SlotsAre(s, GrantedIds(s.log)) }

  predicate SlotsAre(s: State, granted: set<nat>) {
    s.inFlight == |s.open| && s.open !! s.freed && s.open + s.freed == granted
  }

  /** Every arrival is still queued or has exactly one outcome. */
  ghost predicate Accounted(s: State) {
    && s.arrivals == |s.log| + |s.queue|
    && Known(s) && ArrivalOrder(s.queue) && Apart(s.log, s.queue) && OneOutcome(s.log)
    && SlotsExact(s)
  }

  /** No slot is idle while something waits. */
  predicate WorkConserving(cfg: Config, s: State) { s.queue != [] ==> s.inFlight >= cfg.maxInFlight }

  ghost predicate Inv(cfg: Config, s: State) {
    Accounted(s) && WorkConserving(cfg, s) && |s.queue| <= cfg.maxQueueDepth
  }

  /** Every entry ever queued. */
  ghost function Seen(s: State): set<Entry> {
    (set e | e in s.queue) + (set a | a in s.log && LeavesQueue(a) :: a.entry)
  }

  lemma {:induction false} GrantedIdsSnoc(log: seq<Event>, ev: Event)
    ensures GrantedIds(log + [ev]) == GrantedIds(log) + (if Granted(ev) then {EventId(ev)} else {})
  {}

  lemma {:induction false} OutcomeSnoc(log: seq<Event>, ev: Event)
    requires OneOutcome(log) && forall a <- log :: EventId(a) != EventId(ev)
    ensures OneOutcome(log + [ev])
  {
    var all := log + [ev];
    forall i, j ensures OutcomeAt(all, i, j) {
      if 0 <= i < j < |all| {
        assert all[i] == log[i];
        assert OutcomeAt(log, i, j);
      }
    }
  }

  lemma {:induction false} ApartSnoc(log: seq<Event>, ev: Event, q: seq<Entry>, r: seq<Entry>)
    requires Apart(log, q) && (forall e <- r :: e in q && EventId(ev) != e.id)
    ensures Apart(log + [ev], r)
  {
    forall a, e | a in log + [ev] && e in r ensures EventId(a) != e.id {
      if a != ev { assert a in log; }
    }
  }

  lemma {:induction false} RemoveOrder(q: seq<Entry>, i: nat)
    requires i < |q| && ArrivalOrder(q)
    ensures ArrivalOrder(RemoveAt(q, i))
  {
    var r := RemoveAt(q, i);
    RemoveAtIs(q, i);
    forall j, k ensures OrderAt(r, j, k) {
      assert OrderAt(q, if j < i then j else j + 1, if k < i then k else k + 1);
    }
  }

  lemma {:induction false} RemoveOthers(q: seq<Entry>, i: nat)
    requires i < |q| && ArrivalOrder(q)
    ensures forall e <- RemoveAt(q, i) :: e.id != q[i].id
  {
    var r := RemoveAt(q, i);
    RemoveAtIs(q, i);
    forall e | e in r ensures e.id != q[i].id {
      var j :| 0 <= j < |r| && r[j] == e;
      var at := if j < i then j else j + 1;
      assert q[at] == e && OrderAt(q, at, i) && OrderAt(q, i, at);
    }
  }

  lemma {:induction false} RemoveKeeps(q: seq<Entry>, i: nat)
    requires i < |q| && ArrivalOrder(q)
    ensures ArrivalOrder(RemoveAt(q, i))
    ensures forall e :: e in q <==> e == q[i] || e in RemoveAt(q, i)
    ensures forall e <- RemoveAt(q, i) :: e.id != q[i].id
  {
    RemoveAtIs(q, i);
    assert q == q[..i] + [q[i]] + q[i + 1..];
    RemoveOrder(q, i);
    RemoveOthers(q, i);
  }

  /** Taking an entry out of the queue and logging why. */
  lemma {:induction false} MoveKeeps(s: State, i: nat, ev: Event, t: State)
    requires Accounted(s) && i < |s.queue|
    requires LeavesQueue(ev) && ev.entry == s.queue[i]
    requires t.queue == RemoveAt(s.queue, i) && t.log == s.log + [ev] && t.arrivals == s.arrivals
    requires SlotsExact(t)
    ensures Accounted(t) && Seen(t) == Seen(s)
  {
    RemoveKeeps(s.queue, i);
    OutcomeSnoc(s.log, ev);
    ApartSnoc(s.log, ev, s.queue, t.queue);
    assert Known(t);
    SeenMove(s, ev, t);
  }

  lemma {:induction false} SeenMove(s: State, ev: Event, t: State)
    requires LeavesQueue(ev) && t.log == s.log + [ev]
    requires forall e :: e in s.queue <==> e == ev.entry || e in t.queue
    ensures Seen(t) == Seen(s)
  {
    assert (set a | a in t.log && LeavesQueue(a) :: a.entry)
        == (set a | a in s.log && LeavesQueue(a) :: a.entry) + {ev.entry};
  }

  lemma {:induction false} SlotTaken(s: State, t: State, granted: set<nat>, id: nat, returned: bool)
    requires SlotsAre(s, granted) && id !in granted
    requires if returned then t.inFlight == s.inFlight && t.open == s.open && t.freed == s.freed + {id}
             else t.inFlight == s.inFlight + 1 && t.open == s.open + {id} && t.freed == s.freed
    ensures SlotsAre(t, granted + {id})
  {
    assert id !in s.open + s.freed;
    if returned { OneFreed(s.open, s.freed, id); } else { OneOpened(s.open, s.freed, id); }
  }

  lemma {:induction false} OneFreed(open: set<nat>, freed: set<nat>, id: nat)
    requires open !! freed && id !in open
    ensures open !! freed + {id} && open + (freed + {id}) == open + freed + {id}
  {}

  lemma {:induction false} OneOpened(open: set<nat>, freed: set<nat>, id: nat)
    requires open !! freed && id !in open + freed
    ensures open + {id} !! freed && open + {id} + freed == open + freed + {id} && |open + {id}| == |open| + 1
  {}

  lemma {:induction false} DispatchSlots(s: State, env: Env)
    requires Accounted(s) && s.queue != []
    ensures SlotsExact(DispatchOne(s, env))
  {
    var e := s.queue[Best(s.queue, env.clock(|s.queue|))];
    GrantedIdsSnoc(s.log, Dispatched(e));
    assert e.id !in GrantedIds(s.log);
    SlotTaken(s, DispatchOne(s, env), GrantedIds(s.log), e.id, e.id in env.throwing);
  }

  lemma {:induction false} DispatchOneKeeps(s: State, env: Env)
    requires Accounted(s) && s.queue != []
    ensures var t := DispatchOne(s, env); Accounted(t) && Seen(t) == Seen(s)
  {
    var i := Best(s.queue, env.clock(|s.queue|));
    DispatchSlots(s, env);
    MoveKeeps(s, i, Dispatched(s.queue[i]), DispatchOne(s, env));
  }

  /** Draining restores work conservation whatever the callbacks throw, and never passes the cap. */
  lemma {:induction false} DrainKeeps(cfg: Config, s: State, env: Env)
    requires Accounted(s)
    ensures var t := Drain(cfg, s, env);
            && Accounted(t) && Seen(t) == Seen(s) && t.arrivals == s.arrivals
            && WorkConserving(cfg, t)
            && |t.queue| <= |s.queue|
            && (CanDispatch(cfg, s) ==> |t.queue| < |s.queue|)
            && (t.inFlight <= s.inFlight || t.inFlight <= cfg.maxInFlight)
    decreases |s.queue|
  {
    if CanDispatch(cfg, s) {
      DispatchOneKeeps(s, env);
      DrainKeeps(cfg, DispatchOne(s, env), env);
    }
  }

  lemma {:induction false} LogKeeps(s: State, ev: Event, t: State)
    requires Accounted(s)
    requires !LeavesQueue(ev) && EventId(ev) == s.arrivals
    requires t.queue == s.queue && t.log == s.log + [ev] && t.arrivals == s.arrivals + 1 && SlotsExact(t)
    ensures Accounted(t) && Seen(t) == Seen(s)
  {
    OutcomeSnoc(s.log, ev);
    ApartSnoc(s.log, ev, s.queue, s.queue);
    SeenLog(s.log, ev);
  }

  lemma {:induction false} SeenLog(log: seq<Event>, ev: Event)
    requires !LeavesQueue(ev)
    ensures (set a | a in log + [ev] && LeavesQueue(a) :: a.entry) == (set a | a in log && LeavesQueue(a) :: a.entry)
  {}

  lemma {:induction false} FreshGrant(s: State, t: State)
    requires Accounted(s)
    requires t.inFlight == s.inFlight + 1 && t.open == s.open + {s.arrivals} && t.freed == s.freed
    requires t.log == s.log + [Bypassed(s.arrivals)]
    ensures SlotsExact(t)
  {
    GrantedIdsSnoc(s.log, Bypassed(s.arrivals));
    assert s.arrivals !in GrantedIds(s.log);
    SlotTaken(s, t, GrantedIds(s.log), s.arrivals, false);
  }

  lemma {:induction false} AppendOrder(q: seq<Entry>, e: Entry)
    requires ArrivalOrder(q) && forall x <- q :: x.id < e.id
    ensures ArrivalOrder(q + [e])
  {
    forall i, j ensures OrderAt(q + [e], i, j) {
      assert OrderAt(q, i, j);
    }
  }

  lemma {:induction false} EnqueueKeeps(s: State, e: Entry)
    requires Accounted(s) && e.id == s.arrivals
    ensures var t := Queued(s, e);
            Accounted(t) && Seen(t) == Seen(s) + {e}
  {
    var t := Queued(s, e);
    ApartAppend(s.log, s.queue, e);
    assert (set x | x in t.queue) == (set x | x in s.queue) + {e};
    AppendOrder(s.queue, e);
  }

  lemma {:induction false} ApartAppend(log: seq<Event>, q: seq<Entry>, e: Entry)
    requires Apart(log, q) && forall a <- log :: EventId(a) < e.id
    ensures Apart(log, q + [e])
  {
    forall a, x | a in log && x in q + [e] ensures EventId(a) != x.id {
      assert x in q || x == e;
    }
  }

  lemma {:induction false} ExpireKeeps(cfg: Config, s: State, id: nat)
    requires Inv(cfg, s)
    ensures Inv(cfg, Expire(s, id)) && Seen(Expire(s, id)) == Seen(s)
  {
    var i := IndexOf(s.queue, id);
    if i >= 0 {
      GrantedIdsSnoc(s.log, TimedOut(s.queue[i]));
      MoveKeeps(s, i, TimedOut(s.queue[i]), Expire(s, id));
    }
  }

  lemma {:induction false} ReleaseKeeps(cfg: Config, s: State, id: nat, env: Env)
    requires Inv(cfg, s)
    ensures var t := Release(cfg, s, id, env);
            && Inv(cfg, t) && Seen(t) == Seen(s) && t.arrivals == s.arrivals
            && (s.inFlight <= cfg.maxInFlight ==> t.inFlight <= cfg.maxInFlight)
  {
    if id in s.open {
      SlotFreed(s, id);
      DrainKeeps(cfg, Freed(s, id), env);
    }
  }

  lemma {:induction false} SlotFreed(s: State, id: nat)
    requires Accounted(s) && id in s.open
    ensures Accounted(Freed(s, id)) && Seen(Freed(s, id)) == Seen(s)
  {
    var t := Freed(s, id);
    assert t.open + t.freed == s.open + s.freed;
    assert |t.open| == |s.open| - 1;
  }

  /** With a threshold of at most one, the fast path is taken only below the cap. */
  lemma {:induction false} BypassBelowCap(cfg: Config, s: State)
    requires cfg.bypassThreshold <= 1.0 && Bypasses(cfg, s)
    ensures s.inFlight < cfg.maxInFlight
  {
    var m := cfg.maxInFlight as real;
    assert m * cfg.bypassThreshold <= m * 1.0;
  }

  /** An arrival keeps the invariant, queues nothing but itself, and with a threshold of at most one keeps the cap. */
  ghost predicate Arrived(cfg: Config, s: State, e: Entry, t: State) {
    && Inv(cfg, t) && t.arrivals == s.arrivals + 1
    && (Seen(t) == Seen(s) || Seen(t) == Seen(s) + {e})
    && (cfg.bypassThreshold <= 1.0 && s.inFlight <= cfg.maxInFlight ==> t.inFlight <= cfg.maxInFlight)
  }

  lemma {:induction false} ArriveLogged(cfg: Config, s: State, ev: Event, e: Entry)
    requires Inv(cfg, s)
    requires !LeavesQueue(ev) && EventId(ev) == s.arrivals && (ev.Bypassed? ==> Bypasses(cfg, s))
    ensures Arrived(cfg, s, e, Logged(s, ev))
  {
    GrantedIdsSnoc(s.log, ev);
    if ev.Bypassed? {
      FreshGrant(s, Logged(s, ev));
      if cfg.bypassThreshold <= 1.0 { BypassBelowCap(cfg, s); }
    }
    LogKeeps(s, ev, Logged(s, ev));
  }

  lemma {:induction false} ArriveRefused(cfg: Config, s: State, e: Entry, env: Env)
    requires Inv(cfg, s) && e.id == s.arrivals && |s.queue| >= cfg.maxQueueDepth
    ensures Arrived(cfg, s, e, Contend(cfg, s, e, env))
  {
    ArriveLogged(cfg, s, Overflowed(e.id), e);
  }

  lemma {:induction false} ArriveQueued(cfg: Config, s: State, e: Entry, env: Env)
    requires Inv(cfg, s) && e.id == s.arrivals && |s.queue| < cfg.maxQueueDepth
    ensures Arrived(cfg, s, e, Contend(cfg, s, e, env))
  {
    EnqueueKeeps(s, e);
    DrainKeeps(cfg, Queued(s, e), env);
  }

  lemma {:induction false} ArriveKeeps(cfg: Config, s: State, score: int, now: int, fallbackUntil: int,
                                       env: Env)
    requires Inv(cfg, s)
    ensures Arrived(cfg, s, Entry(s.arrivals, score, now), Arrive(cfg, s, score, now, fallbackUntil, env))
  {
    var e := Entry(s.arrivals, score, now);
    if Forwards(cfg, now, fallbackUntil) {
      ArriveLogged(cfg, s, Passed(s.arrivals), e);
    } else if Bypasses(cfg, s) {
      ArriveLogged(cfg, s, Bypassed(s.arrivals), e);
    } else {
      ContendKeeps(cfg, s, e, env);
    }
  }

  lemma {:induction false} ContendKeeps(cfg: Config, s: State, e: Entry, env: Env)
    requires Inv(cfg, s) && e.id == s.arrivals
    ensures Arrived(cfg, s, e, Contend(cfg, s, e, env))
  {
    if |s.queue| >= cfg.maxQueueDepth {
      ArriveRefused(cfg, s, e, env);
    } else {
      ArriveQueued(cfg, s, e, env);
    }
  }
}
