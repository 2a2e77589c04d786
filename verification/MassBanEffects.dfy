/** Whom the mass-ban guard lets through: the other side of its bound. */
module MassBanEffects {
  import opened Options
  import opened Counting
  import opened MassBan

  function Since(scope: string, from: int): Op -> bool { (o: Op) => o.scope == scope && o.now >= from }

  /** The count of a window is the number of charges since it opened. */
  lemma {:induction false} CountIsCharges(ops: seq<Op>, ttlOf: string -> int, scope: string)
    requires ttlOf(scope) > 0 && ClockForward(ops) && scope in Run(ops, ttlOf)
    ensures var w := Run(ops, ttlOf)[scope]; w.count == Number(ops, Since(scope, w.expiresAt - ttlOf(scope)))
  {
    var n := |ops| - 1;
    var pre, o := ops[..n], ops[n];
    var c, d := Run(pre, ttlOf), Run(ops, ttlOf);
    WindowsOk(pre, ttlOf, scope);
    if o.scope != scope {
      CountIsCharges(pre, ttlOf, scope);
    } else if scope in c && c[scope].expiresAt > o.now {
      WindowOpenedBefore(ops, ttlOf, scope);
      CountIsCharges(pre, ttlOf, scope);
    } else {
      NumberNone(pre, Since(scope, o.now));
    }
  }

  /** A charge counts itself and at most the charges of the last window's length. */
  lemma {:induction false} NextCount(ops: seq<Op>, ttlOf: string -> int, scope: string, now: int)
    requires ttlOf(scope) > 0 && ClockForward(ops)
    ensures Incr(Run(ops, ttlOf), scope, ttlOf(scope), now)[scope].count
         <= 1 + Number(ops, Since(scope, now - ttlOf(scope) + 1))
  {
    var c := Run(ops, ttlOf);
    if scope in c && c[scope].expiresAt > now {
      CountIsCharges(ops, ttlOf, scope);
      NumberWeaker(ops, Since(scope, c[scope].expiresAt - ttlOf(scope)), Since(scope, now - ttlOf(scope) + 1));
    }
  }

  // ---- charges as requests --------------------------------------------------------------

  /** A request of this key that came at `from` or later. */
  function OfKey(keyId: string, from: int): Request -> bool { (r: Request) => r.keyId == keyId && r.keyAt >= from }

  /** A request of any key that got an answer from both counters at `from` or later. */
  function Answered(from: int): Request -> bool {
    (r: Request) => r.endedAt >= from && (r.verdict == Some(Passes) || r.verdict == Some(Throttled))
  }

  lemma {:induction false} KeysApart(a: string, b: string)
    requires a != b
    ensures KeyScope(a) != KeyScope(b)
  {
    assert KeyScope(a)[17..] == a && KeyScope(b)[17..] == b;
  }

  /** Every charge of a key is one of its requests, and every global charge a request that was answered. */
  ghost predicate ChargesAre(ops: seq<Op>, rs: seq<Request>, keyId: string, from: int) {
    && Number(ops, Since(KeyScope(keyId), from)) == Number(rs, OfKey(keyId, from))
    && Number(ops, Since(GLOBAL_SCOPE, from)) == Number(rs, Answered(from))
  }

  /** The counters are the run of all charges, none of them later than now. */
  ghost predicate CountersAre(w: World) {
    w.counters == Run(w.ops, TtlOf) && ClockForward(w.ops) && forall o <- w.ops :: o.now <= w.now
  }

  lemma {:induction false} ChargeCounts(w: World, scope: string, at: int)
    requires CountersAre(w) && w.now <= at
    ensures CountersAre(Charge(w, scope, at))
  {
    ForwardSnoc(w.ops, Op(scope, at));
    PassedInSnoc(w.ops, Op(scope, at), TtlOf, scope, 0, 0, 0);
  }

  lemma {:induction false} KeyCharge(w: World, id: string, at: int, keyId: string, from: int, perKeyMax: nat,
                                     globalMax: nat)
    requires Enabled(w, ChargeKey(id, at)) && ChargesAre(w.ops, w.requests, keyId, from)
    ensures var t := Act(w, ChargeKey(id, at), perKeyMax, globalMax); ChargesAre(t.ops, t.requests, keyId, from)
  {
    var t, o := Act(w, ChargeKey(id, at), perKeyMax, globalMax), Op(KeyScope(id), at);
    ScopesDiffer(id);
    if id != keyId { KeysApart(id, keyId); }
    NumberSnoc(w.ops, o, Since(KeyScope(keyId), from));
    NumberSnoc(w.ops, o, Since(GLOBAL_SCOPE, from));
    NumberSnoc(w.requests, t.requests[|w.requests|], OfKey(keyId, from));
    NumberSnoc(w.requests, t.requests[|w.requests|], Answered(from));
  }

  lemma {:induction false} GlobalCharge(w: World, i: nat, at: int, keyId: string, from: int, perKeyMax: nat,
                                        globalMax: nat)
    requires Enabled(w, ChargeGlobal(i, at)) && ChargesAre(w.ops, w.requests, keyId, from)
    ensures var t := Act(w, ChargeGlobal(i, at), perKeyMax, globalMax); ChargesAre(t.ops, t.requests, keyId, from)
  {
    var t, o := Act(w, ChargeGlobal(i, at), perKeyMax, globalMax), Op(GLOBAL_SCOPE, at);
    ScopesDiffer(keyId);
    NumberSnoc(w.ops, o, Since(KeyScope(keyId), from));
    NumberSnoc(w.ops, o, Since(GLOBAL_SCOPE, from));
    NumberUpdate(w.requests, i, t.requests[i], OfKey(keyId, from));
    NumberUpdate(w.requests, i, t.requests[i], Answered(from));
  }

  lemma {:induction false} Failing(w: World, i: nat, at: int, keyId: string, from: int, perKeyMax: nat,
                                   globalMax: nat)
    requires Enabled(w, Fail(i, at)) && ChargesAre(w.ops, w.requests, keyId, from)
    ensures var t := Act(w, Fail(i, at), perKeyMax, globalMax); ChargesAre(t.ops, t.requests, keyId, from)
  {
    var t := Act(w, Fail(i, at), perKeyMax, globalMax);
    NumberUpdate(w.requests, i, t.requests[i], OfKey(keyId, from));
    NumberUpdate(w.requests, i, t.requests[i], Answered(from));
  }

  lemma {:induction false} RunCountersAre(steps: seq<Step>, perKeyMax: nat, globalMax: nat)
    ensures CountersAre(Guarded(steps, perKeyMax, globalMax))
  {
    if steps != [] {
      var pre, x := steps[..|steps| - 1], steps[|steps| - 1];
      RunCountersAre(pre, perKeyMax, globalMax);
      var w := Guarded(pre, perKeyMax, globalMax);
      if Enabled(w, x) && !x.Fail? {
        ChargeCounts(w, if x.ChargeKey? then KeyScope(x.keyId) else GLOBAL_SCOPE, x.at);
      }
    }
  }

  lemma {:induction false} RunChargesAre(steps: seq<Step>, keyId: string, from: int, perKeyMax: nat, globalMax: nat)
    ensures var w := Guarded(steps, perKeyMax, globalMax); ChargesAre(w.ops, w.requests, keyId, from)
  {
    if steps != [] {
      var pre, x := steps[..|steps| - 1], steps[|steps| - 1];
      RunChargesAre(pre, keyId, from, perKeyMax, globalMax);
      var w := Guarded(pre, perKeyMax, globalMax);
      if Enabled(w, x) {
        match x
        case ChargeKey(id, at) => KeyCharge(w, id, at, keyId, from, perKeyMax, globalMax);
        case ChargeGlobal(i, at) => GlobalCharge(w, i, at, keyId, from, perKeyMax, globalMax);
        case Fail(i, at) => Failing(w, i, at, keyId, from, perKeyMax, globalMax);
      }
    }
  }

  /** The step after a key charge that nothing interrupts. */
  function Answer(w: World, keyId: string, at: int, perKeyMax: nat, globalMax: nat): Option<Verdict>
    requires w.now <= at
  {
    var t := Act(w, ChargeKey(keyId, at), perKeyMax, globalMax);
    Act(t, ChargeGlobal(|w.requests|, at), perKeyMax, globalMax).requests[|w.requests|].verdict
  }

  /**
   The guard is not stricter than its limits: after any run, a request passes if fewer than the limit came from its
   own key within the last minute and fewer than the global limit were answered within the last hour.
   */
  lemma {:induction false} GuardLetsThrough(steps: seq<Step>, keyId: string, at: int, perKeyMax: nat, globalMax: nat)
    requires Guarded(steps, perKeyMax, globalMax).now <= at
    requires var rs := Guarded(steps, perKeyMax, globalMax).requests;
             && Number(rs, OfKey(keyId, at - 60_000 + 1)) < perKeyMax
             && Number(rs, Answered(at - 3_600_000 + 1)) < globalMax
    ensures Answer(Guarded(steps, perKeyMax, globalMax), keyId, at, perKeyMax, globalMax) == Some(Passes)
  {
    var w := Guarded(steps, perKeyMax, globalMax);
    RunCountersAre(steps, perKeyMax, globalMax);
    RunChargesAre(steps, keyId, at - 60_000 + 1, perKeyMax, globalMax);
    RunChargesAre(steps, keyId, at - 3_600_000 + 1, perKeyMax, globalMax);
    ScopesDiffer(keyId);
    NextCount(w.ops, TtlOf, KeyScope(keyId), at);
    NextCount(w.ops, TtlOf, GLOBAL_SCOPE, at);
  }
}
