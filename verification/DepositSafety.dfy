/** When, and only when, every deposit is credited at most once. */
module DepositSafety {
  import opened Options
  import opened Escrow
  import opened DepositModel

  /** Both bounds are below the claim's life, and one of them is below the breaker's. */
  predicate Safe(p: Timing) {
    && p.verifyWithin < p.claimTtl && p.clearWithin < p.claimTtl
    && (p.verifyWithin < p.breakerMs || p.clearWithin < p.breakerMs)
  }

  predicate Live(p: Timing, h: Handler, now: int) { Verifying(h) && InTime(p, h, now) }

  predicate Owns(p: Timing, h: Handler, now: int) { HasClaimed(h) && !h.cleared && now < h.claimedAt + p.claimTtl }

  // ---- the invariant, in pieces ---------------------------------------------------------

  /** An uncleared claim that has not run out is the stored one. */
  ghost predicate Held(p: Timing, hs: seq<Handler>, pending: map<string, Claim>, now: int) {
    forall i :: 0 <= i < |hs| && Owns(p, hs[i], now) ==>
      hs[i].sig in pending && pending[hs[i].sig] == Claim(i, hs[i].claimedAt + p.claimTtl)
  }

  /** Nobody clears while its verification can still act. */
  ghost predicate LiveUncleared(p: Timing, hs: seq<Handler>, now: int) {
    forall i :: 0 <= i < |hs| && Live(p, hs[i], now) ==> !hs[i].cleared
  }

  /** A verification that looked, and can still act, looked at a signature nobody has marked. */
  ghost predicate LookedUnused(p: Timing, hs: seq<Handler>, used: set<string>, now: int) {
    forall i :: 0 <= i < |hs| && Live(p, hs[i], now) && !hs[i].phase.Claimed? ==> hs[i].sig !in used
  }

  ghost predicate PastUsed(hs: seq<Handler>, used: set<string>) {
    forall i :: 0 <= i < |hs| && Past(hs[i]) ==> hs[i].sig in used
  }

  ghost predicate PastOnce(hs: seq<Handler>) {
    forall i, j :: 0 <= i < j < |hs| && Past(hs[i]) && Past(hs[j]) ==> hs[i].sig != hs[j].sig
  }

  /** Each credit was made by the handler that marked its signature. */
  ghost predicate CreditsOwned(s: State) {
    forall c <- s.credits ::
      c.handler < |s.handlers| && s.handlers[c.handler].phase.Credited? && s.handlers[c.handler].sig == c.sig
  }

  ghost predicate ClaimInv(p: Timing, s: State) {
    && Held(p, s.handlers, s.pending, s.now)
    && LiveUncleared(p, s.handlers, s.now)
    && LookedUnused(p, s.handlers, s.used, s.now)
  }

  ghost predicate MarkInv(s: State) { PastUsed(s.handlers, s.used) && CreditsOwned(s) }

  // ---- claims ---------------------------------------------------------------------------

  /** Two uncleared live claims on one signature are the same claim. */
  lemma {:induction false} OneOwner(p: Timing, hs: seq<Handler>, pending: map<string, Claim>, now: int, i: nat, j: nat)
    requires Held(p, hs, pending, now) && i < |hs| && j < |hs|
    requires Owns(p, hs[i], now) && Owns(p, hs[j], now) && hs[i].sig == hs[j].sig
    ensures i == j
  {}

  /** Moving one handler between phases keeps the claims as they are. */
  lemma {:induction false} PhaseKeepsHeld(p: Timing, hs: seq<Handler>, pending: map<string, Claim>, now: int, at: int,
                                          i: nat, h: Handler)
    requires Held(p, hs, pending, now) && now <= at && i < |hs|
    requires h.sig == hs[i].sig && h.claimedAt == hs[i].claimedAt
    requires Owns(p, h, at) ==> HasClaimed(hs[i]) && !hs[i].cleared
    ensures Held(p, hs[i := h], pending, at)
  {
    var gs := hs[i := h];
    forall k | 0 <= k < |gs| && Owns(p, gs[k], at)
      ensures gs[k].sig in pending && pending[gs[k].sig] == Claim(k, gs[k].claimedAt + p.claimTtl)
    {
      assert Owns(p, hs[k], now);
    }
  }

  lemma {:induction false} ClaimKeepsHeld(p: Timing, hs: seq<Handler>, pending: map<string, Claim>, now: int, at: int,
                                          i: nat, h: Handler)
    requires Held(p, hs, pending, now) && now <= at && i < |hs| && h == Handler(hs[i].sig, Claimed, at, false, None)
    requires ClaimFree(pending, hs[i].sig, at)
    ensures Held(p, hs[i := h], pending[h.sig := Claim(i, at + p.claimTtl)], at)
  {
    forall k | 0 <= k < |hs| && k != i && Owns(p, hs[k], at) ensures hs[k].sig != h.sig {
      assert Owns(p, hs[k], now);
    }
  }

  lemma {:induction false} ClearKeepsHeld(p: Timing, s: State, i: nat, at: int)
    requires Held(p, s.handlers, s.pending, s.now) && s.now <= at && p.clearWithin < p.claimTtl
    requires i < |s.handlers| && MayClear(p, s.handlers[i], at)
    ensures Held(p, s.handlers[i := s.handlers[i].(cleared := true)], s.pending - {s.handlers[i].sig}, at)
  {
    assert Owns(p, s.handlers[i], s.now);
    forall k | 0 <= k < |s.handlers| && k != i && Owns(p, s.handlers[k], at)
      ensures s.handlers[k].sig != s.handlers[i].sig
    {
      assert Owns(p, s.handlers[k], s.now);
    }
  }

  lemma {:induction false} SweepKeepsHeld(p: Timing, s: State, at: int)
    requires Held(p, s.handlers, s.pending, s.now) && s.now <= at
    ensures Held(p, s.handlers,
                 map sig | sig in s.pending && s.pending[sig].expiresAt >= at :: s.pending[sig], at)
  {
    forall k | 0 <= k < |s.handlers| && Owns(p, s.handlers[k], at) ensures Owns(p, s.handlers[k], s.now) {}
  }

  lemma {:induction false} HeldKept(p: Timing, chain: Chain, s: State, step: Step)
    requires p.clearWithin < p.claimTtl && Held(p, s.handlers, s.pending, s.now) && Enabled(p, s, step)
    ensures var t := Act(p, chain, s, step); Held(p, t.handlers, t.pending, t.now)
  {
    var t := Act(p, chain, s, step);
    match step.action
    case Begin(_) =>
      forall k | 0 <= k < |t.handlers| && Owns(p, t.handlers[k], t.now)
        ensures k < |s.handlers| && Owns(p, s.handlers[k], s.now) {}
    case Sweep => SweepKeepsHeld(p, s, step.at);
    case TakeClaim(i) =>
      if ClaimFree(s.pending, s.handlers[i].sig, step.at) {
        ClaimKeepsHeld(p, s.handlers, s.pending, s.now, step.at, i, t.handlers[i]);
      } else {
        PhaseKeepsHeld(p, s.handlers, s.pending, s.now, step.at, i, t.handlers[i]);
      }
    case Clear(i) => ClearKeepsHeld(p, s, i, step.at);
    case AddCredit(i) => PhaseKeepsHeld(p, s.handlers, s.pending, s.now, step.at, i, t.handlers[i]);
    case Look(i) => PhaseKeepsHeld(p, s.handlers, s.pending, s.now, step.at, i, t.handlers[i]);
    case Fetch(i, _) => PhaseKeepsHeld(p, s.handlers, s.pending, s.now, step.at, i, t.handlers[i]);
    case Mark(i) => PhaseKeepsHeld(p, s.handlers, s.pending, s.now, step.at, i, t.handlers[i]);
    case SkipVerify(i) => PhaseKeepsHeld(p, s.handlers, s.pending, s.now, step.at, i, t.handlers[i]);
  }

  // ---- verifications --------------------------------------------------------------------

  /** In a safe configuration a request that may clear has no verification left that can act. */
  lemma {:induction false} ClearedIsDead(p: Timing, h: Handler, at: int)
    requires Safe(p) && MayClear(p, h, at)
    ensures !Live(p, h, at)
  {}

  lemma {:induction false} LiveOwns(p: Timing, h: Handler, now: int)
    requires Safe(p) && Live(p, h, now) && !h.cleared
    ensures Owns(p, h, now)
  {}

  lemma {:induction false} LiveUnclearedKept(p: Timing, chain: Chain, s: State, step: Step)
    requires Safe(p) && LiveUncleared(p, s.handlers, s.now) && Enabled(p, s, step)
    ensures var t := Act(p, chain, s, step); LiveUncleared(p, t.handlers, t.now)
  {
    var t := Act(p, chain, s, step);
    forall k | 0 <= k < |t.handlers| && Live(p, t.handlers[k], t.now) ensures !t.handlers[k].cleared {
      if k < |s.handlers| && s.handlers[k] == t.handlers[k] {
        assert Live(p, s.handlers[k], s.now);
      } else {
        match step.action
        case Clear(i) => ClearedIsDead(p, s.handlers[i], step.at); assert false;
        case Look(i) => assert Live(p, s.handlers[k], s.now);
        case Fetch(i, _) => assert Live(p, s.handlers[k], s.now);
        case _ =>
      }
    }
  }

  /** At most one verification of a signature can still act. */
  lemma {:induction false} OneLive(p: Timing, s: State, i: nat, j: nat)
    requires Safe(p) && Held(p, s.handlers, s.pending, s.now) && LiveUncleared(p, s.handlers, s.now)
    requires i < |s.handlers| && j < |s.handlers| && s.handlers[i].sig == s.handlers[j].sig
    requires Live(p, s.handlers[i], s.now) && Live(p, s.handlers[j], s.now)
    ensures i == j
  {
    LiveOwns(p, s.handlers[i], s.now);
    LiveOwns(p, s.handlers[j], s.now);
    OneOwner(p, s.handlers, s.pending, s.now, i, j);
  }

  lemma {:induction false} LookedUnusedKept(p: Timing, chain: Chain, s: State, step: Step)
    requires Safe(p) && ClaimInv(p, s) && Enabled(p, s, step)
    ensures var t := Act(p, chain, s, step); LookedUnused(p, t.handlers, t.used, t.now)
  {
    var t := Act(p, chain, s, step);
    LiveDistinct(p, s);
    forall k | 0 <= k < |t.handlers| && Live(p, t.handlers[k], t.now) && !t.handlers[k].phase.Claimed?
      ensures t.handlers[k].sig !in t.used
    {
      assert k < |s.handlers| && Live(p, s.handlers[k], s.now);
      assert step.action.Mark? ==> Live(p, s.handlers[step.action.i], s.now);
      assert step.action.Mark? && s.handlers[step.action.i].sig == s.handlers[k].sig
          ==> LiveTwins(p, s, step.action.i, k);
    }
  }

  /** Two verifications of one signature that can both still act. */
  predicate LiveTwins(p: Timing, s: State, i: int, j: int) {
    && 0 <= i < |s.handlers| && 0 <= j < |s.handlers| && s.handlers[i].sig == s.handlers[j].sig
    && Live(p, s.handlers[i], s.now) && Live(p, s.handlers[j], s.now)
  }

  lemma {:induction false} LiveDistinct(p: Timing, s: State)
    requires Safe(p) && ClaimInv(p, s)
    ensures forall i, j :: LiveTwins(p, s, i, j) ==> i == j
  {
    forall i, j | LiveTwins(p, s, i, j) ensures i == j { OneLive(p, s, i, j); }
  }

  lemma {:induction false} ClaimInvKept(p: Timing, chain: Chain, s: State, step: Step)
    requires Safe(p) && ClaimInv(p, s) && Enabled(p, s, step)
    ensures ClaimInv(p, Act(p, chain, s, step))
  {
    HeldKept(p, chain, s, step);
    LiveUnclearedKept(p, chain, s, step);
    LookedUnusedKept(p, chain, s, step);
  }

  // ---- marks and credits ----------------------------------------------------------------

  /** With any timing at all: what was marked or credited is in the used set. */
  lemma {:induction false} MarkInvKept(p: Timing, chain: Chain, s: State, step: Step)
    requires MarkInv(s) && Enabled(p, s, step)
    ensures MarkInv(Act(p, chain, s, step))
  {
    var t := Act(p, chain, s, step);
    forall k | 0 <= k < |t.handlers| && Past(t.handlers[k]) ensures t.handlers[k].sig in t.used {
      assert k < |s.handlers|;
      assert Past(s.handlers[k]) || step.action == Mark(k);
    }
    forall c | c in t.credits
      ensures c.handler < |t.handlers| && t.handlers[c.handler].phase.Credited? && t.handlers[c.handler].sig == c.sig
    {
      assert c in s.credits || c.handler == step.action.i;
    }
  }

  lemma {:induction false} PastOnceKept(p: Timing, chain: Chain, s: State, step: Step)
    requires ClaimInv(p, s) && MarkInv(s) && PastOnce(s.handlers) && Enabled(p, s, step)
    ensures PastOnce(Act(p, chain, s, step).handlers)
  {
    var t := Act(p, chain, s, step);
    forall i, j | 0 <= i < j < |t.handlers| && Past(t.handlers[i]) && Past(t.handlers[j])
      ensures t.handlers[i].sig != t.handlers[j].sig
    {
      assert Past(s.handlers[i]) || step.action == Mark(i);
      assert Past(s.handlers[j]) || step.action == Mark(j);
      if step.action == Mark(i) {
        assert Live(p, s.handlers[i], s.now);
      } else if step.action == Mark(j) {
        assert Live(p, s.handlers[j], s.now);
      }
    }
  }

  lemma {:induction false} CreditedOnceKept(p: Timing, chain: Chain, s: State, step: Step)
    requires MarkInv(s) && PastOnce(s.handlers) && CreditedOnce(s) && Enabled(p, s, step)
    ensures CreditedOnce(Act(p, chain, s, step))
  {
    if step.action.AddCredit? {
      var i := step.action.i;
      forall a | 0 <= a < |s.credits| ensures s.credits[a].sig != s.handlers[i].sig {
        var c := s.credits[a];
        assert c in s.credits && Past(s.handlers[c.handler]) && Past(s.handlers[i]);
        if c.handler < i {
          assert s.handlers[c.handler].sig != s.handlers[i].sig;
        } else {
          assert s.handlers[i].sig != s.handlers[c.handler].sig;
        }
      }
    }
  }

  lemma {:induction false} SafeRuns(p: Timing, chain: Chain, steps: seq<Step>)
    requires Safe(p)
    ensures var s := Run(p, chain, steps); ClaimInv(p, s) && MarkInv(s) && PastOnce(s.handlers) && CreditedOnce(s)
  {
    if steps != [] {
      var pre, x := steps[..|steps| - 1], steps[|steps| - 1];
      SafeRuns(p, chain, pre);
      var s := Run(p, chain, pre);
      if Enabled(p, s, x) {
        ClaimInvKept(p, chain, s, x);
        MarkInvKept(p, chain, s, x);
        PastOnceKept(p, chain, s, x);
        CreditedOnceKept(p, chain, s, x);
      }
    }
  }

  lemma {:induction false} MarkedRuns(p: Timing, chain: Chain, steps: seq<Step>)
    ensures MarkInv(Run(p, chain, steps))
  {
    if steps != [] {
      var pre, x := steps[..|steps| - 1], steps[|steps| - 1];
      MarkedRuns(p, chain, pre);
      if Enabled(p, Run(p, chain, pre), x) {
        MarkInvKept(p, chain, Run(p, chain, pre), x);
      }
    }
  }

  /** Wherever a run stops, a crash included, and whatever the timing, a credited signature is in the used set. */
  lemma {:induction false} CreditedImpliesUsed(p: Timing, chain: Chain, steps: seq<Step>)
    ensures var s := Run(p, chain, steps); forall c <- s.credits :: c.sig in s.used
  {
    MarkedRuns(p, chain, steps);
  }

  // ---- amounts --------------------------------------------------------------------------

  /** What the credits are worth to `pk`. */
  function Worth(credits: seq<Credit>, pk: string): int {
    if credits == [] then 0
    else
      var c := credits[|credits| - 1];
      Worth(credits[..|credits| - 1], pk) + (if c.transfer.source == pk then 1000 * c.transfer.lamports else 0)
  }

  ghost predicate TransfersFromChain(s: State, chain: Chain) {
    && (forall i :: 0 <= i < |s.handlers| && s.handlers[i].transfer.Some? ==>
          chain(s.handlers[i].sig) == s.handlers[i].transfer)
    && (forall c <- s.credits :: chain(c.sig) == Some(c.transfer))
  }

  lemma {:induction false} FromChainKept(p: Timing, chain: Chain, s: State, step: Step)
    requires TransfersFromChain(s, chain) && Enabled(p, s, step)
    ensures TransfersFromChain(Act(p, chain, s, step), chain)
  {
    var t := Act(p, chain, s, step);
    forall i | 0 <= i < |t.handlers| && t.handlers[i].transfer.Some?
      ensures chain(t.handlers[i].sig) == t.handlers[i].transfer
    {
      assert i < |s.handlers| && t.handlers[i].sig == s.handlers[i].sig;
    }
    forall c | c in t.credits ensures chain(c.sig) == Some(c.transfer) {
      assert c in s.credits || step.action.AddCredit?;
    }
  }

  lemma {:induction false} WorthKept(p: Timing, chain: Chain, s: State, step: Step, pk: string)
    requires Balance(s.escrow, pk) == Worth(s.credits, pk) && Enabled(p, s, step)
    ensures var t := Act(p, chain, s, step); Balance(t.escrow, pk) == Worth(t.credits, pk)
  {
    var t := Act(p, chain, s, step);
    if step.action.AddCredit? {
      assert t.credits[..|t.credits| - 1] == s.credits;
    }
  }

  /** Balances are exactly 1000 micro-lamports a lamport over the credits, each as the chain has it. */
  lemma {:induction false} CreditsMatchChain(p: Timing, chain: Chain, steps: seq<Step>, pk: string)
    ensures var s := Run(p, chain, steps);
            Balance(s.escrow, pk) == Worth(s.credits, pk) && TransfersFromChain(s, chain)
  {
    if steps != [] {
      var pre, x := steps[..|steps| - 1], steps[|steps| - 1];
      CreditsMatchChain(p, chain, pre, pk);
      if Enabled(p, Run(p, chain, pre), x) {
        FromChainKept(p, chain, Run(p, chain, pre), x);
        WorthKept(p, chain, Run(p, chain, pre), x, pk);
      }
    }
  }
}
