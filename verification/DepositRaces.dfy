/** Double credits in every configuration that is not safe, which makes the condition exact. */
module DepositRaces {
  import opened Options
  import opened DepositModel
  import opened DepositSafety

  ghost predicate Reach(p: Timing, chain: Chain, s: State) { exists steps :: Run(p, chain, steps) == s }

  lemma {:induction false} Extend(p: Timing, chain: Chain, s: State, x: Step)
    requires Reach(p, chain, s) && Enabled(p, s, x)
    ensures Reach(p, chain, Act(p, chain, s, x))
  {
    var steps :| Run(p, chain, steps) == s;
    assert (steps + [x])[..|steps|] == steps;
    assert Run(p, chain, steps + [x]) == Act(p, chain, s, x);
  }

  function Fresh(sig: string): Handler { Handler(sig, Begun, 0, false, None) }

  lemma {:induction false} ThreeBegun(p: Timing, chain: Chain, sig: string)
    ensures Reach(p, chain, INIT.(handlers := [Fresh(sig), Fresh(sig), Fresh(sig)]))
  {
    var b := Step(Begin(sig), 0);
    assert Run(p, chain, []) == INIT;
    Extend(p, chain, INIT, b);
    var s1 := INIT.(handlers := [Fresh(sig)]);
    assert Act(p, chain, INIT, b) == s1;
    Extend(p, chain, s1, b);
    var s2 := INIT.(handlers := [Fresh(sig), Fresh(sig)]);
    assert Act(p, chain, s1, b) == s2;
    Extend(p, chain, s2, b);
    assert Act(p, chain, s2, b) == INIT.(handlers := [Fresh(sig), Fresh(sig), Fresh(sig)]);
  }

  predicate Creditable(chain: Chain, sig: string) { chain(sig).Some? && chain(sig).value.lamports > 0 }

  /** Handler `i` claims, looks and fetches within one millisecond. */
  function Verified(p: Timing, chain: Chain, s: State, i: nat, at: int): State
    requires i < |s.handlers|
  {
    var sig := s.handlers[i].sig;
    s.(handlers := s.handlers[i := Handler(sig, Fetched, at, false, chain(sig))],
       pending := s.pending[sig := Claim(i, at + p.claimTtl)], now := at)
  }

  lemma {:induction false} ClaimAndFetch(p: Timing, chain: Chain, s: State, i: nat, at: int)
    requires Reach(p, chain, s) && s.now <= at && i < |s.handlers| && s.handlers[i].phase.Begun?
    requires var sig := s.handlers[i].sig; ClaimFree(s.pending, sig, at) && sig !in s.used && Creditable(chain, sig)
    ensures Reach(p, chain, Verified(p, chain, s, i, at))
  {
    Extend(p, chain, s, Step(TakeClaim(i), at));
    var s1 := Act(p, chain, s, Step(TakeClaim(i), at));
    Extend(p, chain, s1, Step(Look(i), at));
    var s2 := Act(p, chain, s1, Step(Look(i), at));
    Extend(p, chain, s2, Step(Fetch(i, true), at));
    assert Act(p, chain, s2, Step(Fetch(i, true), at)) == Verified(p, chain, s, i, at);
  }

  /** Two verifications past their look both mark and both credit. */
  lemma {:induction false} BothCredit(p: Timing, chain: Chain, s: State, i: nat, j: nat)
    requires Reach(p, chain, s) && i < |s.handlers| && j < |s.handlers| && i != j && s.credits == []
    requires forall k | k == i || k == j ::
               s.handlers[k].phase.Fetched? && s.handlers[k].transfer.Some? && InTime(p, s.handlers[k], s.now)
    requires s.handlers[i].sig == s.handlers[j].sig
    ensures exists steps :: !CreditedOnce(Run(p, chain, steps))
  {
    Extend(p, chain, s, Step(Mark(i), s.now));
    var s1 := Act(p, chain, s, Step(Mark(i), s.now));
    Extend(p, chain, s1, Step(Mark(j), s.now));
    var s2 := Act(p, chain, s1, Step(Mark(j), s.now));
    Extend(p, chain, s2, Step(AddCredit(i), s.now));
    var s3 := Act(p, chain, s2, Step(AddCredit(i), s.now));
    Extend(p, chain, s3, Step(AddCredit(j), s.now));
    var s4 := Act(p, chain, s3, Step(AddCredit(j), s.now));
    assert s4.credits[0].sig == s4.credits[1].sig;
  }

  /** A verification that outlives its claim. */
  lemma {:induction false} SlowVerification(p: Timing, chain: Chain, sig: string)
    requires p.verifyWithin >= p.claimTtl && Creditable(chain, sig)
    ensures exists steps :: !CreditedOnce(Run(p, chain, steps))
  {
    var s := INIT.(handlers := [Fresh(sig), Fresh(sig), Fresh(sig)]);
    ThreeBegun(p, chain, sig);
    ClaimAndFetch(p, chain, s, 0, 0);
    var s1 := Verified(p, chain, s, 0, 0);
    ClaimAndFetch(p, chain, s1, 1, p.claimTtl);
    BothCredit(p, chain, Verified(p, chain, s1, 1, p.claimTtl), 0, 1);
  }

  function ClearedState(s: State, i: nat, at: int): State
    requires i < |s.handlers|
  {
    s.(handlers := s.handlers[i := s.handlers[i].(cleared := true)], pending := s.pending - {s.handlers[i].sig},
       now := at)
  }

  /** A verification that outlives its breaker: the request clears the claim underneath it. */
  lemma {:induction false} AbandonedVerification(p: Timing, chain: Chain, sig: string)
    requires p.verifyWithin >= p.breakerMs && p.clearWithin >= p.breakerMs && Creditable(chain, sig)
    ensures exists steps :: !CreditedOnce(Run(p, chain, steps))
  {
    var s := INIT.(handlers := [Fresh(sig), Fresh(sig), Fresh(sig)]);
    ThreeBegun(p, chain, sig);
    ClaimAndFetch(p, chain, s, 0, 0);
    var s1 := Verified(p, chain, s, 0, 0);
    Extend(p, chain, s1, Step(Clear(0), p.breakerMs));
    var s2 := ClearedState(s1, 0, p.breakerMs);
    ClaimAndFetch(p, chain, s2, 1, p.breakerMs);
    BothCredit(p, chain, Verified(p, chain, s2, 1, p.breakerMs), 0, 1);
  }

  /** A late clear removes a claim that another request has since taken. */
  lemma {:induction false} LateClear(p: Timing, chain: Chain, sig: string)
    requires p.clearWithin >= p.claimTtl && Creditable(chain, sig)
    ensures exists steps :: !CreditedOnce(Run(p, chain, steps))
  {
    var s := INIT.(handlers := [Fresh(sig), Fresh(sig), Fresh(sig)]);
    ThreeBegun(p, chain, sig);
    Extend(p, chain, s, Step(TakeClaim(0), 0));
    var s1 := Act(p, chain, s, Step(TakeClaim(0), 0));
    Extend(p, chain, s1, Step(SkipVerify(0), 0));
    var s2 := Act(p, chain, s1, Step(SkipVerify(0), 0));
    ClaimAndFetch(p, chain, s2, 1, p.claimTtl);
    var s3 := Verified(p, chain, s2, 1, p.claimTtl);
    Extend(p, chain, s3, Step(Clear(0), p.claimTtl));
    var s4 := ClearedState(s3, 0, p.claimTtl);
    ClaimAndFetch(p, chain, s4, 2, p.claimTtl);
    BothCredit(p, chain, Verified(p, chain, s4, 2, p.claimTtl), 1, 2);
  }

  /**
   At-most-once deposits, exactly: every run credits each signature at most once if and only if
   verifications and clears both stay within the claim's life and one of them within the breaker's.
   */
  lemma {:induction false} AtMostOnceExactly(p: Timing, chain: Chain, sig: string)
    requires Creditable(chain, sig)
    ensures (forall steps :: CreditedOnce(Run(p, chain, steps))) <==> Safe(p)
  {
    if Safe(p) {
      forall steps ensures CreditedOnce(Run(p, chain, steps)) { SafeRuns(p, chain, steps); }
    } else if p.verifyWithin >= p.claimTtl {
      SlowVerification(p, chain, sig);
    } else if p.clearWithin >= p.claimTtl {
      LateClear(p, chain, sig);
    } else {
      AbandonedVerification(p, chain, sig);
    }
  }

  /** When a request and its verification share one bound, it must lie below both the claim's life and the breaker's. */
  lemma {:induction false} OneBound(ttl: nat, breaker: nat, bound: nat)
    ensures Safe(Timing(ttl, breaker, bound, bound)) <==> bound < ttl && bound < breaker
  {}
}
