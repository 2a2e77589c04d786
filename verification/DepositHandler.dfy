/** The deposit route when nothing interrupts it, as a run of the interleaved model. */
module DepositHandler {
  import opened Options
  import opened Escrow
  import opened DepositModel

  /** What the RPC node says: an error, or the instructions of a transaction that was found and did not fail. */
  datatype Answer = RpcError | Answered(found: Option<seq<Instruction>>)

  /** `RpcFailed` is the verification's own error; the breaker's fallback reports it as an open circuit. */
  datatype Outcome =
    | BadFormat | KnownBad | InProgress | CircuitOpen | RpcFailed | AlreadyUsed | NotCreditable
    | Accepted(pubkey: string, balance: int)

  datatype Books = Books(used: set<string>, escrow: Balances, pending: map<string, Claim>)

  function BooksOf(s: State): Books { Books(s.used, s.escrow, s.pending) }

  /** Rejected signatures, each with the time until which it is remembered. */
  type Cache = map<string, int>

  predicate IsKnownBad(cache: Cache, sig: string, now: int) { sig in cache && cache[sig] >= now }

  function LiveCache(cache: Cache, now: int): Cache { map sig | sig in cache && cache[sig] >= now :: cache[sig] }

  /** The request gets as far as the claim. */
  predicate Admissible(wellFormed: bool, cache: Cache, sig: string, now: int) {
    wellFormed && !IsKnownBad(cache, sig, now)
  }

  /** The cache after a request: a stale entry is dropped when read, and only a rejected transaction is remembered. */
  function Remembered(cache: Cache, sig: string, now: int, ttl: nat, outcome: Outcome): Cache {
    if outcome == BadFormat || outcome == KnownBad then cache
    else if outcome == AlreadyUsed || outcome == NotCreditable then cache[sig := now + ttl]
    else cache - {sig}
  }

  /** What the chain's answer is worth. */
  function Found(answer: Answer, destination: string): Option<Transfer> {
    if answer.Answered? && answer.found.Some? then Crediting(answer.found.value, destination) else None
  }

  /** A deposit is worth `tr` exactly when the first transfer to the destination is `tr`, and not of zero. */
  lemma {:induction false} FoundMeans(answer: Answer, destination: string, tr: Transfer)
    ensures Found(answer, destination) == Some(tr)
      <==> && answer.Answered? && answer.found.Some? && tr.lamports > 0
           && exists k :: FirstPays(answer.found.value, destination, k)
                          && answer.found.value[k] == SystemTransfer(tr.source, destination, tr.lamports)
  {
    if answer.Answered? && answer.found.Some? {
      var ixs := answer.found.value;
      if k :| 0 <= k < |ixs| && Pays(ixs[k], destination) {
        var first := FirstPaying(ixs, destination, k);
        CreditingMeans(ixs, destination, first);
        forall j | FirstPays(ixs, destination, j) ensures j == first {}
      } else {
        NothingCredited(ixs, destination);
      }
    }
  }

  lemma {:induction false} FirstPaying(ixs: seq<Instruction>, destination: string, k: nat) returns (first: nat)
    requires k < |ixs| && Pays(ixs[k], destination)
    ensures FirstPays(ixs, destination, first)
  {
    first := 0;
    while !Pays(ixs[first], destination)
      invariant first <= k && forall j :: 0 <= j < first ==> !Pays(ixs[j], destination)
      decreases k - first
    {
      first := first + 1;
    }
  }

  // ---- the cache of rejected signatures -------------------------------------------------

  /** A rejected signature is turned away for as long as it is remembered, and not after. */
  lemma {:induction false} RejectedUntil(cache: Cache, sig: string, now: int, ttl: nat, r: Outcome, later: int)
    requires r == AlreadyUsed || r == NotCreditable
    ensures IsKnownBad(Remembered(cache, sig, now, ttl, r), sig, later) <==> later <= now + ttl
  {}

  /** No other outcome adds to what is turned away, and no request bears on another signature. */
  lemma {:induction false} NothingElseRemembered(cache: Cache, sig: string, now: int, ttl: nat, r: Outcome,
                                                 other: string, later: int)
    requires now <= later && (other != sig || !(r == AlreadyUsed || r == NotCreditable))
    requires r == KnownBad <==> IsKnownBad(cache, sig, now) && r != BadFormat
    ensures IsKnownBad(Remembered(cache, sig, now, ttl, r), other, later) <==> IsKnownBad(cache, other, later)
  {}

  /** The sweeper forgets no rejection that still counts. */
  lemma {:induction false} SweepForgetsNothing(cache: Cache, now: int, sig: string, later: int)
    requires now <= later
    ensures IsKnownBad(LiveCache(cache, now), sig, later) <==> IsKnownBad(cache, sig, later)
  {}

  predicate Credits(b: Books, sig: string, now: int, tr: Option<Transfer>) {
    ClaimFree(b.pending, sig, now) && sig !in b.used && tr.Some?
  }

  /** The books after one uninterrupted request. */
  function Handled(b: Books, sig: string, now: int, circuitOpen: bool, tr: Option<Transfer>): Books {
    if !ClaimFree(b.pending, sig, now) then b
    else
      var cleared := b.pending - {sig};
      if circuitOpen || !Credits(b, sig, now, tr) then Books(b.used, b.escrow, cleared)
      else Books(b.used + {sig}, CreditTo(b.escrow, tr.value), cleared)
  }

  // ---- the handler is a run of the interleaved model ------------------------------------

  /** A request that runs from claim to clear within one instant; steps that are not possible do nothing. */
  function Uninterrupted(p: Timing, chain: Chain, s: State, sig: string, circuitOpen: bool, found: bool, at: int)
    : State
  {
    var n := |s.handlers|;
    var claimed := Do(p, chain, Do(p, chain, s, Step(Begin(sig), at)), Step(TakeClaim(n), at));
    var t := if circuitOpen then Do(p, chain, claimed, Step(SkipVerify(n), at))
             else Verification(p, chain, claimed, n, found, at);
    Do(p, chain, t, Step(Clear(n), at))
  }

  function Verification(p: Timing, chain: Chain, s: State, n: nat, found: bool, at: int): State {
    var fetched := Do(p, chain, Do(p, chain, s, Step(Look(n), at)), Step(Fetch(n, found), at));
    Do(p, chain, Do(p, chain, fetched, Step(Mark(n), at)), Step(AddCredit(n), at))
  }

  /** What the chain has to give, when it answers. */
  function OnChain(chain: Chain, sig: string, found: bool): Option<Transfer> {
    if found && chain(sig).Some? && chain(sig).value.lamports > 0 then chain(sig) else None
  }

  lemma {:induction false} VerificationEffect(p: Timing, chain: Chain, s: State, n: nat, found: bool, at: int)
    requires n < |s.handlers| && s.now <= at
    requires var h := s.handlers[n]; h.phase.Claimed? && h.claimedAt == at && !h.cleared && h.transfer.None?
    ensures var t := Verification(p, chain, s, n, found, at);
            var sig := s.handlers[n].sig;
            var tr := OnChain(chain, sig, found);
            var credited := sig !in s.used && tr.Some?;
            && t.now == at && t.pending == s.pending && |t.handlers| == |s.handlers|
            && t.handlers[n].sig == sig && t.handlers[n].claimedAt == at && !t.handlers[n].cleared
            && t.handlers[n].phase == (if credited then Credited else Rejected)
            && t.used == (if credited then s.used + {sig} else s.used)
            && t.escrow == (if credited then CreditTo(s.escrow, tr.value) else s.escrow)
  {}

  lemma {:induction false} ClaimEffect(p: Timing, chain: Chain, s: State, sig: string, at: int)
    requires s.now <= at
    ensures var n := |s.handlers|;
            var t := Do(p, chain, Do(p, chain, s, Step(Begin(sig), at)), Step(TakeClaim(n), at));
            && t.now == at && t.used == s.used && t.escrow == s.escrow && |t.handlers| == n + 1
            && t.pending == Claiming(s.pending, sig, n, p.claimTtl, at)
            && t.handlers[n] == (if ClaimFree(s.pending, sig, at) then Handler(sig, Claimed, at, false, None)
                                 else Handler(sig, Refused, 0, false, None))
  {}

  /** Verification and release after a claim has been granted. */
  lemma {:induction false} ClaimedRun(p: Timing, chain: Chain, b: Books, s: State, n: nat, found: bool, at: int)
    requires n < |s.handlers| && s.now == at && s.handlers[n] == Handler(s.handlers[n].sig, Claimed, at, false, None)
    requires var sig := s.handlers[n].sig;
             && ClaimFree(b.pending, sig, at) && s.used == b.used && s.escrow == b.escrow
             && s.pending == Claiming(b.pending, sig, n, p.claimTtl, at)
    ensures var sig := s.handlers[n].sig;
            BooksOf(Do(p, chain, Verification(p, chain, s, n, found, at), Step(Clear(n), at)))
            == Handled(b, sig, at, false, OnChain(chain, sig, found))
  {
    var sig := s.handlers[n].sig;
    VerificationEffect(p, chain, s, n, found, at);
    assert s.pending - {sig} == b.pending - {sig};
  }

  /** The handler, uninterrupted, does to the books what its steps do in the interleaved model. */
  lemma {:induction false} HandlerIsARun(p: Timing, chain: Chain, s: State, sig: string, circuitOpen: bool,
                                         found: bool, at: int)
    requires s.now <= at
    ensures BooksOf(Uninterrupted(p, chain, s, sig, circuitOpen, found, at))
         == Handled(BooksOf(s), sig, at, circuitOpen, OnChain(chain, sig, found))
  {
    ClaimEffect(p, chain, s, sig, at);
    if circuitOpen || !ClaimFree(s.pending, sig, at) {
      UnverifiedRun(p, chain, s, sig, circuitOpen, found, at);
    } else {
      var n := |s.handlers|;
      var claimed := Do(p, chain, Do(p, chain, s, Step(Begin(sig), at)), Step(TakeClaim(n), at));
      ClaimedRun(p, chain, BooksOf(s), claimed, n, found, at);
    }
  }

  lemma {:induction false} UnverifiedRun(p: Timing, chain: Chain, s: State, sig: string, circuitOpen: bool,
                                         found: bool, at: int)
    requires s.now <= at && (circuitOpen || !ClaimFree(s.pending, sig, at))
    ensures BooksOf(Uninterrupted(p, chain, s, sig, circuitOpen, found, at))
         == Handled(BooksOf(s), sig, at, circuitOpen, OnChain(chain, sig, found))
  {
    ClaimEffect(p, chain, s, sig, at);
    assert ClaimFree(s.pending, sig, at) ==>
      Claiming(s.pending, sig, |s.handlers|, p.claimTtl, at) - {sig} == s.pending - {sig};
  }
}
