/**
 Concurrent deposit requests as interleaved steps.  A step boundary stands wherever the program
 awaits.  The chain is an oracle: `chain(sig)` is the transfer a fetch of `sig` can find.
 A breaker timeout ends the request but not its verification, which goes on in the background.
 */
module DepositModel {
  import opened Options
  import opened Escrow

  datatype Transfer = Transfer(source: string, lamports: nat)

  type Chain = string -> Option<Transfer>

  /**
   `claimTtl`: life of a claim.  `breakerMs`: when the breaker gives up on a verification.
   `verifyWithin`: no verification acts later than this after its request's claim.
   `clearWithin`: no request clears its claim later than this after taking it.
   */
  datatype Timing = Timing(claimTtl: nat, breakerMs: nat, verifyWithin: nat, clearWithin: nat)

  datatype Phase = Begun | Refused | Claimed | Looked | Fetched | Marked | Credited | Rejected

  datatype Handler = Handler(sig: string, phase: Phase, claimedAt: int, cleared: bool, transfer: Option<Transfer>)

  datatype Claim = Claim(owner: nat, expiresAt: int)

  datatype Credit = Credit(sig: string, transfer: Transfer, handler: nat)

  datatype State = State(used: set<string>, escrow: Balances, pending: map<string, Claim>,
                         handlers: seq<Handler>, credits: seq<Credit>, now: int)

  const INIT := State({}, map[], map[], [], [], 0)

  datatype Action =
    | Begin(sig: string)              // format gate and negative cache passed
    | TakeClaim(i: nat)
    | Look(i: nat)                    // hasSignature
    | Fetch(i: nat, found: bool)      // the RPC answers, or does not
    | Mark(i: nat)                    // addSignature
    | AddCredit(i: nat)               // incrEscrow
    | SkipVerify(i: nat)              // circuit open
    | Clear(i: nat)                   // the `finally` of the handler
    | Sweep                           // expired claims are collected

  datatype Step = Step(action: Action, at: int)

  predicate HasClaimed(h: Handler) { !h.phase.Begun? && !h.phase.Refused? }

  /** The verification still has a step to take before the signature is marked. */
  predicate Verifying(h: Handler) { h.phase.Claimed? || h.phase.Looked? || h.phase.Fetched? }

  /** The signature has been marked by this handler. */
  predicate Past(h: Handler) { h.phase.Marked? || h.phase.Credited? }

  predicate InTime(p: Timing, h: Handler, at: int) { at <= h.claimedAt + p.verifyWithin }

  predicate MayClear(p: Timing, h: Handler, at: int) {
    && HasClaimed(h) && !h.cleared
    && (h.phase.Rejected? || h.phase.Credited? || at >= h.claimedAt + p.breakerMs)
    && at <= h.claimedAt + p.clearWithin
  }

  predicate Enabled(p: Timing, s: State, step: Step) {
    && s.now <= step.at
    && match step.action
       case Begin(_) => true
       case Sweep => true
       case TakeClaim(i) => i < |s.handlers| && s.handlers[i].phase.Begun?
       case Look(i) => i < |s.handlers| && s.handlers[i].phase.Claimed? && InTime(p, s.handlers[i], step.at)
       case Fetch(i, _) => i < |s.handlers| && s.handlers[i].phase.Looked? && InTime(p, s.handlers[i], step.at)
       case Mark(i) => i < |s.handlers| && s.handlers[i].phase.Fetched? && InTime(p, s.handlers[i], step.at)
       case AddCredit(i) => i < |s.handlers| && s.handlers[i].phase.Marked? && s.handlers[i].transfer.Some?
       case SkipVerify(i) => i < |s.handlers| && s.handlers[i].phase.Claimed?
       case Clear(i) => i < |s.handlers| && MayClear(p, s.handlers[i], step.at)
  }

  /** The claim is free: none is stored, or the stored one has run out. */
  predicate ClaimFree(pending: map<string, Claim>, sig: string, at: int) {
    sig !in pending || pending[sig].expiresAt <= at
  }

  /** The claims after an attempt by handler `owner`. */
  function Claiming(pending: map<string, Claim>, sig: string, owner: nat, ttl: nat, at: int): map<string, Claim> {
    if ClaimFree(pending, sig, at) then pending[sig := Claim(owner, at + ttl)] else pending
  }

  function LiveClaims(pending: map<string, Claim>, at: int): map<string, Claim> {
    map sig | sig in pending && pending[sig].expiresAt >= at :: pending[sig]
  }

  function CreditTo(escrow: Balances, tr: Transfer): Balances { Add(escrow, tr.source, 1000 * tr.lamports) }

  function SetPhase(s: State, i: nat, phase: Phase): State
    requires i < |s.handlers|
  {
    s.(handlers := s.handlers[i := s.handlers[i].(phase := phase)])
  }

  function Act(p: Timing, chain: Chain, s: State, step: Step): State
    requires Enabled(p, s, step)
  {
    var t := s.(now := step.at);
    match step.action
    case Begin(sig) => t.(handlers := s.handlers + [Handler(sig, Begun, 0, false, None)])
    case TakeClaim(i) =>
      var h := s.handlers[i];
      if ClaimFree(s.pending, h.sig, step.at) then
        t.(handlers := s.handlers[i := Handler(h.sig, Claimed, step.at, false, None)],
           pending := Claiming(s.pending, h.sig, i, p.claimTtl, step.at))
      else SetPhase(t, i, Refused)
    case Look(i) => SetPhase(t, i, if s.handlers[i].sig in s.used then Rejected else Looked)
    case Fetch(i, found) =>
      var tr := chain(s.handlers[i].sig);
      if found && tr.Some? && tr.value.lamports > 0 then
        t.(handlers := s.handlers[i := s.handlers[i].(phase := Fetched, transfer := tr)])
      else SetPhase(t, i, Rejected)
    case Mark(i) => SetPhase(t, i, Marked).(used := s.used + {s.handlers[i].sig})
    case AddCredit(i) =>
      var h := s.handlers[i];
      var tr := h.transfer.value;
      SetPhase(t, i, Credited).(
        escrow := CreditTo(s.escrow, tr),
        credits := s.credits + [Credit(h.sig, tr, i)])
    case SkipVerify(i) => SetPhase(t, i, Rejected)
    case Clear(i) =>
      t.(handlers := s.handlers[i := s.handlers[i].(cleared := true)], pending := s.pending - {s.handlers[i].sig})
    case Sweep => t.(pending := LiveClaims(s.pending, step.at))
  }

  /** A step that is not possible does nothing, so every sequence of steps is a run. */
  function Do(p: Timing, chain: Chain, s: State, step: Step): State {
    if Enabled(p, s, step) then Act(p, chain, s, step) else s
  }

  function Run(p: Timing, chain: Chain, steps: seq<Step>): State {
    if steps == [] then INIT
    else Do(p, chain, Run(p, chain, steps[..|steps| - 1]), steps[|steps| - 1])
  }

  /** No signature is credited twice. */
  predicate CreditedOnce(s: State) {
    forall a, b :: 0 <= a < b < |s.credits| ==> s.credits[a].sig != s.credits[b].sig
  }

  // ---- reading one transaction ----------------------------------------------------------

  datatype Instruction = SystemTransfer(source: string, destination: string, lamports: nat) | Other

  predicate Pays(ix: Instruction, destination: string) { ix.SystemTransfer? && ix.destination == destination }

  /** The first transfer to the destination decides; a zero amount there rejects the deposit. */
  function Crediting(instructions: seq<Instruction>, destination: string): Option<Transfer> {
    if instructions == [] then None
    else if !Pays(instructions[0], destination) then Crediting(instructions[1..], destination)
    else if instructions[0].lamports > 0 then Some(Transfer(instructions[0].source, instructions[0].lamports))
    else None
  }

  /** Position `k` holds the first transfer to the destination. */
  predicate FirstPays(instructions: seq<Instruction>, destination: string, k: int) {
    && 0 <= k < |instructions| && Pays(instructions[k], destination)
    && forall j :: 0 <= j < k ==> !Pays(instructions[j], destination)
  }

  /**
   A deposit is worth the first transfer to the destination, and nothing exactly when there is none or it is of
   zero.
   */
  lemma {:induction false} CreditingMeans(instructions: seq<Instruction>, destination: string, k: int)
    requires FirstPays(instructions, destination, k)
    ensures var ix := instructions[k];
            Crediting(instructions, destination)
            == if ix.lamports > 0 then Some(Transfer(ix.source, ix.lamports)) else None
  {
    if k > 0 {
      assert instructions[1..][k - 1] == instructions[k];
      CreditingMeans(instructions[1..], destination, k - 1);
    }
  }

  lemma {:induction false} NothingCredited(instructions: seq<Instruction>, destination: string)
    requires forall ix <- instructions :: !Pays(ix, destination)
    ensures Crediting(instructions, destination) == None
  {
    if instructions != [] {
      assert instructions[0] in instructions;
      NothingCredited(instructions[1..], destination);
    }
  }

  method FindCrediting(instructions: seq<Instruction>, destination: string) returns (r: Option<Transfer>)
    ensures r == Crediting(instructions, destination)
  {
    assert instructions[0..] == instructions;
    for i := 0 to |instructions|
      invariant Crediting(instructions[i..], destination) == Crediting(instructions, destination)
    {
      var ix := instructions[i];
      assert instructions[i..][1..] == instructions[i + 1..];
      if Pays(ix, destination) {
        return if ix.lamports > 0 then Some(Transfer(ix.source, ix.lamports)) else None;
      }
    }
    return None;
  }
}
