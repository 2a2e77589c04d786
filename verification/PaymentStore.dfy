/** The in-memory store behind payments and deposits, updated in place, with the deposit route on top of it. */
module PaymentStore {
  import opened Options
  import opened Escrow
  import opened LedgerModel
  import opened DepositModel
  import opened DepositHandler

  class MemoryStore {
    var escrow: Balances
    var nonces: map<string, NonceRecord>
    var reputation: map<string, Reputation>
    var usedSigs: set<string>
    var pendingDeposits: map<string, Claim>
    var knownBadDeposits: Cache

    ghost function St(): Store
      reads this
    {
      Store(escrow, nonces, reputation)
    }

    ghost function DepositBooks(): Books
      reads this
    {
      Books(usedSigs, escrow, pendingDeposits)
    }

    constructor ()
      ensures St() == Store(map[], map[], map[])
      ensures DepositBooks() == Books({}, map[], map[]) && knownBadDeposits == map[]
    {
      escrow, nonces, reputation := map[], map[], map[];
      usedSigs, pendingDeposits, knownBadDeposits := {}, map[], map[];
    }

    method Incr(pubkey: string, delta: int) returns (next: int)
      modifies this`escrow
      ensures St() == IncrEscrow(old(St()), pubkey, delta) && next == Balance(escrow, pubkey)
    {
      var curr := if pubkey in escrow then escrow[pubkey] else 0;
      next := curr + delta;
      escrow := escrow[pubkey := next];
    }

    method IssueNonce(nonce: string, amount: int, hint: Option<string>, now: int)
      modifies this`nonces
      ensures St() == SetNonce(old(St()), nonce, amount, hint, now)
    {
      nonces := nonces[nonce := NonceRecord(amount, if hint == Some("") then None else hint, false,
                                            now + NONCE_TTL_MS)];
    }

    /** Validate everything, then mark and debit; a refusal writes nothing. */
    method ConsumeNonceAndDebit(nonce: string, pubkey: string, claimed: int, now: int) returns (r: Reply)
      modifies this`nonces, this`escrow
      ensures r == Verdict(old(St()), nonce, pubkey, claimed, now)
      ensures St() == Consume(old(St()), nonce, pubkey, claimed, now)
      ensures !r.ok ==> St() == old(St())
    {
      if nonce !in nonces { return Reply(false, NonceNotFound, 0); }
      var n := nonces[nonce];
      if n.used { return Reply(false, NonceAlreadyUsed, 0); }
      if now > n.expiresAt { return Reply(false, NonceExpired, 0); }
      if claimed < n.amount { return Reply(false, InsufficientPayment, 0); }
      if n.hint.Some? && n.hint.value != pubkey { return Reply(false, HintMismatch, 0); }
      var balance := if pubkey in escrow then escrow[pubkey] else 0;
      if balance < claimed { return Reply(false, InsufficientBalance, balance); }
      nonces := nonces[nonce := n.(used := true)];
      var newBalance := balance - claimed;
      escrow := escrow[pubkey := newBalance];
      return Reply(true, Ok, newBalance);
    }

    method Record(pubkey: string, amount: int, now: int) returns (rec: Reputation)
      modifies this`reputation
      ensures St() == RecordPayment(old(St()), pubkey, amount, now)
      ensures pubkey in reputation && rec == reputation[pubkey]
    {
      rec := if pubkey in reputation then reputation[pubkey] else Reputation(0, 0, now, now);
      rec := rec.(paidCount := rec.paidCount + 1);
      rec := rec.(lastPaidAt := now);
      rec := rec.(totalPaid := rec.totalPaid + amount);
      reputation := reputation[pubkey := rec];
    }

    /** The periodic sweeper: nonces, claims and the cache of rejected deposits. */
    method Sweep(now: int)
      modifies this`nonces, this`pendingDeposits, this`knownBadDeposits
      ensures St() == SweepNonces(old(St()), now)
      ensures pendingDeposits == LiveClaims(old(pendingDeposits), now)
      ensures knownBadDeposits == LiveCache(old(knownBadDeposits), now)
      ensures (forall n <- nonces :: nonces[n].expiresAt >= now)
              && (forall sig <- pendingDeposits :: pendingDeposits[sig].expiresAt >= now)
              && (forall sig <- knownBadDeposits :: knownBadDeposits[sig] >= now)
    {
      SweepExpired(now);
      SweepPending(now);
      SweepKnownBad(now);
    }

    method SweepExpired(now: int)
      modifies this`nonces
      ensures St() == SweepNonces(old(St()), now)
    {
      ghost var before := nonces;
      var todo := nonces.Keys;
      while todo != {}
        invariant todo <= before.Keys
        invariant nonces == map n | n in before && (n in todo || before[n].expiresAt >= now) :: before[n]
        decreases |todo|
      {
        var n :| n in todo;
        todo := todo - {n};
        if nonces[n].expiresAt < now {
          nonces := nonces - {n};
        }
      }
    }

    method SweepPending(now: int)
      modifies this`pendingDeposits
      ensures pendingDeposits == LiveClaims(old(pendingDeposits), now)
    {
      ghost var before := pendingDeposits;
      var todo := pendingDeposits.Keys;
      while todo != {}
        invariant todo <= before.Keys
        invariant pendingDeposits == map n | n in before && (n in todo || before[n].expiresAt >= now) :: before[n]
        decreases |todo|
      {
        var sig :| sig in todo;
        todo := todo - {sig};
        if pendingDeposits[sig].expiresAt < now {
          pendingDeposits := pendingDeposits - {sig};
        }
      }
    }

    method SweepKnownBad(now: int)
      modifies this`knownBadDeposits
      ensures knownBadDeposits == LiveCache(old(knownBadDeposits), now)
    {
      ghost var before := knownBadDeposits;
      var todo := knownBadDeposits.Keys;
      while todo != {}
        invariant todo <= before.Keys
        invariant knownBadDeposits == map n | n in before && (n in todo || before[n] >= now) :: before[n]
        decreases |todo|
      {
        var sig :| sig in todo;
        todo := todo - {sig};
        if knownBadDeposits[sig] < now {
          knownBadDeposits := knownBadDeposits - {sig};
        }
      }
    }

    method ClaimPendingDeposit(sig: string, owner: nat, ttl: nat, now: int) returns (ok: bool)
      modifies this`pendingDeposits
      ensures ok == ClaimFree(old(pendingDeposits), sig, now)
      ensures pendingDeposits == Claiming(old(pendingDeposits), sig, owner, ttl, now)
    {
      if sig in pendingDeposits && pendingDeposits[sig].expiresAt > now {
        return false;
      }
      pendingDeposits := pendingDeposits[sig := Claim(owner, now + ttl)];
      return true;
    }

    /** A stale entry is deleted when read. */
    method IsDepositKnownBad(sig: string, now: int) returns (bad: bool)
      modifies this`knownBadDeposits
      ensures bad == IsKnownBad(old(knownBadDeposits), sig, now)
      ensures knownBadDeposits == if bad then old(knownBadDeposits) else old(knownBadDeposits) - {sig}
    {
      if sig !in knownBadDeposits { return false; }
      if knownBadDeposits[sig] < now {
        knownBadDeposits := knownBadDeposits - {sig};
        return false;
      }
      return true;
    }

    /** Mark first, credit second; every refusal leaves the books alone. */
    method VerifyDepositTx(sig: string, answer: Answer, destination: string) returns (r: Outcome)
      modifies this`usedSigs, this`escrow
      ensures var tr := Found(answer, destination);
              && (r.Accepted? <==> sig !in old(usedSigs) && tr.Some?)
              && (r == AlreadyUsed <==> sig in old(usedSigs))
              && (r == RpcFailed <==> sig !in old(usedSigs) && answer.RpcError?)
              && (r.Accepted? ==> usedSigs == old(usedSigs) + {sig} && escrow == CreditTo(old(escrow), tr.value)
                                  && r == Accepted(tr.value.source, Balance(escrow, tr.value.source)))
              && (!r.Accepted? ==> usedSigs == old(usedSigs) && escrow == old(escrow))
      ensures r.Accepted? || r == AlreadyUsed || r == RpcFailed || r == NotCreditable
    {
      if sig in usedSigs { return AlreadyUsed; }
      if answer.RpcError? { return RpcFailed; }
      if answer.found.None? { return NotCreditable; }
      var crediting := FindCrediting(answer.found.value, destination);
      if crediting.None? { return NotCreditable; }
      usedSigs := usedSigs + {sig};
      var source := crediting.value.source;
      var balance := Incr(source, crediting.value.lamports * 1000);
      return Accepted(source, balance);
    }

    /** The route: format gate, cache of rejected signatures, claim, breaker and verification, `finally`. */
    method HandleDeposit(sig: string, wellFormed: bool, owner: nat, ttl: nat, badTtl: nat, now: int, circuitOpen: bool,
                         answer: Answer, destination: string) returns (r: Outcome)
      modifies this`usedSigs, this`escrow, this`pendingDeposits, this`knownBadDeposits
      ensures var tr := Found(answer, destination);
              var before := old(DepositBooks());
              var goes := Admissible(wellFormed, old(knownBadDeposits), sig, now);
              && DepositBooks() == (if goes then Handled(before, sig, now, circuitOpen, tr) else before)
              && (r.Accepted? <==> goes && !circuitOpen && Credits(before, sig, now, tr))
              && (r.InProgress? <==> goes && !ClaimFree(before.pending, sig, now))
              && (r.CircuitOpen? <==> goes && ClaimFree(before.pending, sig, now)
                                      && (circuitOpen || (sig !in before.used && answer.RpcError?)))
      ensures var tr := Found(answer, destination);
              var sent := Admissible(wellFormed, old(knownBadDeposits), sig, now)
                          && ClaimFree(old(pendingDeposits), sig, now) && !circuitOpen;
              && (r.Accepted? ==> tr.Some? && r == Accepted(tr.value.source, Balance(escrow, tr.value.source))
                                  && r.balance == Balance(old(escrow), tr.value.source) + 1000 * tr.value.lamports)
              && (r == AlreadyUsed <==> sent && sig in old(usedSigs))
              && (r == NotCreditable <==> sent && sig !in old(usedSigs) && answer.Answered? && tr.None?)
      ensures r != RpcFailed
      ensures r == BadFormat <==> !wellFormed
      ensures r == KnownBad <==> wellFormed && IsKnownBad(old(knownBadDeposits), sig, now)
      ensures knownBadDeposits == Remembered(old(knownBadDeposits), sig, now, badTtl, r)
    {
      if !wellFormed { return BadFormat; }
      var bad := IsDepositKnownBad(sig, now);
      if bad { return KnownBad; }
      var ok := ClaimPendingDeposit(sig, owner, ttl, now);
      if !ok { return InProgress; }
      if circuitOpen {
        r := CircuitOpen;
      } else {
        r := VerifyDepositTx(sig, answer, destination);
        if r == RpcFailed {
          r := CircuitOpen;   // the breaker's fallback
        }
        if r == AlreadyUsed || r == NotCreditable {
          knownBadDeposits := knownBadDeposits[sig := now + badTtl];
        }
      }
      pendingDeposits := pendingDeposits - {sig};
      ClaimCleared(old(pendingDeposits), sig, owner, ttl, now);
    }
  }

  lemma {:induction false} ClaimCleared(pending: map<string, Claim>, sig: string, owner: nat, ttl: nat, now: int)
    ensures Claiming(pending, sig, owner, ttl, now) - {sig} == pending - {sig}
  {}
}
