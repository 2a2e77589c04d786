/** Conservation, single use and binding, over every interleaving. */
module LedgerTheorems {
  import opened Options
  import opened Escrow
  import opened LedgerModel

  // ---- conservation ---------------------------------------------------------------------

  function CreditedTo(trace: seq<Event>, pk: string): int {
    if trace == [] then 0
    else
      var e := trace[|trace| - 1];
      CreditedTo(trace[..|trace| - 1], pk) + (if e.Credited? && e.pk == pk then e.amount else 0)
  }

  /** Debited, but not yet written to the reputation record. */
  function InTransit(rs: seq<Request>, pk: string): int {
    if rs == [] then 0
    else
      var r := rs[|rs| - 1];
      InTransit(rs[..|rs| - 1], pk) + Owed(r, pk)
  }

  function Owed(r: Request, pk: string): int { if r.phase.Debited? && r.pk == pk then r.amount else 0 }

  lemma {:induction false} InTransitUpdate(rs: seq<Request>, i: nat, r: Request, pk: string)
    requires i < |rs|
    ensures InTransit(rs[i := r], pk) == InTransit(rs, pk) - Owed(rs[i], pk) + Owed(r, pk)
  {
    var n := |rs| - 1;
    if i == n {
      assert rs[i := r][..n] == rs[..n];
    } else {
      assert rs[i := r][..n] == rs[..n][i := r];
      InTransitUpdate(rs[..n], i, r, pk);
    }
  }

  lemma {:induction false} CreditedToSnoc(trace: seq<Event>, e: Event, pk: string)
    ensures CreditedTo(trace + [e], pk) == CreditedTo(trace, pk) + (if e.Credited? && e.pk == pk then e.amount else 0)
  {
    assert (trace + [e])[..|trace|] == trace;
  }

  ghost predicate Conserved(w: World, pk: string) {
    Balance(w.store.escrow, pk) + TotalPaid(w.store.reputation, pk) + InTransit(w.requests, pk)
    == CreditedTo(w.trace, pk)
  }

  /** A consume moves the claimed amount out of the payer's balance, or nothing at all. */
  lemma {:induction false} ConsumeMoves(s: Store, nonce: string, pk: string, amount: int, now: int, other: string)
    ensures var t := Consume(s, nonce, pk, amount, now);
            var ok := Verdict(s, nonce, pk, amount, now).ok;
            && Balance(t.escrow, other) == Balance(s.escrow, other) - (if ok && other == pk then amount else 0)
            && t.reputation == s.reputation
  {}

  lemma {:induction false} PayInTransit(w: World, i: nat, at: int, pk: string)
    requires Enabled(w, Step(Pay(i), at))
    ensures var r := w.requests[i];
            var ok := Verdict(w.store, r.nonce, r.pk, r.amount, at).ok;
            InTransit(Act(w, Step(Pay(i), at)).requests, pk)
            == InTransit(w.requests, pk) + (if ok && r.pk == pk then r.amount else 0)
  {
    InTransitUpdate(w.requests, i, Act(w, Step(Pay(i), at)).requests[i], pk);
  }

  lemma {:induction false} PayConserves(w: World, i: nat, at: int, pk: string)
    requires Enabled(w, Step(Pay(i), at)) && Conserved(w, pk)
    ensures Conserved(Act(w, Step(Pay(i), at)), pk)
  {
    var r := w.requests[i];
    ConsumeMoves(w.store, r.nonce, r.pk, r.amount, at, pk);
    PayInTransit(w, i, at, pk);
    CreditedToSnoc(w.trace, Consumed(r.nonce, r.pk, r.amount, at), pk);
  }

  lemma {:induction false} RecordConserves(w: World, i: nat, at: int, pk: string)
    requires Enabled(w, Step(RecordPaid(i), at)) && Conserved(w, pk)
    ensures Conserved(Act(w, Step(RecordPaid(i), at)), pk)
  {
    var r := w.requests[i];
    var t := Act(w, Step(RecordPaid(i), at));
    InTransitUpdate(w.requests, i, t.requests[i], pk);
    CreditedToSnoc(w.trace, Recorded(r.pk, r.amount, at), pk);
  }

  lemma {:induction false} StepConserves(w: World, step: Step, pk: string)
    requires Enabled(w, step) && Conserved(w, pk)
    ensures Conserved(Act(w, step), pk)
  {
    match step.action
    case Deposit(p, amount) => CreditedToSnoc(w.trace, Credited(p, amount), pk);
    case Submit(_, _, _, _) => assert Act(w, step).requests[..|w.requests|] == w.requests;
    case Pay(i) => PayConserves(w, i, step.at, pk);
    case RecordPaid(i) => RecordConserves(w, i, step.at, pk);
    case Challenge(_, _, _) =>
    case Sweep =>
  }

  /** Per account: balance, recorded payments and payments in transit add up to what was deposited. */
  lemma {:induction false} Conservation(steps: seq<Step>, pk: string)
    ensures Conserved(Run(steps), pk)
  {
    if steps != [] {
      var pre, x := steps[..|steps| - 1], steps[|steps| - 1];
      Conservation(pre, pk);
      if Enabled(Run(pre), x) {
        StepConserves(Run(pre), x, pk);
      }
    }
  }

  lemma {:induction false} BalancesNeverNegative(steps: seq<Step>, pk: string)
    ensures Balance(Run(steps).store.escrow, pk) >= 0
  {
    if steps != [] {
      BalancesNeverNegative(steps[..|steps| - 1], pk);
    }
  }

  // ---- nonces ---------------------------------------------------------------------------

  /** Every stored nonce is a quote as issued, apart from its `used` flag. */
  ghost predicate NoncesQuoted(w: World) {
    forall n <- w.store.nonces ::
      && n in w.quotes
      && w.store.nonces[n].amount == w.quotes[n].amount && w.store.nonces[n].hint == w.quotes[n].hint
      && w.store.nonces[n].expiresAt == w.quotes[n].issuedAt + NONCE_TTL_MS
  }

  /** A consume honours the quote: in time, at no less than the price, by the hinted key. */
  predicate Honours(e: Event, quotes: map<string, Quote>) {
    e.Consumed? ==>
      && e.nonce in quotes
      && quotes[e.nonce].amount <= e.amount
      && e.at <= quotes[e.nonce].issuedAt + NONCE_TTL_MS
      && (quotes[e.nonce].hint.Some? ==> quotes[e.nonce].hint.value == e.pk)
  }

  ghost predicate TraceHonest(w: World) {
    && (forall e <- w.trace :: Honours(e, w.quotes))
    && (forall e <- w.trace :: e.Consumed? && e.nonce in w.store.nonces ==> w.store.nonces[e.nonce].used)
  }

  ghost predicate SingleUse(trace: seq<Event>) {
    forall i, j :: 0 <= i < j < |trace| && trace[i].Consumed? && trace[j].Consumed? ==> trace[i].nonce != trace[j].nonce
  }

  lemma {:induction false} NoncesQuotedKept(w: World, step: Step)
    requires Enabled(w, step) && NoncesQuoted(w)
    ensures NoncesQuoted(Act(w, step))
  {}

  lemma {:induction false} TraceHonestKept(w: World, step: Step)
    requires Enabled(w, step) && NoncesQuoted(w) && TraceHonest(w)
    ensures TraceHonest(Act(w, step))
  {
    var t := Act(w, step);
    forall e | e in t.trace
      ensures Honours(e, t.quotes)
      ensures e.Consumed? && e.nonce in t.store.nonces ==> t.store.nonces[e.nonce].used
    {
      assert e in w.trace || e == t.trace[|w.trace|];
    }
  }

  lemma {:induction false} SingleUseKept(w: World, step: Step)
    requires Enabled(w, step) && TraceHonest(w) && SingleUse(w.trace)
    ensures SingleUse(Act(w, step).trace)
  {
    var t := Act(w, step);
    forall i, j | 0 <= i < j < |t.trace| && t.trace[i].Consumed? && t.trace[j].Consumed?
      ensures t.trace[i].nonce != t.trace[j].nonce
    {
      assert t.trace[i] == w.trace[i] && w.trace[i] in w.trace;
      if j < |w.trace| {
        assert t.trace[j] == w.trace[j];
      }
    }
  }

  lemma {:induction false} NonceDiscipline(steps: seq<Step>)
    ensures var w := Run(steps); NoncesQuoted(w) && TraceHonest(w) && SingleUse(w.trace)
  {
    if steps != [] {
      var pre, x := steps[..|steps| - 1], steps[|steps| - 1];
      NonceDiscipline(pre);
      if Enabled(Run(pre), x) {
        NoncesQuotedKept(Run(pre), x);
        TraceHonestKept(Run(pre), x);
        SingleUseKept(Run(pre), x);
      }
    }
  }

  /**
   Over any interleaving, sweeps included: an issued nonce is consumed at most once, no later than
   its expiry, for at least the quoted price, and a hinted quote only by the hinted key.
   */
  lemma {:induction false} NonceSafety(steps: seq<Step>, i: nat)
    requires i < |Run(steps).trace| && Run(steps).trace[i].Consumed?
    ensures var w := Run(steps);
            var e := w.trace[i];
            && e.nonce in w.quotes && w.quotes[e.nonce].amount <= e.amount
            && e.at <= w.quotes[e.nonce].issuedAt + NONCE_TTL_MS
            && w.quotes[e.nonce].hint in {None, Some(e.pk)}
            && forall j :: 0 <= j < |w.trace| && j != i && w.trace[j].Consumed? ==> w.trace[j].nonce != e.nonce
  {
    NonceDiscipline(steps);
    var w := Run(steps);
    assert w.trace[i] in w.trace && Honours(w.trace[i], w.quotes);
  }
}
