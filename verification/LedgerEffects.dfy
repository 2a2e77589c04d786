/** What a quote promises, who can pay it and what is remembered of payments, over every interleaving. */
module LedgerEffects {
  import opened Options
  import opened Escrow
  import opened LedgerModel
  import opened LedgerTheorems

  lemma {:induction false} RunSnoc(steps: seq<Step>, x: Step)
    ensures var w := Run(steps); Run(steps + [x]) == if Enabled(w, x) then Act(w, x) else w
  {
    assert (steps + [x])[..|steps|] == steps;
  }

  // ---- quotes ---------------------------------------------------------------------------

  /** A quote made for nobody in particular: no hint, or an empty one. */
  predicate Unbound(hint: Option<string>) { hint == None || hint == Some("") }

  /** The run up to a challenge, and on from there. */
  function Challenged(steps: seq<Step>, nonce: string, amount: int, hint: Option<string>, at: int, later: seq<Step>)
    : seq<Step>
  {
    steps + [Step(Challenge(nonce, amount, hint), at)] + later
  }

  ghost predicate CanChallenge(steps: seq<Step>, nonce: string, amount: int, hint: Option<string>, at: int) {
    Enabled(Run(steps), Step(Challenge(nonce, amount, hint), at))
  }

  /** A quote stands as it was asked for, whatever follows. */
  lemma {:induction false} QuoteStands(steps: seq<Step>, nonce: string, amount: int, hint: Option<string>, at: int,
                                       later: seq<Step>)
    requires CanChallenge(steps, nonce, amount, hint, at)
    ensures var w := Run(Challenged(steps, nonce, amount, hint, at, later));
            nonce in w.quotes && w.quotes[nonce] == Quote(amount, if Unbound(hint) then None else hint, at)
  {
    if later == [] {
      RunSnoc(steps, Step(Challenge(nonce, amount, hint), at));
      assert Challenged(steps, nonce, amount, hint, at, []) == steps + [Step(Challenge(nonce, amount, hint), at)];
    } else {
      var pre, x := later[..|later| - 1], later[|later| - 1];
      QuoteStands(steps, nonce, amount, hint, at, pre);
      var before := Challenged(steps, nonce, amount, hint, at, pre);
      assert Challenged(steps, nonce, amount, hint, at, later) == before + [x];
      RunSnoc(before, x);
    }
  }

  /**
   Whoever was named when the quote was asked for is the only one who can pay it, in any continuation: within
   30 s and for no less than the quoted amount.
   */
  lemma {:induction false} OnlyTheNamedPay(steps: seq<Step>, nonce: string, amount: int, pk: string, at: int,
                                           later: seq<Step>)
    requires CanChallenge(steps, nonce, amount, Some(pk), at) && pk != ""
    ensures forall e <- Run(Challenged(steps, nonce, amount, Some(pk), at, later)).trace ::
              e.Consumed? && e.nonce == nonce ==> e.pk == pk && e.amount >= amount && e.at <= at + 30_000
  {
    var run := Challenged(steps, nonce, amount, Some(pk), at, later);
    var w := Run(run);
    QuoteStands(steps, nonce, amount, Some(pk), at, later);
    NonceDiscipline(run);
    forall e | e in w.trace && e.Consumed? && e.nonce == nonce
      ensures e.pk == pk && e.amount >= amount && e.at <= at + 30_000
    {
      assert Honours(e, w.quotes);
    }
  }

  // ---- when a payment goes through ------------------------------------------------------

  ghost predicate SpentIn(trace: seq<Event>, nonce: string) {
    exists e :: e in trace && e.Consumed? && e.nonce == nonce
  }

  /** A quote leaves the store only when it has run out, and is marked only by a payment. */
  ghost predicate QuotesKept(w: World) {
    && (forall n <- w.quotes :: n in w.store.nonces || w.quotes[n].issuedAt + 30_000 < w.now)
    && (forall n <- w.store.nonces :: w.store.nonces[n].used ==> SpentIn(w.trace, n))
  }

  lemma {:induction false} SpentMore(trace: seq<Event>, e: Event, nonce: string)
    ensures SpentIn(trace + [e], nonce) <==> SpentIn(trace, nonce) || (e.Consumed? && e.nonce == nonce)
  {
    if e.Consumed? && e.nonce == nonce { assert e in trace + [e]; }
    if x :| x in trace && x.Consumed? && x.nonce == nonce { assert x in trace + [e]; }
  }

  lemma {:induction false} QuotesKeptNext(w: World, x: Step)
    requires Enabled(w, x) && QuotesKept(w) && NoncesQuoted(w)
    ensures QuotesKept(Act(w, x))
  {
    var t := Act(w, x);
    forall n | n in t.store.nonces && t.store.nonces[n].used ensures SpentIn(t.trace, n) {
      if |t.trace| > |w.trace| { SpentMore(w.trace, t.trace[|w.trace|], n); }
    }
  }

  lemma {:induction false} RunQuotesKept(steps: seq<Step>)
    ensures QuotesKept(Run(steps))
  {
    if steps != [] {
      var pre, x := steps[..|steps| - 1], steps[|steps| - 1];
      RunQuotesKept(pre);
      NonceDiscipline(pre);
      if Enabled(Run(pre), x) { QuotesKeptNext(Run(pre), x); }
    }
  }

  /**
   A payment goes through exactly when its quote has not been paid, is at most 30 s old, is not above the amount, was
   made for nobody in particular or for this payer, and the balance covers the amount.
   */
  lemma {:induction false} PaysExactly(steps: seq<Step>, nonce: string, amount: int, hint: Option<string>, at: int,
                                       later: seq<Step>, i: nat, now: int)
    requires CanChallenge(steps, nonce, amount, hint, at)
    requires var w := Run(Challenged(steps, nonce, amount, hint, at, later));
             Enabled(w, Step(Pay(i), now)) && w.requests[i].nonce == nonce
    ensures var w := Run(Challenged(steps, nonce, amount, hint, at, later));
            var r := w.requests[i];
            Act(w, Step(Pay(i), now)).requests[i].phase
            == if !SpentIn(w.trace, nonce) && now <= at + 30_000 && amount <= r.amount
                  && (Unbound(hint) || hint == Some(r.pk)) && r.amount <= Balance(w.store.escrow, r.pk)
               then Debited else Failed
  {
    var run := Challenged(steps, nonce, amount, hint, at, later);
    QuoteStands(steps, nonce, amount, hint, at, later);
    NonceDiscipline(run);
    RunQuotesKept(run);
    PaysByQuote(Run(run), i, now);
  }

  lemma {:induction false} PaysByQuote(w: World, i: nat, now: int)
    requires Enabled(w, Step(Pay(i), now)) && w.requests[i].nonce in w.quotes
    requires NoncesQuoted(w) && TraceHonest(w) && QuotesKept(w)
    ensures var r := w.requests[i];
            var q := w.quotes[r.nonce];
            Act(w, Step(Pay(i), now)).requests[i].phase
            == if !SpentIn(w.trace, r.nonce) && now <= q.issuedAt + 30_000 && q.amount <= r.amount
                  && (q.hint == None || q.hint == Some(r.pk)) && r.amount <= Balance(w.store.escrow, r.pk)
               then Debited else Failed
  {
    var n := w.requests[i].nonce;
    if n in w.store.nonces { assert w.store.nonces[n].used <==> SpentIn(w.trace, n); }
  }

  /** The reason of a refusal is the first of the checks that fails, and only a short balance is reported. */
  lemma {:induction false} ReasonsInOrder(s: Store, nonce: string, pk: string, amount: int, now: int)
    ensures var v := Verdict(s, nonce, pk, amount, now);
            var known := nonce in s.nonces;
            var unused := known && !s.nonces[nonce].used;
            var inTime := unused && now <= s.nonces[nonce].expiresAt;
            var enough := inTime && amount >= s.nonces[nonce].amount;
            var bound := enough && s.nonces[nonce].hint in {None, Some(pk)};
            var funded := bound && Balance(s.escrow, pk) >= amount;
            && (v.reason == NonceNotFound <==> !known) && (v.reason == NonceAlreadyUsed <==> known && !unused)
            && (v.reason == NonceExpired <==> unused && !inTime)
            && (v.reason == InsufficientPayment <==> inTime && !enough)
            && (v.reason == HintMismatch <==> enough && !bound)
            && (v.reason == InsufficientBalance <==> bound && !funded)
            && (v.reason == Ok <==> funded) && (v.ok <==> funded)
            && v.balance == (if v.ok then Balance(Consume(s, nonce, pk, amount, now).escrow, pk)
                             else if bound then Balance(s.escrow, pk) else 0)
  {}

  // ---- signatures -----------------------------------------------------------------------

  /** Some step submitted this payment with a valid signature. */
  ghost predicate Signed(steps: seq<Step>, nonce: string, pk: string, amount: int) {
    exists j :: 0 <= j < |steps| && steps[j].action == Submit(nonce, pk, amount, true)
  }

  ghost predicate AllSigned(steps: seq<Step>, w: World) {
    && (forall r <- w.requests :: !r.phase.Failed? ==> Signed(steps, r.nonce, r.pk, r.amount))
    && (forall e <- w.trace :: e.Consumed? ==> Signed(steps, e.nonce, e.pk, e.amount))
  }

  lemma {:induction false} SignedMore(steps: seq<Step>, x: Step, nonce: string, pk: string, amount: int)
    requires Signed(steps, nonce, pk, amount) || x.action == Submit(nonce, pk, amount, true)
    ensures Signed(steps + [x], nonce, pk, amount)
  {
    if x.action == Submit(nonce, pk, amount, true) {
      assert (steps + [x])[|steps|] == x;
    } else {
      var j :| 0 <= j < |steps| && steps[j].action == Submit(nonce, pk, amount, true);
      assert (steps + [x])[j] == steps[j];
    }
  }

  lemma {:induction false} AllSignedNext(steps: seq<Step>, w: World, x: Step)
    requires AllSigned(steps, w)
    ensures AllSigned(steps + [x], if Enabled(w, x) then Act(w, x) else w)
  {
    var t := if Enabled(w, x) then Act(w, x) else w;
    forall r | r in t.requests && !r.phase.Failed? ensures Signed(steps + [x], r.nonce, r.pk, r.amount) {
      var i :| 0 <= i < |t.requests| && t.requests[i] == r;
      if i < |w.requests| { assert w.requests[i] in w.requests; }
      SignedMore(steps, x, r.nonce, r.pk, r.amount);
    }
    forall e | e in t.trace && e.Consumed? ensures Signed(steps + [x], e.nonce, e.pk, e.amount) {
      if e !in w.trace { assert w.requests[x.action.i] in w.requests; }
      SignedMore(steps, x, e.nonce, e.pk, e.amount);
    }
  }

  /** Nothing is paid that the payer did not sign: nonce, account and amount. */
  lemma {:induction false} PaidWasSigned(steps: seq<Step>)
    ensures AllSigned(steps, Run(steps))
  {
    if steps != [] {
      var pre, x := steps[..|steps| - 1], steps[|steps| - 1];
      PaidWasSigned(pre);
      AllSignedNext(pre, Run(pre), x);
      assert pre + [x] == steps;
    }
  }

  /** A signed payment of a live quote is let in; one that is not signed, or of a nonce never quoted, is not. */
  lemma {:induction false} SubmitLetsIn(steps: seq<Step>, nonce: string, pk: string, amount: int, authentic: bool,
                                        at: int)
    requires Run(steps).now <= at
    ensures var w := Run(steps);
            var t := Run(steps + [Step(Submit(nonce, pk, amount, authentic), at)]);
            && |t.requests| == |w.requests| + 1 && t.requests[..|w.requests|] == w.requests && t.store == w.store
            && var r := t.requests[|w.requests|];
               && r == Request(nonce, pk, amount, r.phase) && (r.phase == PreChecked || r.phase == Failed)
               && (!authentic || nonce !in w.quotes ==> r.phase == Failed)
               && (authentic && nonce in w.quotes && at <= w.quotes[nonce].issuedAt + 30_000 ==> r.phase == PreChecked)
  {
    RunSnoc(steps, Step(Submit(nonce, pk, amount, authentic), at));
    NonceDiscipline(steps);
    RunQuotesKept(steps);
  }

  // ---- reputation -----------------------------------------------------------------------

  /** The recorded payments of one account, in order. */
  function PaymentsOf(trace: seq<Event>, pk: string): seq<Event> {
    if trace == [] then []
    else
      var e := trace[|trace| - 1];
      PaymentsOf(trace[..|trace| - 1], pk) + (if e.Recorded? && e.pk == pk then [e] else [])
  }

  function Amounts(payments: seq<Event>): int {
    if payments == [] then 0
    else
      var e := payments[|payments| - 1];
      Amounts(payments[..|payments| - 1]) + (if e.Recorded? then e.amount else 0)
  }

  lemma {:induction false} PaymentsSnoc(trace: seq<Event>, e: Event, pk: string)
    ensures PaymentsOf(trace + [e], pk) == PaymentsOf(trace, pk) + (if e.Recorded? && e.pk == pk then [e] else [])
  {
    assert (trace + [e])[..|trace|] == trace;
  }

  /** The record of `pk` is its payments: how many, how much, the first and the last time. */
  ghost predicate RecordOf(reputation: map<string, Reputation>, payments: seq<Event>, pk: string) {
    && (forall p <- payments :: p.Recorded?)
    && (pk in reputation <==> payments != [])
    && (payments != [] ==>
          reputation[pk] == Reputation(|payments|, Amounts(payments), payments[0].at, payments[|payments| - 1].at))
  }

  lemma {:induction false} RecordOfNext(s: Store, payments: seq<Event>, pk: string, amount: int, now: int)
    requires RecordOf(s.reputation, payments, pk)
    ensures RecordOf(RecordPayment(s, pk, amount, now).reputation, payments + [Recorded(pk, amount, now)], pk)
  {
    var all := payments + [Recorded(pk, amount, now)];
    assert all[..|payments|] == payments;
    if payments == [] { assert Amounts([]) == 0; }
  }

  lemma {:induction false} OtherRecord(s: Store, payments: seq<Event>, pk: string, payer: string, amount: int, now: int)
    requires RecordOf(s.reputation, payments, pk) && payer != pk
    ensures RecordOf(RecordPayment(s, payer, amount, now).reputation, payments, pk)
  {}

  lemma {:induction false} ReputationNext(w: World, x: Step, pk: string)
    requires Enabled(w, x) && RecordOf(w.store.reputation, PaymentsOf(w.trace, pk), pk)
    ensures var t := Act(w, x); RecordOf(t.store.reputation, PaymentsOf(t.trace, pk), pk)
  {
    if x.action.RecordPaid? { RecordNext(w, x, pk); } else { SameRecord(w, x, pk); }
  }

  lemma {:induction false} RecordNext(w: World, x: Step, pk: string)
    requires Enabled(w, x) && x.action.RecordPaid? && RecordOf(w.store.reputation, PaymentsOf(w.trace, pk), pk)
    ensures var t := Act(w, x); RecordOf(t.store.reputation, PaymentsOf(t.trace, pk), pk)
  {
    var r, payments := w.requests[x.action.i], PaymentsOf(w.trace, pk);
    PaymentsSnoc(w.trace, Recorded(r.pk, r.amount, x.at), pk);
    if r.pk == pk {
      RecordOfNext(w.store, payments, pk, r.amount, x.at);
    } else {
      assert payments + [] == payments;
      OtherRecord(w.store, payments, pk, r.pk, r.amount, x.at);
    }
  }

  lemma {:induction false} SameRecord(w: World, x: Step, pk: string)
    requires Enabled(w, x) && !x.action.RecordPaid?
    ensures var t := Act(w, x);
            t.store.reputation == w.store.reputation && PaymentsOf(t.trace, pk) == PaymentsOf(w.trace, pk)
  {
    var t := Act(w, x);
    if |t.trace| > |w.trace| {
      PaymentsSnoc(w.trace, t.trace[|w.trace|], pk);
      assert PaymentsOf(w.trace, pk) + [] == PaymentsOf(w.trace, pk);
    }
  }

  /** Over every interleaving the reputation record of an account is what its recorded payments say. */
  lemma {:induction false} ReputationExactly(steps: seq<Step>, pk: string)
    ensures var w := Run(steps); RecordOf(w.store.reputation, PaymentsOf(w.trace, pk), pk)
  {
    if steps != [] {
      var pre, x := steps[..|steps| - 1], steps[|steps| - 1];
      ReputationExactly(pre, pk);
      if Enabled(Run(pre), x) { ReputationNext(Run(pre), x, pk); }
    }
  }
}
