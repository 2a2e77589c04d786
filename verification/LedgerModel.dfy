/**
 The payment ledger: escrow, nonces and reputation, and concurrent paid requests as
 interleaved steps.  A step boundary stands wherever the program awaits the store.
 */
module LedgerModel {
  import opened Options
  import opened Escrow

  const NONCE_TTL_MS: int := 30_000

  datatype NonceRecord = NonceRecord(amount: int, hint: Option<string>, used: bool, expiresAt: int)

  datatype Reputation = Reputation(paidCount: nat, totalPaid: int, firstPaidAt: int, lastPaidAt: int)

  datatype Store = Store(escrow: Balances, nonces: map<string, NonceRecord>, reputation: map<string, Reputation>)

  datatype Reason =
    | Ok | NonceNotFound | NonceAlreadyUsed | NonceExpired | InsufficientPayment | HintMismatch | InsufficientBalance

  datatype Reply = Reply(ok: bool, reason: Reason, balance: int)

  function TotalPaid(reputation: map<string, Reputation>, pk: string): int {
    if pk in reputation then reputation[pk].totalPaid else 0
  }

  function IncrEscrow(s: Store, pk: string, delta: int): Store {
    s.(escrow := Add(s.escrow, pk, delta))
  }

  /** An empty hint counts as none. */
  function Bind(hint: Option<string>): Option<string> { if hint == Some("") then None else hint }

  function SetNonce(s: Store, nonce: string, amount: int, hint: Option<string>, now: int): Store {
    s.(nonces := s.nonces[nonce := NonceRecord(amount, Bind(hint), false, now + NONCE_TTL_MS)])
  }

  /** Checks in the program's order; every refusal leaves the store alone. */
  function Verdict(s: Store, nonce: string, pk: string, amount: int, now: int): Reply {
    if nonce !in s.nonces then Reply(false, NonceNotFound, 0)
    else
      var n := s.nonces[nonce];
      if n.used then Reply(false, NonceAlreadyUsed, 0)
      else if now > n.expiresAt then Reply(false, NonceExpired, 0)
      else if amount < n.amount then Reply(false, InsufficientPayment, 0)
      else if n.hint.Some? && n.hint.value != pk then Reply(false, HintMismatch, 0)
      else if Balance(s.escrow, pk) < amount then Reply(false, InsufficientBalance, Balance(s.escrow, pk))
      else Reply(true, Ok, Balance(s.escrow, pk) - amount)
  }

  function Consume(s: Store, nonce: string, pk: string, amount: int, now: int): Store {
    var v := Verdict(s, nonce, pk, amount, now);
    if v.ok && nonce in s.nonces then
      s.(nonces := s.nonces[nonce := s.nonces[nonce].(used := true)], escrow := s.escrow[pk := v.balance])
    else s
  }

  function RecordPayment(s: Store, pk: string, amount: int, now: int): Store {
    var rec := if pk in s.reputation then s.reputation[pk] else Reputation(0, 0, now, now);
    s.(reputation := s.reputation[pk := Reputation(rec.paidCount + 1, rec.totalPaid + amount, rec.firstPaidAt, now)])
  }

  function SweepNonces(s: Store, now: int): Store {
    s.(nonces := map n | n in s.nonces && s.nonces[n].expiresAt >= now :: s.nonces[n])
  }

  // ---- concurrent requests --------------------------------------------------------------

  datatype Phase = PreChecked | Debited | Finished | Failed

  /** A signed payment: what the signature covers, and how far the request has come. */
  datatype Request = Request(nonce: string, pk: string, amount: int, phase: Phase)

  datatype Quote = Quote(amount: int, hint: Option<string>, issuedAt: int)

  datatype Event =
    | Credited(pk: string, amount: int)
    | Consumed(nonce: string, pk: string, amount: int, at: int)
    | Recorded(pk: string, amount: int, at: int)

  /** `quotes` and `trace` remember what was issued and what happened. */
  datatype World = World(store: Store, requests: seq<Request>, quotes: map<string, Quote>, trace: seq<Event>, now: int)

  const START := World(Store(map[], map[], map[]), [], map[], [], 0)

  datatype Action =
    | Deposit(pk: string, microLamports: nat)
    | Challenge(nonce: string, amount: int, hint: Option<string>)
    | Submit(nonce: string, pk: string, amount: int, authentic: bool)  // pre-check, then signature
    | Pay(i: nat)                                                      // the atomic consume
    | RecordPaid(i: nat)
    | Sweep

  datatype Step = Step(action: Action, at: int)

  /** Nonces are 128 random bits: a challenge never repeats one. */
  predicate Enabled(w: World, step: Step) {
    && w.now <= step.at
    && match step.action
       case Challenge(nonce, _, _) => nonce !in w.quotes
       case Pay(i) => i < |w.requests| && w.requests[i].phase.PreChecked?
       case RecordPaid(i) => i < |w.requests| && w.requests[i].phase.Debited?
       case _ => true
  }

  function Act(w: World, step: Step): World
    requires Enabled(w, step)
  {
    var t := w.(now := step.at);
    match step.action
    case Deposit(pk, amount) => t.(store := IncrEscrow(w.store, pk, amount), trace := w.trace + [Credited(pk, amount)])
    case Challenge(nonce, amount, hint) =>
      t.(store := SetNonce(w.store, nonce, amount, hint, step.at),
         quotes := w.quotes[nonce := Quote(amount, Bind(hint), step.at)])
    case Submit(nonce, pk, amount, authentic) =>
      var phase := if nonce in w.store.nonces && authentic then PreChecked else Failed;
      t.(requests := w.requests + [Request(nonce, pk, amount, phase)])
    case Pay(i) =>
      var r := w.requests[i];
      var v := Verdict(w.store, r.nonce, r.pk, r.amount, step.at);
      t.(store := Consume(w.store, r.nonce, r.pk, r.amount, step.at),
         requests := w.requests[i := r.(phase := if v.ok then Debited else Failed)],
         trace := if v.ok then w.trace + [Consumed(r.nonce, r.pk, r.amount, step.at)] else w.trace)
    case RecordPaid(i) =>
      var r := w.requests[i];
      t.(store := RecordPayment(w.store, r.pk, r.amount, step.at),
         requests := w.requests[i := r.(phase := Finished)],
         trace := w.trace + [Recorded(r.pk, r.amount, step.at)])
    case Sweep => t.(store := SweepNonces(w.store, step.at))
  }

  /** The world after any steps in any order; a step that is not possible does nothing. */
  function Run(steps: seq<Step>): World {
    if steps == [] then START
    else
      var w := Run(steps[..|steps| - 1]);
      if Enabled(w, steps[|steps| - 1]) then Act(w, steps[|steps| - 1]) else w
  }
}
