/**
 Deposits and payments over one escrow: any interleaving of both protocols.  A deposit that credits is
 the payment ledger's deposit; a payment that debits is seen by the deposit protocol.
 */
module Accounts {
  import opened Options
  import opened Escrow
  import L = LedgerModel
  import D = DepositModel
  import LedgerTheorems
  import DepositSafety

  datatype World = World(ledger: L.World, deposits: D.State)

  const START := World(L.START, D.INIT)

  datatype Step = Pay(payment: L.Step) | Fund(deposit: D.Step)

  function Now(w: World): int { if w.ledger.now > w.deposits.now then w.ledger.now else w.deposits.now }

  /** Money enters by verified deposits alone, and both protocols read one forward clock. */
  predicate Enabled(p: D.Timing, w: World, x: Step) {
    match x
    case Pay(y) => !y.action.Deposit? && Now(w) <= y.at && L.Enabled(w.ledger, y)
    case Fund(y) => Now(w) <= y.at && D.Enabled(p, w.deposits, y)
  }

  /** The ledger's side of crediting handler `i`. */
  function CreditStep(d: D.State, y: D.Step): L.Step
    requires y.action.AddCredit? && y.action.i < |d.handlers| && d.handlers[y.action.i].transfer.Some?
  {
    var tr := d.handlers[y.action.i].transfer.value;
    L.Step(L.Deposit(tr.source, 1000 * tr.lamports), y.at)
  }

  function Act(p: D.Timing, chain: D.Chain, w: World, x: Step): World
    requires Enabled(p, w, x)
  {
    match x
    case Pay(y) =>
      var l := L.Act(w.ledger, y);
      World(l, w.deposits.(escrow := l.store.escrow))
    case Fund(y) =>
      World(if y.action.AddCredit? then L.Act(w.ledger, CreditStep(w.deposits, y)) else w.ledger,
            D.Act(p, chain, w.deposits, y))
  }

  /** The world after any steps in any order; a step that is not possible does nothing. */
  function Run(p: D.Timing, chain: D.Chain, steps: seq<Step>): World {
    if steps == [] then START
    else
      var w, x := Run(p, chain, steps[..|steps| - 1]), steps[|steps| - 1];
      if Enabled(p, w, x) then Act(p, chain, w, x) else w
  }

  // ---- each protocol sees a run of its own ----------------------------------------------

  ghost predicate LedgerRun(l: L.World) { exists steps :: L.Run(steps) == l }

  lemma {:induction false} LedgerRunMore(l: L.World, y: L.Step)
    requires LedgerRun(l) && L.Enabled(l, y)
    ensures LedgerRun(L.Act(l, y))
  {
    var steps :| L.Run(steps) == l;
    assert (steps + [y])[..|steps|] == steps;
    assert L.Run(steps + [y]) == L.Act(l, y);
  }

  /** Whatever the balances, a deposit step moves everything else alike. */
  ghost predicate DepositRun(p: D.Timing, chain: D.Chain, d: D.State) {
    exists steps :: D.Run(p, chain, steps).(escrow := d.escrow) == d
  }

  lemma {:induction false} DepositRunMore(p: D.Timing, chain: D.Chain, d: D.State, y: D.Step)
    requires DepositRun(p, chain, d) && D.Enabled(p, d, y)
    ensures DepositRun(p, chain, D.Act(p, chain, d, y))
  {
    var steps :| D.Run(p, chain, steps).(escrow := d.escrow) == d;
    var s := D.Run(p, chain, steps);
    EscrowAside(p, chain, s, y, d.escrow);
    assert (steps + [y])[..|steps|] == steps;
    assert D.Run(p, chain, steps + [y]) == D.Act(p, chain, s, y);
  }

  lemma {:induction false} EscrowAside(p: D.Timing, chain: D.Chain, s: D.State, y: D.Step, escrow: Balances)
    requires D.Enabled(p, s.(escrow := escrow), y)
    ensures D.Enabled(p, s, y)
    ensures var t := D.Act(p, chain, s.(escrow := escrow), y); D.Act(p, chain, s, y).(escrow := t.escrow) == t
  {}

  lemma {:induction false} RunsApart(p: D.Timing, chain: D.Chain, steps: seq<Step>)
    ensures var w := Run(p, chain, steps);
            LedgerRun(w.ledger) && DepositRun(p, chain, w.deposits)
            && w.ledger.store.escrow == w.deposits.escrow
  {
    if steps == [] {
      assert L.Run([]) == L.START;
      assert D.Run(p, chain, []).(escrow := D.INIT.escrow) == D.INIT;
    } else {
      var pre, x := steps[..|steps| - 1], steps[|steps| - 1];
      RunsApart(p, chain, pre);
      if Enabled(p, Run(p, chain, pre), x) {
        StepApart(p, chain, Run(p, chain, pre), x);
      }
    }
  }

  lemma {:induction false} StepApart(p: D.Timing, chain: D.Chain, w: World, x: Step)
    requires LedgerRun(w.ledger) && DepositRun(p, chain, w.deposits) && w.ledger.store.escrow == w.deposits.escrow
    requires Enabled(p, w, x)
    ensures var t := Act(p, chain, w, x);
            LedgerRun(t.ledger) && DepositRun(p, chain, t.deposits) && t.ledger.store.escrow == t.deposits.escrow
  {
    match x
    case Pay(y) =>
      LedgerRunMore(w.ledger, y);
      var steps :| D.Run(p, chain, steps).(escrow := w.deposits.escrow) == w.deposits;
      var t := w.deposits.(escrow := L.Act(w.ledger, y).store.escrow);
      assert D.Run(p, chain, steps).(escrow := t.escrow) == t;
    case Fund(y) =>
      DepositRunMore(p, chain, w.deposits, y);
      if y.action.AddCredit? { LedgerRunMore(w.ledger, CreditStep(w.deposits, y)); }
  }

  // ---- one balance sheet ----------------------------------------------------------------

  lemma {:induction false} CreditsAreDeposits(p: D.Timing, chain: D.Chain, steps: seq<Step>, pk: string)
    ensures var w := Run(p, chain, steps);
            LedgerTheorems.CreditedTo(w.ledger.trace, pk) == DepositSafety.Worth(w.deposits.credits, pk)
  {
    if steps != [] {
      var pre, x := steps[..|steps| - 1], steps[|steps| - 1];
      CreditsAreDeposits(p, chain, pre, pk);
      if Enabled(p, Run(p, chain, pre), x) {
        var w := Run(p, chain, pre);
        match x
        case Pay(y) => PayCreditsNothing(w.ledger, y, pk);
        case Fund(y) =>
          FundCredits(p, chain, w.deposits, y, pk);
          if y.action.AddCredit? { FundDeposits(w.ledger, w.deposits, y, pk); }
      }
    }
  }

  lemma {:induction false} FundCredits(p: D.Timing, chain: D.Chain, d: D.State, y: D.Step, pk: string)
    requires D.Enabled(p, d, y)
    ensures var t := D.Act(p, chain, d, y);
            DepositSafety.Worth(t.credits, pk) == DepositSafety.Worth(d.credits, pk)
              + (if y.action.AddCredit? && d.handlers[y.action.i].transfer.value.source == pk
                 then 1000 * d.handlers[y.action.i].transfer.value.lamports else 0)
  {
    if y.action.AddCredit? {
      var h := d.handlers[y.action.i];
      assert (d.credits + [D.Credit(h.sig, h.transfer.value, y.action.i)])[..|d.credits|] == d.credits;
    }
  }

  lemma {:induction false} FundDeposits(l: L.World, d: D.State, y: D.Step, pk: string)
    requires y.action.AddCredit? && y.action.i < |d.handlers| && d.handlers[y.action.i].transfer.Some?
    requires L.Enabled(l, CreditStep(d, y))
    ensures var tr := d.handlers[y.action.i].transfer.value;
            LedgerTheorems.CreditedTo(L.Act(l, CreditStep(d, y)).trace, pk)
            == LedgerTheorems.CreditedTo(l.trace, pk) + (if tr.source == pk then 1000 * tr.lamports else 0)
  {
    var tr := d.handlers[y.action.i].transfer.value;
    LedgerTheorems.CreditedToSnoc(l.trace, L.Credited(tr.source, 1000 * tr.lamports), pk);
  }

  lemma {:induction false} PayCreditsNothing(l: L.World, y: L.Step, pk: string)
    requires L.Enabled(l, y) && !y.action.Deposit?
    ensures LedgerTheorems.CreditedTo(L.Act(l, y).trace, pk) == LedgerTheorems.CreditedTo(l.trace, pk)
  {
    match y.action
    case Pay(i) =>
      var r := l.requests[i];
      LedgerTheorems.CreditedToSnoc(l.trace, L.Consumed(r.nonce, r.pk, r.amount, y.at), pk);
    case RecordPaid(i) =>
      LedgerTheorems.CreditedToSnoc(l.trace, L.Recorded(l.requests[i].pk, l.requests[i].amount, y.at), pk);
    case _ =>
  }

  /**
   The whole money trail, over every interleaving of deposits and payments.  Per account, what is held,
   what was paid and what is in transit add up to 1000 x lamports over the credits; every credit is what
   the chain has for its signature, its signature is in the used set, and no balance is negative.  When
   the deposit timing is safe, no signature is credited twice.
   */
  lemma {:induction false} MoneyTrail(p: D.Timing, chain: D.Chain, steps: seq<Step>, pk: string)
    ensures var w := Run(p, chain, steps);
            var s := w.ledger.store;
            && w.deposits.escrow == s.escrow && Balance(s.escrow, pk) >= 0
            && Balance(s.escrow, pk) + L.TotalPaid(s.reputation, pk) + LedgerTheorems.InTransit(w.ledger.requests, pk)
               == DepositSafety.Worth(w.deposits.credits, pk)
            && (forall c <- w.deposits.credits :: chain(c.sig) == Some(c.transfer) && c.sig in w.deposits.used)
            && (DepositSafety.Safe(p) ==> D.CreditedOnce(w.deposits))
  {
    var w := Run(p, chain, steps);
    RunsApart(p, chain, steps);
    CreditsAreDeposits(p, chain, steps, pk);
    LedgerSide(w.ledger, pk);
    DepositSide(p, chain, w.deposits);
  }

  lemma {:induction false} LedgerSide(l: L.World, pk: string)
    requires LedgerRun(l)
    ensures LedgerTheorems.Conserved(l, pk) && Balance(l.store.escrow, pk) >= 0
  {
    var steps :| L.Run(steps) == l;
    LedgerTheorems.Conservation(steps, pk);
    LedgerTheorems.BalancesNeverNegative(steps, pk);
  }

  lemma {:induction false} DepositSide(p: D.Timing, chain: D.Chain, d: D.State)
    requires DepositRun(p, chain, d)
    ensures forall c <- d.credits :: chain(c.sig) == Some(c.transfer) && c.sig in d.used
    ensures DepositSafety.Safe(p) ==> D.CreditedOnce(d)
  {
    var steps :| D.Run(p, chain, steps).(escrow := d.escrow) == d;
    DepositSafety.CreditsMatchChain(p, chain, steps, "");
    DepositSafety.CreditedImpliesUsed(p, chain, steps);
    if DepositSafety.Safe(p) { DepositSafety.SafeRuns(p, chain, steps); }
  }
}
