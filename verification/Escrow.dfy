/** Prepaid balances, in micro-lamports; an account never credited stands at zero. */
module Escrow {

  type Balances = map<string, int>

  function Balance(escrow: Balances, pk: string): int { if pk in escrow then escrow[pk] else 0 }

  function Add(escrow: Balances, pk: string, delta: int): Balances { escrow[pk := Balance(escrow, pk) + delta] }
}
