/** The settlement asset: balances per address, and a transfer the host aborts when it cannot be made. */
module Token {
  import opened Wrappers
  import opened Types
  import opened Sums

  type Balances = map<Address, int>

  function Balance(b: Balances, who: Address): int {
    if who in b then b[who] else 0
  }

  function Amount(x: int): int {
    x
  }

  ghost function Supply(b: Balances): int {
    SumBy(b, Amount)
  }

  /** A transfer debits before it credits, so a self-transfer leaves the balance alone. It traps on a
      negative amount, on an insufficient balance and on a credit past the `i128` range. */
  function Transfer(b: Balances, from: Address, to: Address, amount: int): Result<Balances, Error> {
    if amount < 0 || Balance(b, from) < amount then Err(HostTrap)
    else
      var debited := b[from := Balance(b, from) - amount];
      if Balance(debited, to) + amount > I128_MAX then Err(HostTrap)
      else Ok(debited[to := Balance(debited, to) + amount])
  }

  ghost predicate BalancesOk(b: Balances) {
    (forall a | a in b :: b[a] >= 0) && Supply(b) <= I128_MAX
  }

  /** Supply is conserved, nobody but the two parties changes, and the two legs cancel. */
  lemma TransferMoves(b: Balances, from: Address, to: Address, amount: int)
    requires BalancesOk(b) && Transfer(b, from, to, amount).Ok?
    ensures var t := Transfer(b, from, to, amount).value;
            && BalancesOk(t) && Supply(t) == Supply(b)
            && Balance(t, from) == Balance(b, from) - (if from == to then 0 else amount)
            && Balance(t, to) == Balance(b, to) + (if from == to then 0 else amount)
            && forall a | a != from && a != to :: Balance(t, a) == Balance(b, a)
  {
    var debited := b[from := Balance(b, from) - amount];
    SumUpdate(b, Amount, from, Balance(b, from) - amount);
    SumUpdate(debited, Amount, to, Balance(debited, to) + amount);
  }

  /** With a bounded supply the credit side never overflows: a transfer succeeds exactly when
      the amount is non-negative and covered. */
  lemma TransferSucceeds(b: Balances, from: Address, to: Address, amount: int)
    requires BalancesOk(b)
    ensures Transfer(b, from, to, amount).Ok? <==> 0 <= amount <= Balance(b, from)
  {
    if 0 <= amount <= Balance(b, from) {
      var debited := b[from := Balance(b, from) - amount];
      var paid := debited[to := Balance(debited, to) + amount];
      SumUpdate(b, Amount, from, Balance(b, from) - amount);
      SumUpdate(debited, Amount, to, Balance(debited, to) + amount);
      SumBounds(paid, Amount, to);
    }
  }
}
