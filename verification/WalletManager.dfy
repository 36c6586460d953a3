/** The wallet manager as it runs: dictionaries of wallets and transaction lists, changed in place by every operation.
    The wallets are those cached in memory. */
module WalletManager {
  import opened Prelude
  import opened WalletLedger

  class Manager {
    var wallets: map<AgentId, Wallet>
    var transactions: map<AgentId, seq<Tx>>

    ghost function View(): Book reads this { Book(wallets, transactions) }

    constructor ()
      ensures View() == EmptyBook && BookOk(View())
    {
      wallets, transactions := map[], map[];
    }

    method GetBalance(a: AgentId, c: Currency) returns (r: int)
      ensures r == if a in wallets then Get(wallets[a].balances, c) else 0
    {
      r := if a in wallets then Get(wallets[a].balances, c) else 0;
    }

    method Create(a: AgentId)
      modifies this
      ensures View() == CreateWallet(old(View()), a)
    {
      if a !in wallets {
        wallets := wallets[a := NewWallet];
        transactions := transactions[a := []];
      }
    }

    method Append(a: AgentId, t: Tx)
      modifies this`transactions
      ensures View() == Log(old(View()), a, t)
    {
      transactions := transactions[a := (if a in transactions then transactions[a] else []) + [t]];
    }

    /** `wallet.balances[c] += amount`, where the entry is there or entered as 0 before. */
    method AddToBalance(a: AgentId, c: Currency, amount: int)
      requires a in wallets
      modifies this`wallets
      ensures View() == Credit(old(View()), a, c, amount)
    {
      var w := wallets[a];
      if c !in w.balances { w := w.(balances := w.balances[c := 0]); }
      w := w.(balances := w.balances[c := w.balances[c] + amount]);
      wallets := wallets[a := w];
      assert w.balances == old(wallets)[a].balances[c := Get(old(wallets)[a].balances, c) + amount];
    }

    method AddToStake(a: AgentId, c: Currency, amount: int)
      requires a in wallets
      modifies this`wallets
      ensures View() == CreditStake(old(View()), a, c, amount)
    {
      var w := wallets[a];
      if c !in w.staked { w := w.(staked := w.staked[c := 0]); }
      w := w.(staked := w.staked[c := w.staked[c] + amount]);
      wallets := wallets[a := w];
      assert w.staked == old(wallets)[a].staked[c := Get(old(wallets)[a].staked, c) + amount];
    }

    method DepositTo(a: AgentId, amount: int, c: Currency)
      modifies this
      ensures View() == Apply(old(View()), Deposit(a, amount, c)).0
      ensures BookOk(old(View())) ==> BookOk(View())
    {
      if BookOk(View()) { ApplyKeepsBook(View(), Deposit(a, amount, c)); }
      Create(a);
      AddToBalance(a, c, amount);
      Append(a, Tx(Deposited, amount, c));
    }

    /** `withdraw` and `spend`: they differ in the kind of the transaction. */
    method Take(a: AgentId, t: Tx) returns (v: Verdict)
      modifies this
      ensures (View(), v) == TakeOut(old(View()), a, t)
    {
      if a !in wallets {
        return Refused;
      }
      if Get(wallets[a].balances, t.currency) < t.amount {
        return Refused;
      }
      if t.currency !in wallets[a].balances {
        return MissingCurrency;
      }
      AddToBalance(a, t.currency, -t.amount);
      Append(a, t);
      v := Done;
    }

    method WithdrawFrom(a: AgentId, amount: int, c: Currency) returns (v: Verdict)
      modifies this
      ensures (View(), v) == Apply(old(View()), Withdraw(a, amount, c))
      ensures BookOk(old(View())) ==> BookOk(View())
    {
      if BookOk(View()) { ApplyKeepsBook(View(), Withdraw(a, amount, c)); }
      v := Take(a, Tx(Withdrawn, amount, c));
    }

    method SpendFrom(a: AgentId, amount: int, c: Currency) returns (v: Verdict)
      modifies this
      ensures (View(), v) == Apply(old(View()), Spend(a, amount, c))
      ensures BookOk(old(View())) ==> BookOk(View())
    {
      if BookOk(View()) { ApplyKeepsBook(View(), Spend(a, amount, c)); }
      v := Take(a, Tx(Fee, amount, c));
    }

    method MakePayment(a: AgentId, to: AgentId, amount: int, c: Currency) returns (v: Verdict)
      modifies this
      ensures (View(), v) == PayOut(old(View()), a, to, amount, c)
    {
      if a !in wallets {
        return Refused;
      }
      Create(to);
      if Get(wallets[a].balances, c) < amount {
        return Refused;
      }
      if c !in wallets[a].balances {
        return MissingCurrency;
      }
      Transfer(a, to, amount, c);
      v := Done;
    }

    method Transfer(a: AgentId, to: AgentId, amount: int, c: Currency)
      requires a in wallets && to in wallets
      modifies this
      ensures View() == Log(Log(Credit(Credit(old(View()), a, c, -amount), to, c, amount), a, Tx(Paid, amount, c)),
                            to, Tx(Received, amount, c))
    {
      AddToBalance(a, c, -amount);
      AddToBalance(to, c, amount);
      Append(a, Tx(Paid, amount, c));
      Append(to, Tx(Received, amount, c));
    }

    method StakeTokens(a: AgentId, amount: int, c: Currency) returns (v: Verdict)
      modifies this
      ensures (View(), v) == StakeFrom(old(View()), a, amount, c)
    {
      if a !in wallets {
        return Refused;
      }
      if Get(wallets[a].balances, c) < amount {
        return Refused;
      }
      if c !in wallets[a].balances {
        return MissingCurrency;
      }
      AddToBalance(a, c, -amount);
      AddToStake(a, c, amount);
      Append(a, Tx(Staked, amount, c));
      v := Done;
    }

    method UnstakeTokens(a: AgentId, amount: int, c: Currency) returns (v: Verdict)
      modifies this
      ensures (View(), v) == UnstakeFrom(old(View()), a, amount, c)
    {
      if a !in wallets {
        return Refused;
      }
      if Get(wallets[a].staked, c) < amount {
        return Refused;
      }
      if c !in wallets[a].staked {
        return MissingCurrency;
      }
      AddToStake(a, c, -amount);
      if c !in wallets[a].balances {
        return MissingCurrency;
      }
      AddToBalance(a, c, amount);
      Append(a, Tx(Unstaked, amount, c));
      v := Done;
    }
  }
}
