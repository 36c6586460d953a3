/** Agent wallets: balances and stakes per currency, and the transaction lists that must account for them.
    Amounts are exact integers of the smallest unit, of either sign, as the source does not check them. */
module WalletLedger {
  import opened Prelude

  type AgentId = string
  type Currency = string

  datatype TxKind = Deposited | Withdrawn | Paid | Received | Staked | Unstaked | Fee

  datatype Tx = Tx(kind: TxKind, amount: int, currency: Currency)

  datatype Wallet = Wallet(balances: map<Currency, int>, staked: map<Currency, int>)

  datatype Book = Book(wallets: map<AgentId, Wallet>, transactions: map<AgentId, seq<Tx>>)

  /** `MissingCurrency` is the source's KeyError. */
  datatype Verdict = Done | Refused | MissingCurrency

  datatype Op =
    | Create(agent: AgentId)
    | Deposit(agent: AgentId, amount: int, currency: Currency)
    | Withdraw(agent: AgentId, amount: int, currency: Currency)
    | Spend(agent: AgentId, amount: int, currency: Currency)
    | Pay(agent: AgentId, to: AgentId, amount: int, currency: Currency)
    | Stake(agent: AgentId, amount: int, currency: Currency)
    | Unstake(agent: AgentId, amount: int, currency: Currency)

  const EmptyBook := Book(map[], map[])

  function Get(m: map<Currency, int>, c: Currency): int { if c in m then m[c] else 0 }

  const NewWallet := Wallet(map["RGT" := 0, "MATIC" := 0], map["RGT" := 0])

  function CreateWallet(b: Book, a: AgentId): (r: Book)
    ensures a in r.wallets && forall x | x in b.wallets :: x in r.wallets && r.wallets[x] == b.wallets[x]
  {
    if a in b.wallets then b else Book(b.wallets[a := NewWallet], b.transactions[a := []])
  }

  /** Changes one balance of one agent, entering the currency if need be. */
  function Credit(b: Book, a: AgentId, c: Currency, amount: int): Book
    requires a in b.wallets
  {
    var w := b.wallets[a];
    b.(wallets := b.wallets[a := w.(balances := w.balances[c := Get(w.balances, c) + amount])])
  }

  function CreditStake(b: Book, a: AgentId, c: Currency, amount: int): Book
    requires a in b.wallets
  {
    var w := b.wallets[a];
    b.(wallets := b.wallets[a := w.(staked := w.staked[c := Get(w.staked, c) + amount])])
  }

  function Log(b: Book, a: AgentId, t: Tx): Book {
    b.(transactions := b.transactions[a := (if a in b.transactions then b.transactions[a] else []) + [t]])
  }

  /** Why money cannot be taken from the agent's balance, if it cannot. */
  function Debit(b: Book, a: AgentId, amount: int, c: Currency): Verdict {
    if a !in b.wallets || Get(b.wallets[a].balances, c) < amount then Refused
    else if c !in b.wallets[a].balances then MissingCurrency
    else Done
  }

  function TakeOut(b: Book, a: AgentId, t: Tx): (Book, Verdict) {
    var v := Debit(b, a, t.amount, t.currency);
    if v == Done then (Log(Credit(b, a, t.currency, -t.amount), a, t), v) else (b, v)
  }

  function StakeFrom(b: Book, a: AgentId, amount: int, c: Currency): (Book, Verdict) {
    var v := Debit(b, a, amount, c);
    if v == Done then (Log(CreditStake(Credit(b, a, c, -amount), a, c, amount), a, Tx(Staked, amount, c)), v) else (b, v)
  }

  function PayOut(b: Book, a: AgentId, to: AgentId, amount: int, c: Currency): (Book, Verdict) {
    if a !in b.wallets then (b, Refused)
    else
      var n := CreateWallet(b, to);
      match Debit(n, a, amount, c)
      case Done =>
        var paid := Credit(Credit(n, a, c, -amount), to, c, amount);
        (Log(Log(paid, a, Tx(Paid, amount, c)), to, Tx(Received, amount, c)), Done)
      case v => (n, v)
  }

  function UnstakeFrom(b: Book, a: AgentId, amount: int, c: Currency): (Book, Verdict) {
    if a !in b.wallets || Get(b.wallets[a].staked, c) < amount then (b, Refused)
    else if c !in b.wallets[a].staked then (b, MissingCurrency)
    else
      var n := CreditStake(b, a, c, -amount);
      if c !in n.wallets[a].balances then (n, MissingCurrency)
      else (Log(Credit(n, a, c, amount), a, Tx(Unstaked, amount, c)), Done)
  }

  function Apply(b: Book, op: Op): (Book, Verdict) {
    match op
    case Create(a) => (CreateWallet(b, a), Done)
    case Deposit(a, amount, c) => (Log(Credit(CreateWallet(b, a), a, c, amount), a, Tx(Deposited, amount, c)), Done)
    case Withdraw(a, amount, c) => TakeOut(b, a, Tx(Withdrawn, amount, c))
    case Spend(a, amount, c) => TakeOut(b, a, Tx(Fee, amount, c))
    case Pay(a, to, amount, c) => PayOut(b, a, to, amount, c)
    case Stake(a, amount, c) => StakeFrom(b, a, amount, c)
    case Unstake(a, amount, c) => UnstakeFrom(b, a, amount, c)
  }

  function RunOps(b: Book, ops: seq<Op>): Book
    decreases ops
  {
    if ops == [] then b else RunOps(Apply(b, ops[0]).0, ops[1..])
  }

  // ---------- Replaying the transaction list ----------

  function BalanceChange(t: Tx, c: Currency): int {
    if t.currency != c then 0
    else match t.kind
      case Deposited | Received | Unstaked => t.amount
      case Withdrawn | Paid | Staked | Fee => -t.amount
  }

  function StakeChange(t: Tx, c: Currency): int {
    if t.currency != c then 0 else match t.kind case Staked => t.amount case Unstaked => -t.amount case _ => 0
  }

  ghost function ReplayBalance(txs: seq<Tx>, c: Currency): int {
    if txs == [] then 0 else ReplayBalance(txs[..|txs| - 1], c) + BalanceChange(txs[|txs| - 1], c)
  }

  ghost function ReplayStake(txs: seq<Tx>, c: Currency): int {
    if txs == [] then 0 else ReplayStake(txs[..|txs| - 1], c) + StakeChange(txs[|txs| - 1], c)
  }

  /** The agent's wallet and its list, as far as one currency goes. */
  ghost predicate Accounted(w: Wallet, txs: seq<Tx>, c: Currency) {
    Get(w.balances, c) == ReplayBalance(txs, c) && Get(w.staked, c) == ReplayStake(txs, c)
  }

  ghost predicate WalletOk(w: Wallet, txs: seq<Tx>) {
    w.staked.Keys <= w.balances.Keys && forall c :: Accounted(w, txs, c)
  }

  /** Every wallet has its list, which accounts for all of it; and nothing is staked in a currency without a balance. */
  ghost predicate BookOk(b: Book) {
    b.wallets.Keys == b.transactions.Keys && forall a | a in b.wallets :: WalletOk(b.wallets[a], b.transactions[a])
  }

  lemma ReplaySnoc(txs: seq<Tx>, t: Tx, c: Currency)
    ensures ReplayBalance(txs + [t], c) == ReplayBalance(txs, c) + BalanceChange(t, c)
    ensures ReplayStake(txs + [t], c) == ReplayStake(txs, c) + StakeChange(t, c)
  {
    assert (txs + [t])[..|txs|] == txs;
  }

  /** A wallet stays accounted for when it changes in one currency as its new transaction says. */
  lemma EntryAccounts(w: Wallet, n: Wallet, txs: seq<Tx>, t: Tx)
    requires WalletOk(w, txs) && n.staked.Keys <= n.balances.Keys
    requires forall c :: Get(n.balances, c) == Get(w.balances, c) + BalanceChange(t, c)
    requires forall c :: Get(n.staked, c) == Get(w.staked, c) + StakeChange(t, c)
    ensures WalletOk(n, txs + [t])
  {
    forall c ensures Accounted(n, txs + [t], c) {
      ReplaySnoc(txs, t, c);
      assert Accounted(w, txs, c);
    }
  }

  lemma CreateKeepsBook(b: Book, a: AgentId)
    requires BookOk(b)
    ensures BookOk(CreateWallet(b, a))
  {
    forall c ensures Accounted(NewWallet, [], c) { }
  }

  /** The book after one entry for agent `a`: its wallet changed to `n`, and `t` logged. */
  lemma EntryKeepsBook(b: Book, a: AgentId, n: Wallet, t: Tx)
    requires BookOk(b) && a in b.wallets && n.staked.Keys <= n.balances.Keys
    requires forall c :: Get(n.balances, c) == Get(b.wallets[a].balances, c) + BalanceChange(t, c)
    requires forall c :: Get(n.staked, c) == Get(b.wallets[a].staked, c) + StakeChange(t, c)
    ensures a in b.transactions && BookOk(Book(b.wallets[a := n], b.transactions[a := b.transactions[a] + [t]]))
  {
    assert a in b.transactions.Keys;
    EntryAccounts(b.wallets[a], n, b.transactions[a], t);
  }

  lemma PayKeepsBook(b: Book, a: AgentId, to: AgentId, amount: int, c: Currency)
    requires BookOk(b) && a in b.wallets && to in b.wallets && Debit(b, a, amount, c) == Done
    ensures var paid := Credit(Credit(b, a, c, -amount), to, c, amount);
            BookOk(Log(Log(paid, a, Tx(Paid, amount, c)), to, Tx(Received, amount, c)))
  {
    assert a in b.transactions.Keys && to in b.transactions.Keys;
    var out := Log(Credit(b, a, c, -amount), a, Tx(Paid, amount, c));
    EntryKeepsBook(b, a, Credit(b, a, c, -amount).wallets[a], Tx(Paid, amount, c));
    assert BookOk(out);
    EntryKeepsBook(out, to, Credit(out, to, c, amount).wallets[to], Tx(Received, amount, c));
    var paid := Credit(Credit(b, a, c, -amount), to, c, amount);
    assert Log(Log(paid, a, Tx(Paid, amount, c)), to, Tx(Received, amount, c)) == Log(Credit(out, to, c, amount), to, Tx(Received, amount, c));
  }

  lemma UnstakeKeepsBook(b: Book, a: AgentId, amount: int, c: Currency)
    requires BookOk(b)
    ensures BookOk(UnstakeFrom(b, a, amount, c).0)
  {
    if a in b.wallets && Get(b.wallets[a].staked, c) >= amount && c in b.wallets[a].staked {
      assert WalletOk(b.wallets[a], b.transactions[a]) by { assert a in b.transactions.Keys; }
      assert c in b.wallets[a].balances.Keys;
      var n := Credit(CreditStake(b, a, c, -amount), a, c, amount).wallets[a];
      EntryKeepsBook(b, a, n, Tx(Unstaked, amount, c));
    }
  }

  lemma TakeOutKeepsBook(b: Book, a: AgentId, t: Tx)
    requires BookOk(b) && t.kind in {Withdrawn, Fee}
    ensures BookOk(TakeOut(b, a, t).0)
  {
    if Debit(b, a, t.amount, t.currency) == Done {
      EntryKeepsBook(b, a, Credit(b, a, t.currency, -t.amount).wallets[a], t);
      assert a in b.transactions.Keys;
    }
  }

  lemma StakeKeepsBook(b: Book, a: AgentId, amount: int, c: Currency)
    requires BookOk(b)
    ensures BookOk(StakeFrom(b, a, amount, c).0)
  {
    if Debit(b, a, amount, c) == Done {
      EntryKeepsBook(b, a, CreditStake(Credit(b, a, c, -amount), a, c, amount).wallets[a], Tx(Staked, amount, c));
      assert a in b.transactions.Keys;
    }
  }

  lemma DepositKeepsBook(b: Book, a: AgentId, amount: int, c: Currency)
    requires BookOk(b) && a in b.wallets
    ensures BookOk(Log(Credit(b, a, c, amount), a, Tx(Deposited, amount, c)))
  {
    EntryKeepsBook(b, a, Credit(b, a, c, amount).wallets[a], Tx(Deposited, amount, c));
    assert a in b.transactions.Keys;
  }

  lemma PayOutKeepsBook(b: Book, a: AgentId, to: AgentId, amount: int, c: Currency)
    requires BookOk(b)
    ensures BookOk(PayOut(b, a, to, amount, c).0)
  {
    CreateKeepsBook(b, to);
    var n := CreateWallet(b, to);
    if a in b.wallets && Debit(n, a, amount, c) == Done { PayKeepsBook(n, a, to, amount, c); }
  }

  /** Every operation keeps the books balanced, whatever the amount. */
  lemma ApplyKeepsBook(b: Book, op: Op)
    requires BookOk(b)
    ensures BookOk(Apply(b, op).0)
  {
    match op
    case Create(a) => CreateKeepsBook(b, a);
    case Deposit(a, amount, c) => CreateKeepsBook(b, a); DepositKeepsBook(CreateWallet(b, a), a, amount, c);
    case Withdraw(a, amount, c) => TakeOutKeepsBook(b, a, Tx(Withdrawn, amount, c));
    case Spend(a, amount, c) => TakeOutKeepsBook(b, a, Tx(Fee, amount, c));
    case Pay(a, to, amount, c) => PayOutKeepsBook(b, a, to, amount, c);
    case Stake(a, amount, c) => StakeKeepsBook(b, a, amount, c);
    case Unstake(a, amount, c) => UnstakeKeepsBook(b, a, amount, c);
  }

  /** After any run from an empty manager, every balance and stake is the replay of the agent's transactions. */
  lemma {:induction false} LedgerReplays(b: Book, ops: seq<Op>, a: AgentId, c: Currency)
    requires BookOk(b) && a in RunOps(b, ops).wallets
    ensures var n := RunOps(b, ops);
            && a in n.transactions
            && Get(n.wallets[a].balances, c) == ReplayBalance(n.transactions[a], c)
            && Get(n.wallets[a].staked, c) == ReplayStake(n.transactions[a], c)
    decreases ops
  {
    if ops == [] {
      assert a in b.transactions.Keys;
      assert Accounted(b.wallets[a], b.transactions[a], c);
    } else {
      ApplyKeepsBook(b, ops[0]);
      LedgerReplays(Apply(b, ops[0]).0, ops[1..], a, c);
    }
  }

  // ---------- No missing entries, nothing negative ----------

  /** In a sound book an operation reads a missing currency entry only for an amount that is not positive. */
  lemma MissingOnlyForIdleAmounts(b: Book, op: Op)
    requires BookOk(b)
    ensures Apply(b, op).1 == MissingCurrency <==>
              match op
              case Create(_) => false
              case Deposit(_, _, _) => false
              case Unstake(a, amount, c) => a in b.wallets && c !in b.wallets[a].staked && amount <= 0
              case Pay(a, to, amount, c) => a in b.wallets && c !in b.wallets[a].balances && amount <= 0
              case _ => op.agent in b.wallets && op.currency !in b.wallets[op.agent].balances && op.amount <= 0
  {
    match op
    case Unstake(a, amount, c) =>
      if a in b.wallets {
        assert a in b.transactions.Keys;
        assert WalletOk(b.wallets[a], b.transactions[a]);
        assert c in b.wallets[a].staked.Keys ==> c in b.wallets[a].balances.Keys;
      }
    case _ =>
  }

  predicate Positive(op: Op) {
    op.Create? || op.amount > 0
  }

  ghost predicate NothingNegative(b: Book) {
    forall a, c | a in b.wallets :: Get(b.wallets[a].balances, c) >= 0 && Get(b.wallets[a].staked, c) >= 0
  }

  lemma CreateKeepsNonNegative(b: Book, a: AgentId)
    requires NothingNegative(b)
    ensures NothingNegative(CreateWallet(b, a))
  {
  }

  /** Changing one balance, or one stake, keeps everything non-negative exactly when that one stays so. */
  lemma CreditKeepsNonNegativeIff(b: Book, a: AgentId, c: Currency, amount: int)
    requires NothingNegative(b) && a in b.wallets
    ensures NothingNegative(Credit(b, a, c, amount)) <==> Get(b.wallets[a].balances, c) + amount >= 0
    ensures NothingNegative(CreditStake(b, a, c, amount)) <==> Get(b.wallets[a].staked, c) + amount >= 0
  {
    assert Get(Credit(b, a, c, amount).wallets[a].balances, c) == Get(b.wallets[a].balances, c) + amount;
    assert Get(CreditStake(b, a, c, amount).wallets[a].staked, c) == Get(b.wallets[a].staked, c) + amount;
  }

  /** What an agent has, or would have with a new wallet. */
  function BalanceOf(b: Book, a: AgentId, c: Currency): int {
    if a in b.wallets then Get(b.wallets[a].balances, c) else 0
  }

  function StakeOf(b: Book, a: AgentId, c: Currency): int {
    if a in b.wallets then Get(b.wallets[a].staked, c) else 0
  }

  /** The one sum an operation does not check is not negative: what a deposit, a payee, a stake or an unstaking balance
      is changed by. Only a negative amount can make it so. */
  predicate Covered(b: Book, op: Op) {
    match op
    case Deposit(a, amount, c) => BalanceOf(b, a, c) + amount >= 0
    case Pay(a, to, amount, c) => Debit(b, a, amount, c) == Done && to != a ==> BalanceOf(b, to, c) + amount >= 0
    case Stake(a, amount, c) => Debit(b, a, amount, c) == Done ==> StakeOf(b, a, c) + amount >= 0
    case Unstake(a, amount, c) =>
      a in b.wallets && c in b.wallets[a].staked && c in b.wallets[a].balances && StakeOf(b, a, c) >= amount ==>
        BalanceOf(b, a, c) + amount >= 0
    case _ => true
  }

  lemma NewWalletHolds(b: Book, a: AgentId, x: AgentId, c: Currency)
    ensures BalanceOf(CreateWallet(b, a), x, c) == BalanceOf(b, x, c)
    ensures x in b.wallets ==> CreateWallet(b, a).wallets[x] == b.wallets[x]
  {
  }

  lemma DepositKeepsNonNegativeIff(b: Book, a: AgentId, amount: int, c: Currency)
    requires NothingNegative(b)
    ensures NothingNegative(Apply(b, Deposit(a, amount, c)).0) <==> BalanceOf(b, a, c) + amount >= 0
  {
    CreateKeepsNonNegative(b, a);
    NewWalletHolds(b, a, a, c);
    CreditKeepsNonNegativeIff(CreateWallet(b, a), a, c, amount);
  }

  lemma TakeOutKeepsNonNegative(b: Book, a: AgentId, t: Tx)
    requires NothingNegative(b)
    ensures NothingNegative(TakeOut(b, a, t).0)
  {
    if a in b.wallets { CreditKeepsNonNegativeIff(b, a, t.currency, -t.amount); }
  }

  lemma MoveKeepsNonNegativeIff(n: Book, a: AgentId, to: AgentId, amount: int, c: Currency)
    requires NothingNegative(n) && a in n.wallets && to in n.wallets && BalanceOf(n, a, c) >= amount
    ensures NothingNegative(Credit(Credit(n, a, c, -amount), to, c, amount))
            <==> to == a || BalanceOf(n, to, c) + amount >= 0
  {
    CreditKeepsNonNegativeIff(n, a, c, -amount);
    CreditKeepsNonNegativeIff(Credit(n, a, c, -amount), to, c, amount);
  }

  lemma PayKeepsNonNegativeIff(b: Book, a: AgentId, to: AgentId, amount: int, c: Currency)
    requires NothingNegative(b)
    ensures NothingNegative(PayOut(b, a, to, amount, c).0) <==> Covered(b, Pay(a, to, amount, c))
  {
    CreateKeepsNonNegative(b, to);
    var n := CreateWallet(b, to);
    NewWalletHolds(b, to, a, c);
    NewWalletHolds(b, to, to, c);
    if Debit(b, a, amount, c) == Done { MoveKeepsNonNegativeIff(n, a, to, amount, c); }
  }

  lemma StakeKeepsNonNegativeIff(b: Book, a: AgentId, amount: int, c: Currency)
    requires NothingNegative(b)
    ensures NothingNegative(StakeFrom(b, a, amount, c).0) <==> Covered(b, Stake(a, amount, c))
  {
    if Debit(b, a, amount, c) == Done {
      CreditKeepsNonNegativeIff(b, a, c, -amount);
      CreditKeepsNonNegativeIff(Credit(b, a, c, -amount), a, c, amount);
    }
  }

  lemma UnstakeKeepsNonNegativeIff(b: Book, a: AgentId, amount: int, c: Currency)
    requires NothingNegative(b)
    ensures NothingNegative(UnstakeFrom(b, a, amount, c).0) <==> Covered(b, Unstake(a, amount, c))
  {
    if a in b.wallets && c in b.wallets[a].staked && StakeOf(b, a, c) >= amount {
      CreditKeepsNonNegativeIff(b, a, c, -amount);
      CreditKeepsNonNegativeIff(CreditStake(b, a, c, -amount), a, c, amount);
    }
  }

  /** Exactly which operations keep every balance and stake from becoming negative: all withdrawals and spends, and the
      others unless a negative amount takes more than there is of what they do not check. */
  lemma ApplyKeepsNonNegativeIff(b: Book, op: Op)
    requires NothingNegative(b)
    ensures NothingNegative(Apply(b, op).0) <==> Covered(b, op)
  {
    match op
    case Create(a) => CreateKeepsNonNegative(b, a);
    case Deposit(a, amount, c) => DepositKeepsNonNegativeIff(b, a, amount, c);
    case Pay(a, to, amount, c) => PayKeepsNonNegativeIff(b, a, to, amount, c);
    case Stake(a, amount, c) => StakeKeepsNonNegativeIff(b, a, amount, c);
    case Unstake(a, amount, c) => UnstakeKeepsNonNegativeIff(b, a, amount, c);
    case Withdraw(a, amount, c) => TakeOutKeepsNonNegative(b, a, Tx(Withdrawn, amount, c));
    case Spend(a, amount, c) => TakeOutKeepsNonNegative(b, a, Tx(Fee, amount, c));
  }

  /** Positive amounts leave no balance and no stake negative. */
  lemma PositiveKeepsNonNegative(b: Book, op: Op)
    requires NothingNegative(b) && Positive(op)
    ensures NothingNegative(Apply(b, op).0)
  {
    ApplyKeepsNonNegativeIff(b, op);
    PositiveIsCovered(b, op);
  }

  lemma PositiveIsCovered(b: Book, op: Op)
    requires NothingNegative(b) && Positive(op)
    ensures Covered(b, op)
  {
  }

  /** No state of the run, from `b` to its end, has anything negative. */
  ghost predicate NeverNegative(b: Book, ops: seq<Op>)
    decreases ops
  {
    NothingNegative(b) && (ops != [] ==> NeverNegative(Apply(b, ops[0]).0, ops[1..]))
  }

  /** Every operation of the run is covered when its turn comes. */
  predicate AllCovered(b: Book, ops: seq<Op>)
    decreases ops
  {
    ops != [] ==> Covered(b, ops[0]) && AllCovered(Apply(b, ops[0]).0, ops[1..])
  }

  /** A run of any amounts never has anything negative exactly when each of its operations is covered at its turn. */
  lemma {:induction false} NeverNegativeIff(b: Book, ops: seq<Op>)
    requires NothingNegative(b)
    ensures NeverNegative(b, ops) <==> AllCovered(b, ops)
    decreases ops
  {
    if ops != [] {
      ApplyKeepsNonNegativeIff(b, ops[0]);
      if Covered(b, ops[0]) { NeverNegativeIff(Apply(b, ops[0]).0, ops[1..]); }
    }
  }

  /** Over a run of positive amounts from an empty manager nothing is ever negative or missing. */
  lemma {:induction false} PositiveRunsAreSafe(b: Book, ops: seq<Op>, i: nat)
    requires BookOk(b) && NothingNegative(b) && (forall op | op in ops :: Positive(op)) && i < |ops|
    ensures NothingNegative(RunOps(b, ops)) && Apply(RunOps(b, ops[..i]), ops[i]).1 != MissingCurrency
    decreases ops
  {
    var n := Apply(b, ops[0]).0;
    ApplyKeepsBook(b, ops[0]);
    PositiveKeepsNonNegative(b, ops[0]);
    MissingOnlyForIdleAmounts(b, ops[0]);
    if i > 0 {
      PositiveRunsAreSafe(n, ops[1..], i - 1);
      assert ops[..i][1..] == ops[1..][..i - 1];
    } else if |ops| > 1 {
      PositiveRunsAreSafe(n, ops[1..], 0);
    }
  }

  // ---------- Conservation ----------

  ghost function Held(w: Wallet, c: Currency): int { Get(w.balances, c) + Get(w.staked, c) }

  /** The sum of all balances and stakes of one currency. */
  ghost function TotalHeld(ws: map<AgentId, Wallet>, c: Currency): int
    decreases |ws.Keys|
  {
    if ws.Keys == {} then 0
    else
      var a :| a in ws.Keys;
      assert (ws - {a}).Keys == ws.Keys - {a};
      Held(ws[a], c) + TotalHeld(ws - {a}, c)
  }

  /** The wallet that the sum takes first. */
  lemma FirstTaken(ws: map<AgentId, Wallet>, c: Currency) returns (x: AgentId)
    requires ws.Keys != {}
    ensures x in ws && TotalHeld(ws, c) == Held(ws[x], c) + TotalHeld(ws - {x}, c)
  {
    x :| x in ws.Keys && TotalHeld(ws, c) == Held(ws[x], c) + TotalHeld(ws - {x}, c);
  }

  lemma TwoTaken(ws: map<AgentId, Wallet>, a: AgentId, x: AgentId)
    requires a in ws && x in ws && a != x
    ensures a in ws - {x} && x in ws - {a} && (ws - {x}) - {a} == (ws - {a}) - {x}
    ensures |(ws - {x}).Keys| < |ws.Keys| && |(ws - {a}).Keys| < |ws.Keys|
    ensures (ws - {x})[a] == ws[a] && (ws - {a})[x] == ws[x]
  {
    assert (ws - {x}).Keys == ws.Keys - {x} && (ws - {a}).Keys == ws.Keys - {a};
  }

  lemma {:induction false} TotalWithout(ws: map<AgentId, Wallet>, a: AgentId, c: Currency)
    requires a in ws
    ensures TotalHeld(ws, c) == Held(ws[a], c) + TotalHeld(ws - {a}, c)
    decreases |ws.Keys|
  {
    assert a in ws.Keys;
    var x := FirstTaken(ws, c);
    if x != a {
      TwoTaken(ws, a, x);
      TotalWithout(ws - {x}, a, c);
      TotalWithout(ws - {a}, x, c);
    }
  }

  lemma TotalUpdated(ws: map<AgentId, Wallet>, a: AgentId, w: Wallet, c: Currency)
    ensures TotalHeld(ws[a := w], c) == TotalHeld(ws, c) - (if a in ws then Held(ws[a], c) else 0) + Held(w, c)
  {
    TotalWithout(ws[a := w], a, c);
    assert ws[a := w] - {a} == ws - {a};
    if a in ws { TotalWithout(ws, a, c); } else { assert ws - {a} == ws; }
  }

  /** What an operation brings in or takes out of the system. */
  function Inflow(op: Op, v: Verdict, c: Currency): int {
    if v != Done || op.Create? || op.currency != c then 0
    else match op
      case Deposit(_, amount, _) => amount
      case Withdraw(_, amount, _) => -amount
      case Spend(_, amount, _) => -amount
      case _ => 0
  }

  ghost function NetInflow(b: Book, ops: seq<Op>, c: Currency): int
    decreases ops
  {
    if ops == [] then 0
    else Inflow(ops[0], Apply(b, ops[0]).1, c) + NetInflow(Apply(b, ops[0]).0, ops[1..], c)
  }

  lemma CreateAddsNothing(b: Book, a: AgentId, c: Currency)
    ensures TotalHeld(CreateWallet(b, a).wallets, c) == TotalHeld(b.wallets, c)
  {
    if a !in b.wallets { TotalUpdated(b.wallets, a, NewWallet, c); }
  }

  lemma CreditAdds(b: Book, a: AgentId, x: Currency, amount: int, c: Currency)
    requires a in b.wallets
    ensures TotalHeld(Credit(b, a, x, amount).wallets, c) == TotalHeld(b.wallets, c) + if x == c then amount else 0
  {
    TotalUpdated(b.wallets, a, Credit(b, a, x, amount).wallets[a], c);
  }

  lemma CreditStakeAdds(b: Book, a: AgentId, x: Currency, amount: int, c: Currency)
    requires a in b.wallets
    ensures TotalHeld(CreditStake(b, a, x, amount).wallets, c) == TotalHeld(b.wallets, c) + if x == c then amount else 0
  {
    TotalUpdated(b.wallets, a, CreditStake(b, a, x, amount).wallets[a], c);
  }

  lemma TakeOutConserves(b: Book, a: AgentId, t: Tx, c: Currency)
    ensures TotalHeld(TakeOut(b, a, t).0.wallets, c)
            == TotalHeld(b.wallets, c) - if TakeOut(b, a, t).1 == Done && t.currency == c then t.amount else 0
  {
    if a in b.wallets { CreditAdds(b, a, t.currency, -t.amount, c); }
  }

  lemma StakeConserves(b: Book, a: AgentId, amount: int, x: Currency, c: Currency)
    ensures TotalHeld(StakeFrom(b, a, amount, x).0.wallets, c) == TotalHeld(b.wallets, c)
  {
    if a in b.wallets {
      CreditAdds(b, a, x, -amount, c);
      CreditStakeAdds(Credit(b, a, x, -amount), a, x, amount, c);
    }
  }

  /** A credit here and the same debit there cancel out. */
  lemma MoveConserves(b: Book, a: AgentId, to: AgentId, amount: int, x: Currency, c: Currency)
    requires a in b.wallets && to in b.wallets
    ensures TotalHeld(Credit(Credit(b, a, x, -amount), to, x, amount).wallets, c) == TotalHeld(b.wallets, c)
  {
    CreditAdds(b, a, x, -amount, c);
    CreditAdds(Credit(b, a, x, -amount), to, x, amount, c);
  }

  lemma PayConserves(b: Book, a: AgentId, to: AgentId, amount: int, x: Currency, c: Currency)
    ensures TotalHeld(PayOut(b, a, to, amount, x).0.wallets, c) == TotalHeld(b.wallets, c)
  {
    CreateAddsNothing(b, to, c);
    if a in b.wallets {
      MoveConserves(CreateWallet(b, to), a, to, amount, x, c);
    }
  }

  /** One operation changes the total by what it brings in: payments, to oneself included, and stakes move it around. */
  lemma ApplyConserves(b: Book, op: Op, c: Currency)
    requires BookOk(b)
    ensures TotalHeld(Apply(b, op).0.wallets, c) == TotalHeld(b.wallets, c) + Inflow(op, Apply(b, op).1, c)
  {
    match op
    case Create(a) => CreateAddsNothing(b, a, c);
    case Deposit(a, amount, x) => CreateAddsNothing(b, a, c); CreditAdds(CreateWallet(b, a), a, x, amount, c);
    case Pay(a, to, amount, x) => PayConserves(b, a, to, amount, x, c);
    case Stake(a, amount, x) => StakeConserves(b, a, amount, x, c);
    case Unstake(a, amount, x) => UnstakeConserves(b, a, amount, x, c);
    case Withdraw(a, amount, x) => TakeOutConserves(b, a, Tx(Withdrawn, amount, x), c);
    case Spend(a, amount, x) => TakeOutConserves(b, a, Tx(Fee, amount, x), c);
  }

  lemma UnstakeConserves(b: Book, a: AgentId, amount: int, x: Currency, c: Currency)
    requires BookOk(b)
    ensures TotalHeld(UnstakeFrom(b, a, amount, x).0.wallets, c) == TotalHeld(b.wallets, c)
  {
    if a in b.wallets {
      assert WalletOk(b.wallets[a], b.transactions[a]) by { assert a in b.transactions.Keys; }
      assert x in b.wallets[a].staked.Keys ==> x in b.wallets[a].balances.Keys;
      StakeMoveConserves(b, a, amount, x, c);
    }
  }

  /** What leaves an agent's stake enters its balance. */
  lemma StakeMoveConserves(b: Book, a: AgentId, amount: int, x: Currency, c: Currency)
    requires a in b.wallets
    ensures TotalHeld(Credit(CreditStake(b, a, x, -amount), a, x, amount).wallets, c) == TotalHeld(b.wallets, c)
  {
    CreditStakeAdds(b, a, x, -amount, c);
    CreditAdds(CreditStake(b, a, x, -amount), a, x, amount, c);
  }

  /** Over any run from an empty manager, all that is held is deposits minus withdrawals minus fees. */
  lemma {:induction false} Conservation(b: Book, ops: seq<Op>, c: Currency)
    requires BookOk(b)
    ensures TotalHeld(RunOps(b, ops).wallets, c) == TotalHeld(b.wallets, c) + NetInflow(b, ops, c)
    decreases ops
  {
    if ops != [] {
      ApplyKeepsBook(b, ops[0]);
      ApplyConserves(b, ops[0], c);
      Conservation(Apply(b, ops[0]).0, ops[1..], c);
    }
  }
}
