/** What each wallet operation does, told by what the agents have before and after it. */
module WalletEffects {
  import opened Prelude
  import opened WalletLedger

  // ---------- When an operation is done ----------

  /** The agent has a balance in the currency, and enough of it. */
  predicate Affords(b: Book, a: AgentId, amount: int, c: Currency) {
    a in b.wallets && c in b.wallets[a].balances && b.wallets[a].balances[c] >= amount
  }

  predicate CanUnstake(b: Book, a: AgentId, amount: int, c: Currency) {
    && a in b.wallets && c in b.wallets[a].staked && b.wallets[a].staked[c] >= amount && c in b.wallets[a].balances
  }

  /** The agent is unknown, or has less than the amount. */
  predicate LacksBalance(b: Book, a: AgentId, amount: int, c: Currency) {
    a in b.wallets ==> if c in b.wallets[a].balances then b.wallets[a].balances[c] < amount else 0 < amount
  }

  predicate LacksStake(b: Book, a: AgentId, amount: int, c: Currency) {
    a in b.wallets ==> if c in b.wallets[a].staked then b.wallets[a].staked[c] < amount else 0 < amount
  }

  /** Exactly which operations are done, and which are refused. */
  lemma VerdictIff(b: Book, op: Op)
    ensures Apply(b, op).1 == Done <==>
              match op
              case Create(_) => true
              case Deposit(_, _, _) => true
              case Unstake(a, amount, c) => CanUnstake(b, a, amount, c)
              case _ => Affords(b, op.agent, op.amount, op.currency)
    ensures Apply(b, op).1 == Refused <==>
              match op
              case Create(_) => false
              case Deposit(_, _, _) => false
              case Unstake(a, amount, c) => a !in b.wallets || LacksStake(b, a, amount, c)
              case _ => op.agent !in b.wallets || LacksBalance(b, op.agent, op.amount, op.currency)
  {
    if op.Pay? { NewWalletHolds(b, op.to, op.agent, op.currency); }
  }

  // ---------- What it does ----------

  /** What the agent's balance in the currency gains by the operation, once it is done. */
  function BalanceGain(op: Op, x: AgentId, c: Currency): int {
    if op.Create? || op.currency != c then 0
    else
      match op
      case Deposit(a, amount, _) => if x == a then amount else 0
      case Withdraw(a, amount, _) => if x == a then -amount else 0
      case Spend(a, amount, _) => if x == a then -amount else 0
      case Pay(a, to, amount, _) => (if x == a then -amount else 0) + if x == to then amount else 0
      case Stake(a, amount, _) => if x == a then -amount else 0
      case Unstake(a, amount, _) => if x == a then amount else 0
  }

  function StakeGain(op: Op, x: AgentId, c: Currency): int {
    if (op.Stake? || op.Unstake?) && op.agent == x && op.currency == c
    then if op.Stake? then op.amount else -op.amount
    else 0
  }

  /** What is entered in the agent's list; a payment to oneself twice. */
  function Entries(op: Op, x: AgentId): seq<Tx> {
    if op.Create? then []
    else
      (if x != op.agent then []
       else
         var kind := match op case Deposit(_, _, _) => Deposited case Withdraw(_, _, _) => Withdrawn case Spend(_, _, _) => Fee
                              case Pay(_, _, _, _) => Paid case Stake(_, _, _) => Staked case Unstake(_, _, _) => Unstaked;
         [Tx(kind, op.amount, op.currency)])
      + if op.Pay? && x == op.to then [Tx(Received, op.amount, op.currency)] else []
  }

  function ListOf(b: Book, x: AgentId): seq<Tx> {
    if x in b.transactions then b.transactions[x] else []
  }

  /** Who has a wallet afterwards that had none. */
  function Opened(op: Op): set<AgentId> {
    match op
    case Create(a) => {a}
    case Deposit(a, _, _) => {a}
    case Pay(_, to, _, _) => {to}
    case _ => {}
  }

  lemma ListsAreKept(b: Book, a: AgentId, x: AgentId)
    requires BookOk(b)
    ensures ListOf(CreateWallet(b, a), x) == ListOf(b, x) && CreateWallet(b, a).wallets.Keys == b.wallets.Keys + {a}
  {
    assert a in b.wallets.Keys <==> a in b.transactions.Keys;
  }

  lemma CreditIs(b: Book, a: AgentId, c: Currency, amount: int, x: AgentId, d: Currency)
    requires a in b.wallets
    ensures var n := Credit(b, a, c, amount);
            && n.wallets.Keys == b.wallets.Keys && n.transactions == b.transactions && StakeOf(n, x, d) == StakeOf(b, x, d)
            && BalanceOf(n, x, d) == BalanceOf(b, x, d) + if x == a && d == c then amount else 0
  {
  }

  lemma CreditStakeIs(b: Book, a: AgentId, c: Currency, amount: int, x: AgentId, d: Currency)
    requires a in b.wallets
    ensures var n := CreditStake(b, a, c, amount);
            && n.wallets.Keys == b.wallets.Keys && n.transactions == b.transactions && BalanceOf(n, x, d) == BalanceOf(b, x, d)
            && StakeOf(n, x, d) == StakeOf(b, x, d) + if x == a && d == c then amount else 0
  {
  }

  lemma PayIs(b: Book, a: AgentId, to: AgentId, amount: int, c: Currency, x: AgentId, d: Currency)
    requires a in b.wallets && to in b.wallets && Debit(b, a, amount, c) == Done
    ensures var n, op := PayOut(b, a, to, amount, c).0, Pay(a, to, amount, c);
            && BalanceOf(n, x, d) == BalanceOf(b, x, d) + BalanceGain(op, x, d) && StakeOf(n, x, d) == StakeOf(b, x, d)
            && ListOf(n, x) == ListOf(b, x) + Entries(op, x) && n.wallets.Keys == b.wallets.Keys
  {
    CreditIs(b, a, c, -amount, x, d);
    CreditIs(Credit(b, a, c, -amount), to, c, amount, x, d);
  }

  lemma MoveToStakeIs(b: Book, a: AgentId, amount: int, c: Currency, x: AgentId, d: Currency)
    requires a in b.wallets
    ensures var n, m := CreditStake(Credit(b, a, c, -amount), a, c, amount), Credit(CreditStake(b, a, c, -amount), a, c, amount);
            && BalanceOf(n, x, d) == BalanceOf(b, x, d) + BalanceGain(Stake(a, amount, c), x, d)
            && StakeOf(n, x, d) == StakeOf(b, x, d) + StakeGain(Stake(a, amount, c), x, d)
            && BalanceOf(m, x, d) == BalanceOf(b, x, d) + BalanceGain(Unstake(a, amount, c), x, d)
            && StakeOf(m, x, d) == StakeOf(b, x, d) + StakeGain(Unstake(a, amount, c), x, d)
            && n.wallets.Keys == m.wallets.Keys == b.wallets.Keys && n.transactions == m.transactions == b.transactions
  {
    CreditIs(b, a, c, -amount, x, d);
    CreditStakeIs(Credit(b, a, c, -amount), a, c, amount, x, d);
    CreditStakeIs(b, a, c, -amount, x, d);
    CreditIs(CreditStake(b, a, c, -amount), a, c, amount, x, d);
  }

  /** `n` is `b` after the operation has been done, as far as agent `x` and currency `d` go. */
  predicate DoneFor(b: Book, op: Op, n: Book, x: AgentId, d: Currency) {
    && BalanceOf(n, x, d) == BalanceOf(b, x, d) + BalanceGain(op, x, d)
    && StakeOf(n, x, d) == StakeOf(b, x, d) + StakeGain(op, x, d)
    && ListOf(n, x) == ListOf(b, x) + Entries(op, x)
    && n.wallets.Keys == b.wallets.Keys + Opened(op)
  }

  lemma OpeningIs(b: Book, op: Op, x: AgentId, d: Currency)
    requires BookOk(b) && (op.Create? || op.Deposit?)
    ensures DoneFor(b, op, Apply(b, op).0, x, d)
  {
    NewWalletHolds(b, op.agent, x, d);
    ListsAreKept(b, op.agent, x);
    if op.Deposit? { CreditIs(CreateWallet(b, op.agent), op.agent, op.currency, op.amount, x, d); }
  }

  lemma PaymentIs(b: Book, op: Op, x: AgentId, d: Currency)
    requires BookOk(b) && op.Pay? && Apply(b, op).1 == Done
    ensures DoneFor(b, op, Apply(b, op).0, x, d)
  {
    var n := CreateWallet(b, op.to);
    NewWalletHolds(b, op.to, x, d);
    ListsAreKept(b, op.to, x);
    assert op.agent in b.wallets && op.agent in n.wallets;
    PayIs(n, op.agent, op.to, op.amount, op.currency, x, d);
  }

  lemma TakingIs(b: Book, op: Op, x: AgentId, d: Currency)
    requires (op.Withdraw? || op.Spend?) && Apply(b, op).1 == Done
    ensures DoneFor(b, op, Apply(b, op).0, x, d)
  {
    CreditIs(b, op.agent, op.currency, -op.amount, x, d);
  }

  lemma StakingIs(b: Book, a: AgentId, amount: int, c: Currency, x: AgentId, d: Currency)
    requires Apply(b, Stake(a, amount, c)).1 == Done
    ensures DoneFor(b, Stake(a, amount, c), Apply(b, Stake(a, amount, c)).0, x, d)
  {
    MoveToStakeIs(b, a, amount, c, x, d);
    LogIs(CreditStake(Credit(b, a, c, -amount), a, c, amount), a, Tx(Staked, amount, c), x, d);
  }

  lemma UnstakingIs(b: Book, a: AgentId, amount: int, c: Currency, x: AgentId, d: Currency)
    requires Apply(b, Unstake(a, amount, c)).1 == Done
    ensures DoneFor(b, Unstake(a, amount, c), Apply(b, Unstake(a, amount, c)).0, x, d)
  {
    MoveToStakeIs(b, a, amount, c, x, d);
    LogIs(Credit(CreditStake(b, a, c, -amount), a, c, amount), a, Tx(Unstaked, amount, c), x, d);
  }

  lemma LogIs(b: Book, a: AgentId, t: Tx, x: AgentId, d: Currency)
    ensures var n := Log(b, a, t);
            && n.wallets == b.wallets && BalanceOf(n, x, d) == BalanceOf(b, x, d) && StakeOf(n, x, d) == StakeOf(b, x, d)
            && ListOf(n, x) == ListOf(b, x) + if x == a then [t] else []
  {
  }

  /** An operation that is done moves exactly its amount, in its currency, for its agents: into and out of balances and stakes, and it
      is entered in the lists of just these agents under its own kind. One that is refused moves nothing, but may open a wallet for
      the payee. */
  lemma EffectIs(b: Book, op: Op, x: AgentId, d: Currency)
    requires BookOk(b)
    ensures Apply(b, op).1 == Done ==> DoneFor(b, op, Apply(b, op).0, x, d)
    ensures Apply(b, op).1 == Refused ==>
              var n := Apply(b, op).0;
              && BalanceOf(n, x, d) == BalanceOf(b, x, d) && StakeOf(n, x, d) == StakeOf(b, x, d) && ListOf(n, x) == ListOf(b, x)
              && n.wallets.Keys == b.wallets.Keys + (if op.Pay? && op.agent in b.wallets then {op.to} else {})
  {
    if Apply(b, op).1 == Done {
      match op
      case Create(_) => OpeningIs(b, op, x, d);
      case Deposit(_, _, _) => OpeningIs(b, op, x, d);
      case Pay(_, _, _, _) => PaymentIs(b, op, x, d);
      case Stake(a, amount, c) => StakingIs(b, a, amount, c, x, d);
      case Unstake(a, amount, c) => UnstakingIs(b, a, amount, c, x, d);
      case Withdraw(_, _, _) => TakingIs(b, op, x, d);
      case Spend(_, _, _) => TakingIs(b, op, x, d);
    } else if op.Pay? {
      NewWalletHolds(b, op.to, x, d);
      ListsAreKept(b, op.to, x);
    }
  }

  // ---------- Currencies ----------

  /** The currencies of an agent's balances, or those that a new wallet has. */
  function Currencies(b: Book, x: AgentId): set<Currency> {
    if x in b.wallets then b.wallets[x].balances.Keys else {"RGT", "MATIC"}
  }

  /** The operation, once done, credits the agent's balance. */
  predicate Credits(op: Op, x: AgentId) {
    (op.Deposit? && op.agent == x) || (op.Pay? && op.to == x)
  }

  /** A new wallet has two currencies and one to stake, without any of them; and an operation that is done enters the currency that it
      credits, and no other. */
  lemma CurrenciesAre(b: Book, op: Op, x: AgentId)
    requires Apply(b, op).1 == Done && x in Apply(b, op).0.wallets
    ensures Apply(b, op).0.wallets[x].balances.Keys == Currencies(b, x) + if Credits(op, x) then {op.currency} else {}
    ensures op.Create? && x == op.agent && x !in b.wallets ==>
              Apply(b, op).0.wallets[x] == Wallet(map["RGT" := 0, "MATIC" := 0], map["RGT" := 0])
              && Apply(b, op).0.transactions[x] == []
  {
  }
}
