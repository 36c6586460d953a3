/** A whole call of the run loop with the steps it executes: what each turn shows the loop comes out of the gates, the tool
    and the wallet that the turns before it left. */
module AgentRun {
  import opened Prelude
  import opened WalletLedger
  import opened WalletManager
  import opened StepGates
  import opened StepExecution
  import opened RunLoop
  import opened RunTrace
  import opened RunLoopTheorems
  import opened CallOutcomes
  import LoopStabilizer
  import StepResults
  import Verifier

  /** A turn as it comes from outside: its step, and everything else; the step and the verdict in `rest` do not matter. */
  datatype TurnInput = TurnInput(step: StepInput, rest: Turn)

  /** Who runs, in which mode, and the book the call begins with. */
  datatype Agent = Agent(id: AgentId, unbounded: bool, book: Book)

  /** The book before turn `n`. */
  function BookAt(a: Agent, inputs: nat -> TurnInput, n: nat): Book {
    if n == 0 then a.book else ExecuteStep(BookAt(a, inputs, n - 1), a.id, inputs(n - 1).step, a.unbounded)
  }

  function StepOf(a: Agent, inputs: nat -> TurnInput, n: nat): StepResults.StepResult {
    ResultOf(BookAt(a, inputs, n), a.id, inputs(n).step, a.unbounded)
  }

  /** The turns as the loop sees them. */
  function Turns(a: Agent, inputs: nat -> TurnInput): nat -> Turn {
    (n: nat) => inputs(n).rest.(step := StepOf(a, inputs, n))
  }

  predicate ChargedIn(a: Agent, inputs: nat -> TurnInput, n: nat) {
    Charged(BookAt(a, inputs, n), a.id, inputs(n).step, a.unbounded)
  }

  predicate CarriedOutIn(a: Agent, inputs: nat -> TurnInput, n: nat) {
    CarriedOut(BookAt(a, inputs, n), a.id, inputs(n).step, a.unbounded)
  }

  predicate AwaitsIn(a: Agent, inputs: nat -> TurnInput, n: nat) {
    Awaits(BookAt(a, inputs, n), a.id, inputs(n).step, a.unbounded)
  }

  /** The call, judged by its verifier. */
  function CallOf(a: Agent, inputs: nat -> TurnInput, entry: LoopVars, limits: Limits): Run {
    RunFrom(entry, Checked(Turns(a, inputs)), 0, limits)
  }

  // ---------- What is spent ----------

  /** The costs of the charged turns before turn `n`. */
  function CostsBefore(a: Agent, inputs: nat -> TurnInput, n: nat): int {
    if n == 0 then 0
    else CostsBefore(a, inputs, n - 1) + if ChargedIn(a, inputs, n - 1) then Cost(inputs(n - 1).step.action) else 0
  }

  function Balance(b: Book, agent: AgentId): int {
    if agent in b.wallets then Get(b.wallets[agent].balances, "RGT") else 0
  }

  lemma StepCosts(b: Book, agent: AgentId, s: StepInput, unbounded: bool)
    requires agent in b.wallets
    ensures var n := ExecuteStep(b, agent, s, unbounded);
            && agent in n.wallets && (Balance(b, agent) >= 0 ==> Balance(n, agent) >= 0)
            && Balance(n, agent) == Balance(b, agent) - if Charged(b, agent, s, unbounded) then Cost(s.action) else 0
  {
    if Charged(b, agent, s, unbounded) { SpendSucceeds(b, agent, s, unbounded); }
  }

  /** The balance falls by exactly the costs of the charged turns, at most 5 tokens each, and never below 0. */
  lemma {:induction false} BalanceFallsByCosts(a: Agent, inputs: nat -> TurnInput, n: nat)
    requires a.id in a.book.wallets
    ensures a.id in BookAt(a, inputs, n).wallets
    ensures Balance(BookAt(a, inputs, n), a.id) == Balance(a.book, a.id) - CostsBefore(a, inputs, n)
    ensures Balance(a.book, a.id) >= 0 ==> Balance(BookAt(a, inputs, n), a.id) >= 0
    ensures 0 <= CostsBefore(a, inputs, n) <= 5000 * n
  {
    if n > 0 {
      BalanceFallsByCosts(a, inputs, n - 1);
      StepCosts(BookAt(a, inputs, n - 1), a.id, inputs(n - 1).step, a.unbounded);
    }
  }

  /** An agent without a wallet is not charged. */
  lemma {:induction false} NoWalletNoCharge(a: Agent, inputs: nat -> TurnInput, n: nat)
    requires a.id !in a.book.wallets
    ensures BookAt(a, inputs, n) == a.book
  {
    if n > 0 { NoWalletNoCharge(a, inputs, n - 1); }
  }

  /** Whatever its steps turn out to be, a call costs at most 1250 tokens: its balance ends at the start minus the costs of
      exactly the charged ones among the turns that took a step. */
  lemma CallCostsAreBounded(a: Agent, inputs: nat -> TurnInput, entry: LoopVars, limits: Limits)
    requires IsEntry(entry) && a.id in a.book.wallets
    ensures var n := |CallOf(a, inputs, entry, limits).before|;
            && Balance(BookAt(a, inputs, n), a.id) == Balance(a.book, a.id) - CostsBefore(a, inputs, n)
            && (Balance(a.book, a.id) >= 0 ==> Balance(BookAt(a, inputs, n), a.id) >= 0)
            && 0 <= CostsBefore(a, inputs, n) <= 1_250_000
  {
    var n := |CallOf(a, inputs, entry, limits).before|;
    StepBound(entry, Checked(Turns(a, inputs)), limits);
    BalanceFallsByCosts(a, inputs, n);
  }

  // ---------- Approvals ----------

  /** A turn that awaits an approval is the last of its call to take a step; nothing is carried out or charged in it. */
  lemma NothingAfterAWait(a: Agent, inputs: nat -> TurnInput, entry: LoopVars, limits: Limits, j: nat)
    requires IsEntry(entry) && j < |CallOf(a, inputs, entry, limits).before| && AwaitsIn(a, inputs, j)
    ensures |CallOf(a, inputs, entry, limits).before| == j + 1
    ensures !CarriedOutIn(a, inputs, j) && BookAt(a, inputs, j + 1) == BookAt(a, inputs, j)
  {
    var env := Checked(Turns(a, inputs));
    ResultTells(BookAt(a, inputs, j), a.id, inputs(j).step, a.unbounded);
    if j + 1 < |CallOf(a, inputs, entry, limits).before| {
      OnlyTheLastStepEnds(entry, env, limits, j);
    }
  }

  predicate Critical(s: StepInput) {
    ContainsAny(Lower(s.action.toolName), CriticalWords)
  }

  /** All gates let the step through with these funds. */
  predicate LetThrough(s: StepInput, unbounded: bool, funds: Option<int>) {
    Admitted(s.action, s.verdicts) && Permitted(s.action, s.verdicts, funds) && (unbounded || ApprovalsPass(s.verdicts))
  }

  /** Turn `j` carries its step out exactly if nothing raises before that, and the agent is admitted, trusted with the tool, within
      its ethics, its tenant and its policy, approved where it is governed, and able to pay out of what the turns before left. */
  lemma CarriedOutInIff(a: Agent, inputs: nat -> TurnInput, j: nat)
    ensures CarriedOutIn(a, inputs, j) <==>
              && !FailsAt(inputs(j).step, Deciding)
              && LetThrough(inputs(j).step, a.unbounded, Funds(BookAt(a, inputs, j), a.id))
  {
    var s, funds := inputs(j).step, Funds(BookAt(a, inputs, j), a.id);
    CarriedOutIff(s.action, s.verdicts, a.unbounded, funds);
  }

  lemma ApprovedIn(a: Agent, inputs: nat -> TurnInput, j: nat)
    requires CarriedOutIn(a, inputs, j)
    ensures LetThrough(inputs(j).step, a.unbounded, Funds(BookAt(a, inputs, j), a.id))
    ensures Critical(inputs(j).step) ==> Approved(inputs(j).step)
  {
    var s, funds := inputs(j).step, Funds(BookAt(a, inputs, j), a.id);
    CarriedOutInIff(a, inputs, j);
    if Critical(s) { CriticalNeedsApproval(s.action, s.verdicts, a.unbounded, funds); }
  }

  /** The action has its approval, a trust of 60 if trust is known, and the consent of the safety envelope and the policy. */
  predicate Approved(s: StepInput) {
    && s.action.hasApproval && s.verdicts.safetyAllows && s.verdicts.policy != PAbort
    && (s.verdicts.trustAvailable ==> s.verdicts.trust >= 60)
  }

  lemma AwaitsOnlyLast(a: Agent, inputs: nat -> TurnInput, entry: LoopVars, limits: Limits, m: nat)
    requires IsEntry(entry) && m + 1 < |CallOf(a, inputs, entry, limits).before|
    ensures !AwaitsIn(a, inputs, m)
  {
    if AwaitsIn(a, inputs, m) { NothingAfterAWait(a, inputs, entry, limits, m); }
  }

  lemma CarriedOutAwaitsNothing(a: Agent, inputs: nat -> TurnInput, j: nat)
    requires CarriedOutIn(a, inputs, j)
    ensures !AwaitsIn(a, inputs, j)
  {
  }

  ghost predicate NoWaitBefore(a: Agent, inputs: nat -> TurnInput, n: nat) {
    forall m: nat | m < n :: !AwaitsIn(a, inputs, m)
  }

  lemma NoWaitBeforeLast(a: Agent, inputs: nat -> TurnInput, entry: LoopVars, limits: Limits, n: nat)
    requires IsEntry(entry) && n < |CallOf(a, inputs, entry, limits).before|
    ensures NoWaitBefore(a, inputs, n)
  {
    forall m: nat | m < n ensures !AwaitsIn(a, inputs, m) { AwaitsOnlyLast(a, inputs, entry, limits, m); }
  }

  /** What a call carries out was approved where it had to be: every critical step in either mode, every step of a governed
      agent; the agent was trusted with its tool; and no turn up to it awaited an approval. */
  lemma CarriedOutWasApproved(a: Agent, inputs: nat -> TurnInput, entry: LoopVars, limits: Limits, j: nat)
    requires IsEntry(entry) && j < |CallOf(a, inputs, entry, limits).before| && CarriedOutIn(a, inputs, j)
    ensures Critical(inputs(j).step) ==> Approved(inputs(j).step)
    ensures a.unbounded || ApprovalsPass(inputs(j).step.verdicts)
    ensures Trusted(inputs(j).step.verdicts, Lower(inputs(j).step.action.toolName))
    ensures NoWaitBefore(a, inputs, j + 1)
  {
    ApprovedIn(a, inputs, j);
    CarriedOutAwaitsNothing(a, inputs, j);
    NoWaitBeforeLast(a, inputs, entry, limits, j);
  }

  lemma WaitingMeansAwaiting(a: Agent, inputs: nat -> TurnInput, n: nat)
    ensures StepResults.Waits(Checked(Turns(a, inputs))(n).step) <==> AwaitsIn(a, inputs, n)
  {
    ResultTells(BookAt(a, inputs, n), a.id, inputs(n).step, a.unbounded);
  }

  lemma WaitingIsLast(r: Run, entry: LoopVars, env: nat -> Turn, limits: Limits)
    requires Call(r, entry, env, limits) && r.exit == WaitingApproval
    ensures r.before != [] && StepResults.Waits(env(|r.before| - 1).step)
  {
    if r.before != [] {
      var j := |r.before| - 1;
      assert Closes(r.before[j], env, j, limits, r.exit, r.last);
    }
  }

  lemma WaitedLast(a: Agent, inputs: nat -> TurnInput, entry: LoopVars, limits: Limits, r: Run)
    requires IsEntry(entry) && r == CallOf(a, inputs, entry, limits) && r.exit == WaitingApproval
    ensures r.before != [] && AwaitsIn(a, inputs, |r.before| - 1)
  {
    RunIsACall(entry, Checked(Turns(a, inputs)), limits);
    WaitingIsLast(r, entry, Checked(Turns(a, inputs)), limits);
    WaitingMeansAwaiting(a, inputs, |r.before| - 1);
  }

  lemma UnboundedAwaitsNothing(a: Agent, inputs: nat -> TurnInput, n: nat)
    requires a.unbounded
    ensures !AwaitsIn(a, inputs, n)
  {
    UnboundedLiftsOnlyApprovals(inputs(n).step.action, inputs(n).step.verdicts, Funds(BookAt(a, inputs, n), a.id));
  }

  /** A call that waits for an approval has just taken the one turn that awaits it; in unbounded mode none does. */
  lemma WaitsForItsLastTurn(a: Agent, inputs: nat -> TurnInput, entry: LoopVars, limits: Limits)
    requires IsEntry(entry) && CallOf(a, inputs, entry, limits).exit == WaitingApproval
    ensures !a.unbounded
    ensures var n := |CallOf(a, inputs, entry, limits).before|;
            n > 0 && AwaitsIn(a, inputs, n - 1) && NoWaitBefore(a, inputs, n - 1)
  {
    var r := CallOf(a, inputs, entry, limits);
    var n := |r.before|;
    WaitedLast(a, inputs, entry, limits, r);
    if a.unbounded { UnboundedAwaitsNothing(a, inputs, n - 1); }
    NoWaitBeforeLast(a, inputs, entry, limits, n - 1);
  }

  lemma AwaitsInIff(a: Agent, inputs: nat -> TurnInput, j: nat)
    ensures var s, funds := inputs(j).step, Funds(BookAt(a, inputs, j), a.id);
            AwaitsIn(a, inputs, j) <==>
              && !FailsAt(s, Deciding) && !a.unbounded && Admitted(s.action, s.verdicts)
              && (s.verdicts.gateAvailable ==> s.verdicts.gateAllows)
              && ((s.verdicts.gateAvailable && s.verdicts.gateWantsApproval)
                  || (Permitted(s.action, s.verdicts, funds)
                      && (s.verdicts.policy == PRequireApproval || s.verdicts.safetyWantsApproval)))
  {
    AwaitsIff(inputs(j).step.action, inputs(j).step.verdicts, a.unbounded, Funds(BookAt(a, inputs, j), a.id));
  }

  /** The last turn of the call is heard. */
  predicate LastIsHeard(r: Run, env: nat -> Turn, limits: Limits) {
    r.before != [] && Heard(r.before[|r.before| - 1], env(|r.before| - 1), limits)
  }

  lemma WaitingStatus(entry: LoopVars, env: nat -> Turn, limits: Limits, r: Run)
    requires IsEntry(entry) && r == RunFrom(entry, env, 0, limits)
    ensures StatusAfter(r) == SWaiting <==> LastIsHeard(r, env, limits) && StepResults.Waits(env(|r.before| - 1).step)
  {
    StatusIff(entry, env, limits);
  }

  lemma WaitingCall(a: Agent, inputs: nat -> TurnInput, r: Run, env: nat -> Turn, heard: bool)
    requires env == Checked(Turns(a, inputs)) && (heard ==> r.before != [])
    requires StatusAfter(r) == SWaiting <==> heard && StepResults.Waits(env(|r.before| - 1).step)
    ensures StatusAfter(r) == SWaiting <==> heard && AwaitsIn(a, inputs, |r.before| - 1)
  {
    if heard { WaitingMeansAwaiting(a, inputs, |r.before| - 1); }
  }

  /** A call leaves its session waiting exactly if its last turn awaits an approval, and neither the tokens, the stabiliser, a planner
      nor the verifier cut it off. */
  lemma CallWaitsIff(a: Agent, inputs: nat -> TurnInput, entry: LoopVars, limits: Limits)
    requires IsEntry(entry)
    ensures var r, env := CallOf(a, inputs, entry, limits), Checked(Turns(a, inputs));
            StatusAfter(r) == SWaiting <==> LastIsHeard(r, env, limits) && AwaitsIn(a, inputs, |r.before| - 1)
  {
    var r, env := CallOf(a, inputs, entry, limits), Checked(Turns(a, inputs));
    WaitingStatus(entry, env, limits, r);
    WaitingCall(a, inputs, r, env, LastIsHeard(r, env, limits));
  }

  // ---------- The two modes ----------

  lemma SameStep(b: Book, agent: AgentId, s: StepInput)
    requires ApprovalsPass(s.verdicts)
    ensures ResultOf(b, agent, s, false) == ResultOf(b, agent, s, true)
    ensures ExecuteStep(b, agent, s, false) == ExecuteStep(b, agent, s, true)
  {
    UnboundedLiftsOnlyApprovals(s.action, s.verdicts, Funds(b, agent));
  }

  lemma {:induction false} SameBook(id: AgentId, book: Book, inputs: nat -> TurnInput, n: nat)
    requires forall m: nat :: ApprovalsPass(inputs(m).step.verdicts)
    ensures BookAt(Agent(id, false, book), inputs, n) == BookAt(Agent(id, true, book), inputs, n)
    ensures StepOf(Agent(id, false, book), inputs, n) == StepOf(Agent(id, true, book), inputs, n)
  {
    if n > 0 {
      SameBook(id, book, inputs, n - 1);
      SameStep(BookAt(Agent(id, true, book), inputs, n - 1), id, inputs(n - 1).step);
    }
    SameStep(BookAt(Agent(id, true, book), inputs, n), id, inputs(n).step);
  }

  ghost predicate SameTurns(env: nat -> Turn, other: nat -> Turn) {
    forall n: nat :: env(n) == other(n)
  }

  lemma SeenStep(env: nat -> Turn, n: nat, seen: seq<Verifier.Digest>, d: Verifier.Digest, next: seq<Verifier.Digest>)
    requires Seen(env, n) == seen && Verifier.DigestOf(env(n).step) == d && Verifier.Noted(seen, d) == next
    ensures Seen(env, n + 1) == next
  {
  }

  lemma SameSeenStep(env: nat -> Turn, other: nat -> Turn, n: nat)
    requires Seen(env, n) == Seen(other, n) && env(n) == other(n)
    ensures Seen(env, n + 1) == Seen(other, n + 1)
  {
    var seen, d := Seen(env, n), Verifier.DigestOf(env(n).step);
    SeenStep(env, n, seen, d, Verifier.Noted(seen, d));
    SeenStep(other, n, seen, d, Verifier.Noted(seen, d));
  }

  lemma SameSeen(env: nat -> Turn, other: nat -> Turn, n: nat)
    requires SameTurns(env, other)
    ensures Seen(env, n) == Seen(other, n)
  {
    for m := 0 to n
      invariant Seen(env, m) == Seen(other, m)
    {
      assert env(m) == other(m);
      SameSeenStep(env, other, m);
    }
  }

  lemma SameChecked(env: nat -> Turn, other: nat -> Turn)
    requires SameTurns(env, other)
    ensures SameTurns(Checked(env), Checked(other))
  {
    forall n: nat ensures Checked(env)(n) == Checked(other)(n) {
      assert env(n) == other(n);
      SameSeen(env, other, n);
    }
  }

  lemma {:induction false} SameRun(v: LoopVars, env: nat -> Turn, other: nat -> Turn, i: nat, limits: Limits)
    requires SameTurns(env, other)
    ensures RunFrom(v, env, i, limits) == RunFrom(v, other, i, limits)
    decreases limits.maxLoops - v.loopCount
  {
    assert env(i) == other(i);
    var o := TakeTurn(v, env(i), i, limits);
    if o.Go? {
      GoMeansStepped(v, env(i), i, limits);
      SameRun(o.next, env, other, i + 1, limits);
    }
    SameTurnSameRun(v, env, other, i, limits, o);
  }

  lemma SameTurnSameRun(v: LoopVars, env: nat -> Turn, other: nat -> Turn, i: nat, limits: Limits, o: Outcome)
    requires env(i) == other(i) && o == TakeTurn(v, env(i), i, limits)
    requires o.Go? ==> RunFrom(o.next, env, i + 1, limits) == RunFrom(o.next, other, i + 1, limits)
    ensures RunFrom(v, env, i, limits) == RunFrom(v, other, i, limits)
  {
    RunUnfolds(v, env, i, limits);
    RunUnfolds(v, other, i, limits);
  }

  /** Where the execution gate, the policy and the safety envelope ask for no approval, a governed agent's call is the call
      of an unbounded one, turn by turn and token by token. */
  lemma ModesDifferByApprovalsOnly(id: AgentId, book: Book, inputs: nat -> TurnInput, entry: LoopVars, limits: Limits)
    requires forall m: nat :: ApprovalsPass(inputs(m).step.verdicts)
    ensures CallOf(Agent(id, false, book), inputs, entry, limits) == CallOf(Agent(id, true, book), inputs, entry, limits)
    ensures forall n: nat :: BookAt(Agent(id, false, book), inputs, n) == BookAt(Agent(id, true, book), inputs, n)
  {
    var env, other := Turns(Agent(id, false, book), inputs), Turns(Agent(id, true, book), inputs);
    forall n: nat
      ensures BookAt(Agent(id, false, book), inputs, n) == BookAt(Agent(id, true, book), inputs, n) && env(n) == other(n)
    {
      SameBook(id, book, inputs, n);
    }
    SameChecked(env, other);
    SameRun(entry, Checked(env), Checked(other), 0, limits);
  }

  // ---------- The call as it runs ----------

  /** One turn: its step is executed if the loop gets to it. */
  method TakeAgentTurn(session: Session, wallets: Manager, a: Agent, input: TurnInput, i: nat, limits: Limits)
      returns (exit: Option<Exit>, stepped: bool, ghost t: Turn)
    requires session.stabilizer.config == LoopStabilizer.Standard
    modifies wallets, session`loopCount, session`totalTokens, session`context, session`history, session`kept, session`plan,
             session`revisions, session.stabilizer, session.verifier
    ensures stepped <==> old(session.loopCount) < limits.maxLoops && !input.rest.cancelled
    ensures t == input.rest.(step := ResultOf(old(wallets.View()), a.id, input.step, a.unbounded))
    ensures wallets.View() == if stepped then ExecuteStep(old(wallets.View()), a.id, input.step, a.unbounded)
                              else old(wallets.View())
    ensures Shows(TakeTurn(old(session.Vars()), old(session.Judged(t)), i, limits), exit, session.Vars())
    ensures exit == None ==>
              && stepped
              && session.verifier.stepHashes
                 == Verifier.Noted(old(session.verifier.stepHashes), Verifier.DigestOf(t.step))
  {
    t := input.rest.(step := ResultOf(wallets.View(), a.id, input.step, a.unbounded));
    stepped := session.loopCount < limits.maxLoops && !input.rest.cancelled;
    var turn := input.rest;
    if stepped {
      var result, paid := ExecuteAction(wallets, a.id, input.step, a.unbounded);
      turn := turn.(step := result);
    }
    exit := session.OneTurn(turn, i, limits);
  }

  /** Where the call stands after the steps `before`: `i` turns are begun. */
  ghost predicate Underway(session: Session, wallets: Manager, a: Agent, inputs: nat -> TurnInput, i: nat, ended: Option<Exit>,
                           before: seq<LoopVars>)
    reads session, session.stabilizer, session.verifier, wallets
  {
    && wallets.View() == BookAt(a, inputs, |before|)
    && (ended == None ==> |before| == i && session.verifier.stepHashes == Seen(Turns(a, inputs), i))
  }

  /** The call `whole` is the steps `before` and what follows them. */
  ghost predicate GoesOnAs(whole: Run, before: seq<LoopVars>, v: LoopVars, ended: Option<Exit>, env: nat -> Turn, i: nat,
                           limits: Limits)
  {
    whole == Joined(before, v, ended, env, i, limits)
  }

  lemma GoesOnAtFirst(v: LoopVars, env: nat -> Turn, limits: Limits)
    ensures GoesOnAs(RunFrom(v, env, 0, limits), [], v, None, env, 0, limits)
  {
  }

  lemma GoesOnToTheEnd(whole: Run, before: seq<LoopVars>, v: LoopVars, exit: Exit, env: nat -> Turn, i: nat, limits: Limits)
    requires GoesOnAs(whole, before, v, Some(exit), env, i, limits)
    ensures whole == Run(before, exit, v)
  {
  }

  method NextTurn(session: Session, wallets: Manager, a: Agent, inputs: nat -> TurnInput, i: nat, limits: Limits,
                  ghost whole: Run, ghost before: seq<LoopVars>) returns (ended: Option<Exit>, ghost grown: seq<LoopVars>)
    requires session.stabilizer.config == LoopStabilizer.Standard && Underway(session, wallets, a, inputs, i, None, before)
    requires GoesOnAs(whole, before, session.Vars(), None, Checked(Turns(a, inputs)), i, limits)
    modifies wallets, session`loopCount, session`totalTokens, session`context, session`history, session`kept, session`plan,
             session`revisions, session.stabilizer, session.verifier
    ensures Underway(session, wallets, a, inputs, i + 1, ended, grown)
    ensures GoesOnAs(whole, grown, session.Vars(), ended, Checked(Turns(a, inputs)), i + 1, limits)
    ensures ended == None ==> session.loopCount == old(session.loopCount) + 1 <= limits.maxLoops
  {
    ghost var v, env := session.Vars(), Checked(Turns(a, inputs));
    var exit, stepped, t := TakeAgentTurn(session, wallets, a, inputs(i), i, limits);
    grown := if stepped then before + [v] else before;
    JoinedAfter(before, v, env, i, limits, exit, session.Vars());
    ended := exit;
  }

  /** The loop with its steps: the session ends as the model's call does, and the wallets as its steps leave them. */
  method RunAgent(session: Session, wallets: Manager, a: Agent, inputs: nat -> TurnInput, limits: Limits)
      returns (exit: Exit, ghost run: Run)
    requires session.stabilizer.config == LoopStabilizer.Standard && session.verifier.stepHashes == []
    requires a.book == wallets.View()
    modifies wallets, session`loopCount, session`totalTokens, session`context, session`history, session`kept, session`plan,
             session`revisions, session`status, session.stabilizer, session.verifier
    ensures session.status == StatusAfter(run)
    ensures run == CallOf(a, inputs, old(session.Vars()), limits) && exit == run.exit && session.Vars() == run.last
    ensures wallets.View() == BookAt(a, inputs, |run.before|)
  {
    ghost var before, env := [], Checked(Turns(a, inputs));
    run := CallOf(a, inputs, session.Vars(), limits);
    GoesOnAtFirst(session.Vars(), env, limits);
    var i, ended := 0, None;
    while ended == None
      invariant Underway(session, wallets, a, inputs, i, ended, before)
      invariant GoesOnAs(run, before, session.Vars(), ended, env, i, limits)
      decreases ended == None, if limits.maxLoops > session.loopCount then limits.maxLoops - session.loopCount else 0
    {
      ended, before := NextTurn(session, wallets, a, inputs, i, limits, run, before);
      i := i + 1;
    }
    exit := ended.value;
    GoesOnToTheEnd(run, before, session.Vars(), exit, env, i, limits);
    session.status := FinalStatus(exit, session.kept);
  }
}
