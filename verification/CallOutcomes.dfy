/** How a session ends, told by the last turn of its call. */
module CallOutcomes {
  import opened Prelude
  import opened LoopStabilizer
  import opened StepResults
  import opened Verifier
  import opened RunLoop
  import opened RunTrace
  import opened RunLoopTheorems

  /** The turn is not cut off before its step is looked at: not by the tokens, the stabiliser, the planner that it calls in, the
      supervisor or the verifier. */
  predicate Heard(v: LoopVars, t: Turn, limits: Limits) {
    var action := ReportOf(v.course, t).action;
    && v.tokens + t.tokens < limits.maxTokens && action != Abort && !(action == Replan && t.plannerFails)
    && !(action == Escalate && t.supervisorAborts) && t.verdict != LoopFound
  }

  /** Its step is an error that is neither taken for feedback nor answered by a new plan. */
  predicate GivesUp(v: LoopVars, t: Turn) {
    Fails(t.step) && t.verdict != Rejected && (v.loopCount >= 2 || t.plannerFails)
  }

  lemma OnlyOneFlag(r: StepResult)
    ensures !(Achieves(r) && Waits(r)) && !(Fails(r) && (Achieves(r) || Waits(r)))
  {
  }

  /** How a turn ends the call that takes a step: heard, by its step; unheard, as a failure. */
  lemma StoppedBecause(v: LoopVars, t: Turn, i: nat, limits: Limits)
    requires TakesStep(v, t, limits) && TakeTurn(v, t, i, limits).Stop?
    ensures var e := TakeTurn(v, t, i, limits).exit;
            && (e == GoalAchieved <==> Heard(v, t, limits) && Achieves(t.step))
            && (e == WaitingApproval <==> Heard(v, t, limits) && Waits(t.step))
            && (e !in {GoalAchieved, WaitingApproval} ==> e !in {LoopLimit, Cancelled} && (!Heard(v, t, limits) || GivesUp(v, t)))
  {
    var done := AfterStep(v, t, i);
    SameStabSameReport(v.course, done.course, t);
    OnlyOneFlag(t.step);
    if v.tokens + t.tokens < limits.maxTokens {
      ReactedBecause(RecordStep(done.course, t), t, ReportOf(v.course, t), done.loopCount);
    }
  }

  lemma ReactedBecause(c: Course, t: Turn, r: Report, loopCount: nat)
    requires React(c, t, r, loopCount).exit.Some?
    ensures var e := React(c, t, r, loopCount).exit.value;
            var heard := r.action != Abort && !(r.action == Replan && t.plannerFails)
                         && !(r.action == Escalate && t.supervisorAborts) && t.verdict != LoopFound;
            && (e == GoalAchieved <==> heard && Achieves(t.step))
            && (e == WaitingApproval <==> heard && Waits(t.step))
            && (e !in {GoalAchieved, WaitingApproval} ==>
                  e !in {LoopLimit, Cancelled}
                  && (!heard || (Fails(t.step) && t.verdict != Rejected && (loopCount >= 3 || t.plannerFails))))
  {
    OnlyOneFlag(t.step);
  }

  /** A turn after which the call goes on was heard, and its step gave no reason to end it. */
  lemma WentOnBecause(v: LoopVars, t: Turn, i: nat, limits: Limits)
    requires TakeTurn(v, t, i, limits).Go?
    ensures TakesStep(v, t, limits) && Heard(v, t, limits) && !Achieves(t.step) && !Waits(t.step) && !GivesUp(v, t)
  {
    GoesOnIff(v, t, i, limits);
  }

  /** The last turn that took a step, `t` from `v`, accounts for the exit. */
  predicate Accounts(v: LoopVars, t: Turn, limits: Limits, e: Exit) {
    && (e == GoalAchieved <==> Heard(v, t, limits) && Achieves(t.step))
    && (e == WaitingApproval <==> Heard(v, t, limits) && Waits(t.step))
    && (e in {LoopLimit, Cancelled} <==>
          Heard(v, t, limits) && !Achieves(t.step) && !Waits(t.step) && !GivesUp(v, t))
  }

  lemma StoppedAccounts(v: LoopVars, t: Turn, i: nat, limits: Limits)
    requires TakesStep(v, t, limits) && TakeTurn(v, t, i, limits).Stop?
    ensures Accounts(v, t, limits, TakeTurn(v, t, i, limits).exit)
  {
    StoppedBecause(v, t, i, limits);
    OnlyOneFlag(t.step);
  }

  lemma WentOnAccounts(v: LoopVars, t: Turn, i: nat, limits: Limits, e: Exit)
    requires TakeTurn(v, t, i, limits).Go? && e in {LoopLimit, Cancelled}
    ensures Accounts(v, t, limits, e)
  {
    WentOnBecause(v, t, i, limits);
  }

  /** What is said of the last turn of a call and of its exit. */
  type Account = (LoopVars, Turn, Exit) -> bool

  /** A run that takes no step leaves by the guard or is cancelled; any other is accounted for by its last turn. */
  ghost predicate AccountedFor(r: Run, env: nat -> Turn, i: nat, account: Account) {
    if r.before == [] then r.exit in {LoopLimit, Cancelled}
    else account(r.before[|r.before| - 1], env(i + |r.before| - 1), r.exit)
  }

  /** It holds of a turn that stops the call, and of one that is followed by none that takes a step. */
  ghost predicate Fits(account: Account, limits: Limits) {
    && (forall v, t, i {:trigger TakeTurn(v, t, i, limits)} | TakesStep(v, t, limits) && TakeTurn(v, t, i, limits).Stop? ::
          account(v, t, TakeTurn(v, t, i, limits).exit))
    && (forall v, t, i, e {:trigger TakeTurn(v, t, i, limits), account(v, t, e)}
          | TakeTurn(v, t, i, limits).Go? && e in {LoopLimit, Cancelled} :: account(v, t, e))
  }

  lemma AccountedBefore(r: Run, v: LoopVars, env: nat -> Turn, i: nat, account: Account, rest: Run)
    requires AccountedFor(rest, env, i + 1, account) && r == Run([v] + rest.before, rest.exit, rest.last)
    requires rest.before == [] ==> account(v, env(i), rest.exit)
    ensures AccountedFor(r, env, i, account)
  {
    if rest.before != [] {
      assert r.before[|r.before| - 1] == rest.before[|rest.before| - 1];
      assert i + |r.before| - 1 == i + 1 + |rest.before| - 1;
    }
  }

  lemma {:induction false} LastTurnAccounts(v: LoopVars, env: nat -> Turn, i: nat, limits: Limits, account: Account)
    requires Fits(account, limits)
    ensures AccountedFor(RunFrom(v, env, i, limits), env, i, account)
    decreases limits.maxLoops - v.loopCount
  {
    RunUnfolds(v, env, i, limits);
    var o := TakeTurn(v, env(i), i, limits);
    if o.Go? {
      GoMeansStepped(v, env(i), i, limits);
      LastTurnAccounts(o.next, env, i + 1, limits, account);
      AccountedBefore(RunFrom(v, env, i, limits), v, env, i, account, RunFrom(o.next, env, i + 1, limits));
    }
  }

  function TheAccount(limits: Limits): Account {
    (v, t, e) => Accounts(v, t, limits, e)
  }

  lemma TheAccountFits(limits: Limits)
    ensures Fits(TheAccount(limits), limits)
  {
    forall v, t, i | TakesStep(v, t, limits) && TakeTurn(v, t, i, limits).Stop?
      ensures TheAccount(limits)(v, t, TakeTurn(v, t, i, limits).exit)
    {
      StoppedAccounts(v, t, i, limits);
    }
    forall v, t, i, e | TakeTurn(v, t, i, limits).Go? && e in {LoopLimit, Cancelled} ensures TheAccount(limits)(v, t, e) {
      WentOnAccounts(v, t, i, limits, e);
    }
  }

  /** The status that a call leaves its session with. */
  function StatusAfter(r: Run): SessionStatus {
    FinalStatus(r.exit, r.last.kept)
  }

  lemma StatusOf(e: Exit, kept: seq<KeptStep>)
    requires !HasDeliverable(kept)
    ensures FinalStatus(e, kept) == SWaiting <==> e == WaitingApproval
    ensures FinalStatus(e, kept) == SCompleted <==> e in {GoalAchieved, LoopLimit, Cancelled}
  {
  }

  lemma AccountedStatus(v: LoopVars, t: Turn, limits: Limits, e: Exit, kept: seq<KeptStep>)
    requires Accounts(v, t, limits, e) && !HasDeliverable(kept)
    ensures FinalStatus(e, kept) == SWaiting <==> Heard(v, t, limits) && Waits(t.step)
    ensures FinalStatus(e, kept) == SFailed <==> !Heard(v, t, limits) || GivesUp(v, t)
  {
    StatusOf(e, kept);
    OnlyOneFlag(t.step);
  }

  /** The session is waiting exactly if its last turn was heard and awaits an approval, and has failed exactly if its last turn was
      not heard or was an error to give up on. */
  predicate StatusTold(status: SessionStatus, v: LoopVars, t: Turn, limits: Limits) {
    && (status == SWaiting <==> Heard(v, t, limits) && Waits(t.step))
    && (status == SFailed <==> !Heard(v, t, limits) || GivesUp(v, t))
  }

  /** The same of a whole run; one without any turn leaves the session completed. */
  ghost predicate EndTold(r: Run, env: nat -> Turn, limits: Limits) {
    if r.before == [] then StatusAfter(r) == SCompleted
    else StatusTold(StatusAfter(r), r.before[|r.before| - 1], env(|r.before| - 1), limits)
  }

  lemma AccountedEnd(r: Run, env: nat -> Turn, limits: Limits)
    requires AccountedFor(r, env, 0, TheAccount(limits)) && !HasDeliverable(r.last.kept)
    ensures EndTold(r, env, limits)
  {
    if r.before == [] {
      StatusOf(r.exit, r.last.kept);
    } else {
      AccountedStatus(r.before[|r.before| - 1], env(|r.before| - 1), limits, r.exit, r.last.kept);
    }
  }

  /** A session is left waiting exactly if its last turn was heard and awaits an approval; it has failed exactly if its last turn
      was not heard, or was an error to give up on; and it is completed otherwise: achieved, cancelled, out of loops, or without
      any turn. */
  lemma StatusIff(entry: LoopVars, env: nat -> Turn, limits: Limits)
    requires IsEntry(entry)
    ensures EndTold(RunFrom(entry, env, 0, limits), env, limits)
  {
    TheAccountFits(limits);
    LastTurnAccounts(entry, env, 0, limits, TheAccount(limits));
    NothingIsRecovered(entry, env, limits);
    AccountedEnd(RunFrom(entry, env, 0, limits), env, limits);
  }

  /** Under the verifier's own verdicts and the loop's own stabiliser that is: tokens used up, out of time or at the limit of 250
      turns, a planner that fails when it is called in, or an error from the third loop on that is not a repetition. */
  lemma HeardIff(r: Run, entry: LoopVars, env: nat -> Turn, limits: Limits, j: nat)
    requires IsEntry(entry) && r == RunFrom(entry, Checked(env), 0, limits) && j < |r.before|
    ensures var t, action := Checked(env)(j), ReportOf(r.before[j].course, Checked(env)(j)).action;
            Heard(r.before[j], t, limits) <==>
              r.before[j].tokens + t.tokens < limits.maxTokens && action != Abort && !(action == Replan && t.plannerFails)
  {
    NoLoopIsFound(env, j);
    NeverEscalates(entry, Checked(env), limits, j);
  }
}
