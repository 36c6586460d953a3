/** Calls in which every step fails, whatever else happens in them: how they end, turn by turn. */
module OnlyErrors {
  import opened Prelude
  import opened LoopStabilizer
  import opened StepResults
  import opened Verifier
  import opened RunLoop
  import opened RunTrace
  import opened RunLoopTheorems
  import opened Stagnation
  import opened RepeatedErrors

  /** Every step is an error with a message. Nothing is said of tokens, delays, cancellations and the planner. */
  ghost predicate OnlyFailures(env: nat -> Turn) {
    forall n: nat :: FailsIn(env, n)
  }

  /** The tokens that the first `n` turns use. */
  function Used(env: nat -> Turn, n: nat): nat {
    if n == 0 then 0 else Used(env, n - 1) + env(n - 1).tokens
  }

  // ---------- One turn ----------

  lemma FailureStep(r: StepResult)
    requires Fails(r)
    ensures !Achieves(r) && !Waits(r) && DigestOf(r) == Blank
  {
    assert Get(r, KError) != None;
    ErrorsLookAlike(r);
  }

  lemma FailureVerdict(env: nat -> Turn, n: nat)
    requires OnlyFailures(env)
    ensures Judge(Seen(env, n), DigestOf(env(n).step)) == if n < 2 then NoLoop else Rejected
  {
    forall m: nat | m <= n ensures BlankIn(env, m) {
      assert FailsIn(env, m);
      FailureStep(env(m).step);
    }
    SeenBlanks(env, n);
    assert BlankIn(env, n);
    JudgeBlank(n);
  }

  lemma FailureTurn(env: nat -> Turn, n: nat)
    requires OnlyFailures(env)
    ensures Fails(env(n).step) && !Achieves(env(n).step) && !Waits(env(n).step)
    ensures Checked(env)(n) == env(n).(verdict := if n < 2 then NoLoop else Rejected)
  {
    assert FailsIn(env, n);
    FailureStep(env(n).step);
    FailureVerdict(env, n);
  }

  /** The stabiliser after `n` errors and nothing else. */
  predicate AllErrors(s: LoopState, n: nat) {
    && s.iteration == s.consecutiveErrors == n && s.planRevisions == 0
    && |s.progressHistory| == |s.stepHashes| == |s.actionSequence| == n
  }

  /** What the stabiliser says to the error after `n` others: the second makes it ask for a new plan, and from the third on it
      rolls back, even when the time is up. */
  predicate ErrorAction(n: nat, elapsed: int, action: Action) {
    if n + 1 >= 250 then action == Abort
    else if n >= 2 then action == Rollback
    else if elapsed > 3600 then action == Abort
    else if n == 1 then action == Action.Replan
    else action in {Continue, SlowDown}
  }

  lemma ErrorReport(s: LoopState, n: nat, confidence: int, elapsed: int)
    requires AllErrors(s, n + 1) && confidence >= 60
    ensures ErrorAction(n, elapsed, Assess(Standard, s, confidence, elapsed).action)
  {
    var checks := Checks(Standard, s, confidence, elapsed);
    var r := WorstOf(checks);
    if n + 1 >= 250 {
      LimitAborts(Standard, s, confidence, elapsed);
    } else if n >= 2 {
      assert checks[1] == Some(Report(Critical, Rollback)) && checks[0] != Some(Report(Critical, Abort));
      assert SeverityOf(checks[1]) <= Severity(r.status);
    } else {
      FewErrorsReport(s, n, confidence, elapsed);
    }
  }

  lemma FewErrorsReport(s: LoopState, n: nat, confidence: int, elapsed: int)
    requires AllErrors(s, n + 1) && confidence >= 60 && n < 2
    ensures ErrorAction(n, elapsed, Assess(Standard, s, confidence, elapsed).action)
  {
    var checks := Checks(Standard, s, confidence, elapsed);
    var r := WorstOf(checks);
    assert checks[0] == checks[2] == checks[3] == checks[4] == checks[5] == checks[6] == None;
    assert SeverityOf(checks[7]) <= Severity(r.status) && SeverityOf(checks[1]) <= Severity(r.status);
  }

  /** Before turn `n` of such a call. */
  ghost predicate Erring(entry: LoopVars, env: nat -> Turn, v: LoopVars, n: nat) {
    && v.loopCount == entry.loopCount + n && v.tokens == entry.tokens + Used(env, n)
    && AllErrors(v.course.stab, n) && OnlyFailures(env)
  }

  /** Turn `n` takes a step. */
  predicate Steps(entry: LoopVars, env: nat -> Turn, limits: Limits, n: nat) {
    entry.loopCount + n < limits.maxLoops && !env(n).cancelled
  }

  /** There are tokens left after it. */
  predicate Pays(entry: LoopVars, env: nat -> Turn, limits: Limits, n: nat) {
    entry.tokens + Used(env, n + 1) < limits.maxTokens
  }

  /** Its error does not end the call: the first two errors need time, a plan, and a loop count below three; the others are
      rejected as repeated, and need nothing. */
  predicate Withstands(entry: LoopVars, env: nat -> Turn, n: nat) {
    n < 2 ==> entry.loopCount + n < 2 && env(n).elapsed <= 3600 && !env(n).plannerFails
  }

  /** The call goes on after turn `n`, if it gets there. */
  predicate GoesOn(entry: LoopVars, env: nat -> Turn, limits: Limits, n: nat) {
    Steps(entry, env, limits, n) && Pays(entry, env, limits, n) && n + 1 < 250 && Withstands(entry, env, n)
  }

  /** How it ends in the first turn after which it does not go on. */
  function ExitIn(entry: LoopVars, env: nat -> Turn, limits: Limits, n: nat): Exit {
    if entry.loopCount + n >= limits.maxLoops then LoopLimit
    else if env(n).cancelled then Cancelled
    else if !Pays(entry, env, limits, n) then TokenBudget
    else if n + 1 >= 250 || (n < 2 && env(n).elapsed > 3600) then StabilityAbort
    else if n < 2 && entry.loopCount + n >= 2 && !(n == 1 && env(n).plannerFails) then StepError
    else PlannerRaised
  }

  lemma ReportInTurn(entry: LoopVars, env: nat -> Turn, v: LoopVars, n: nat)
    requires Erring(entry, env, v, n)
    ensures ErrorAction(n, env(n).elapsed, ReportOf(v.course, Checked(env)(n)).action)
  {
    FailureTurn(env, n);
    var t := Checked(env)(n);
    ErrorReport(Record(v.course.stab, RecordOf(t.step)), n, Confidence(t.verdict), t.elapsed);
  }

  lemma GoesOnInTurn(entry: LoopVars, env: nat -> Turn, limits: Limits, v: LoopVars, n: nat)
    requires Erring(entry, env, v, n)
    ensures TakeTurn(v, Checked(env)(n), n, limits).Go? <==> GoesOn(entry, env, limits, n)
  {
    FailureTurn(env, n);
    ReportInTurn(entry, env, v, n);
    GoesOnIff(v, Checked(env)(n), n, limits);
  }

  lemma NextIsErring(entry: LoopVars, env: nat -> Turn, limits: Limits, v: LoopVars, n: nat)
    requires Erring(entry, env, v, n) && TakeTurn(v, Checked(env)(n), n, limits).Go?
    ensures Erring(entry, env, TakeTurn(v, Checked(env)(n), n, limits).next, n + 1)
  {
    FailureTurn(env, n);
    GoingOnStab(v, Checked(env)(n), n, limits);
  }

  lemma ReactionToError(c: Course, t: Turn, r: Report, loopCount: nat, n: nat)
    requires Fails(t.step) && !Achieves(t.step) && !Waits(t.step) && t.verdict == (if n < 2 then NoLoop else Rejected)
    requires ErrorAction(n, t.elapsed, r.action)
    ensures var e := React(c, t, r, loopCount).exit;
            e.Some? ==> e.value == if n + 1 >= 250 || (n < 2 && t.elapsed > 3600) then StabilityAbort
                                   else if n < 2 && loopCount >= 3 && !(n == 1 && t.plannerFails) then StepError
                                   else PlannerRaised
  {
  }

  lemma StopsInTurn(entry: LoopVars, env: nat -> Turn, limits: Limits, v: LoopVars, n: nat)
    requires Erring(entry, env, v, n) && TakeTurn(v, Checked(env)(n), n, limits).Stop?
    ensures TakeTurn(v, Checked(env)(n), n, limits).exit == ExitIn(entry, env, limits, n)
  {
    FailureTurn(env, n);
    ReportInTurn(entry, env, v, n);
    if Steps(entry, env, limits, n) && Pays(entry, env, limits, n) {
      StopsWithError(v, Checked(env)(n), n, limits);
    }
  }

  lemma StopsWithError(v: LoopVars, t: Turn, n: nat, limits: Limits)
    requires TakesStep(v, t, limits) && v.tokens + t.tokens < limits.maxTokens && TakeTurn(v, t, n, limits).Stop?
    requires Fails(t.step) && !Achieves(t.step) && !Waits(t.step) && t.verdict == (if n < 2 then NoLoop else Rejected)
    requires ErrorAction(n, t.elapsed, ReportOf(v.course, t).action)
    ensures TakeTurn(v, t, n, limits).exit
            == if n + 1 >= 250 || (n < 2 && t.elapsed > 3600) then StabilityAbort
               else if n < 2 && v.loopCount >= 2 && !(n == 1 && t.plannerFails) then StepError
               else PlannerRaised
  {
    var done := AfterStep(v, t, n);
    SameStabSameReport(v.course, done.course, t);
    ReactionToError(RecordStep(done.course, t), t, ReportOf(done.course, t), done.loopCount, n);
  }

  // ---------- The whole call ----------

  /** The call goes on after every turn before `n`, and not after that one. */
  ghost predicate EndsIn(entry: LoopVars, env: nat -> Turn, limits: Limits, n: nat) {
    !GoesOn(entry, env, limits, n) && forall m: nat | m < n :: GoesOn(entry, env, limits, m)
  }

  /** The run from turn `i` on ends in turn `n`. */
  predicate EndedIn(r: Run, entry: LoopVars, env: nat -> Turn, limits: Limits, i: nat, n: nat) {
    && r.exit == ExitIn(entry, env, limits, n)
    && |r.before| == n - i + if Steps(entry, env, limits, n) then 1 else 0
  }

  lemma OneMoreError(entry: LoopVars, env: nat -> Turn, limits: Limits, v: LoopVars, i: nat) returns (next: LoopVars)
    requires Erring(entry, env, v, i) && GoesOn(entry, env, limits, i)
    ensures Erring(entry, env, next, i + 1)
    ensures forall n :: EndedIn(RunFrom(next, Checked(env), i + 1, limits), entry, env, limits, i + 1, n)
                        ==> EndedIn(RunFrom(v, Checked(env), i, limits), entry, env, limits, i, n)
  {
    GoesOnInTurn(entry, env, limits, v, i);
    NextIsErring(entry, env, limits, v, i);
    RunUnfolds(v, Checked(env), i, limits);
    next := TakeTurn(v, Checked(env)(i), i, limits).next;
  }

  lemma TheLastError(entry: LoopVars, env: nat -> Turn, limits: Limits, v: LoopVars, i: nat)
    requires Erring(entry, env, v, i) && !GoesOn(entry, env, limits, i)
    ensures EndedIn(RunFrom(v, Checked(env), i, limits), entry, env, limits, i, i)
  {
    FailureTurn(env, i);
    GoesOnInTurn(entry, env, limits, v, i);
    StopsInTurn(entry, env, limits, v, i);
    RunUnfolds(v, Checked(env), i, limits);
  }

  lemma {:induction false} ErrorsFrom(entry: LoopVars, env: nat -> Turn, limits: Limits, v: LoopVars, i: nat) returns (n: nat)
    requires Erring(entry, env, v, i) && i < 250 && forall m: nat | m < i :: GoesOn(entry, env, limits, m)
    ensures i <= n < 250 && EndsIn(entry, env, limits, n)
    ensures EndedIn(RunFrom(v, Checked(env), i, limits), entry, env, limits, i, n)
    decreases 250 - i
  {
    if GoesOn(entry, env, limits, i) {
      var next := OneMoreError(entry, env, limits, v, i);
      n := ErrorsFrom(entry, env, limits, next, i + 1);
    } else {
      TheLastError(entry, env, limits, v, i);
      n := i;
    }
  }

  /** A call in which every step fails ends in the first turn after which it does not go on. */
  lemma ErrorsEnd(entry: LoopVars, env: nat -> Turn, limits: Limits) returns (n: nat)
    requires IsEntry(entry) && OnlyFailures(env)
    ensures n < 250 && EndsIn(entry, env, limits, n)
    ensures EndedIn(RunFrom(entry, Checked(env), 0, limits), entry, env, limits, 0, n)
  {
    n := ErrorsFrom(entry, env, limits, entry, 0);
  }

  lemma OneEnd(entry: LoopVars, env: nat -> Turn, limits: Limits, n: nat, m: nat)
    requires EndsIn(entry, env, limits, n) && EndsIn(entry, env, limits, m)
    ensures n == m
  {
  }

  // ---------- When an error ends it ----------

  /** The turn whose error can end the call: the first to reach the third loop. */
  function ThirdLoop(entry: LoopVars): nat {
    if entry.loopCount == 1 then 1 else 0
  }

  /** A call in which every step fails is ended by an error exactly if it does not begin at loop count zero, reaches the third
      loop, and takes a step there with tokens and time left and, if it is its second, a new plan. */
  lemma ErrorsEndItIff(entry: LoopVars, env: nat -> Turn, limits: Limits)
    requires IsEntry(entry) && OnlyFailures(env)
    ensures var n := ThirdLoop(entry);
            RunFrom(entry, Checked(env), 0, limits).exit == StepError <==>
              && entry.loopCount > 0 && (forall m: nat | m < n :: GoesOn(entry, env, limits, m))
              && Steps(entry, env, limits, n) && Pays(entry, env, limits, n)
              && env(n).elapsed <= 3600 && !(n == 1 && env(n).plannerFails)
  {
    var n := ThirdLoop(entry);
    var m := ErrorsEnd(entry, env, limits);
    if entry.loopCount > 0 && forall m: nat | m < n :: GoesOn(entry, env, limits, m) {
      assert !Withstands(entry, env, n);
      OneEnd(entry, env, limits, n, m);
    }
  }

  /** Nothing but errors goes wrong: no cancellation, no delay, no failing planner. */
  ghost predicate Undisturbed(env: nat -> Turn) {
    forall n: nat :: Calm(env(n))
  }

  predicate Calm(t: Turn) {
    !t.cancelled && t.elapsed <= 3600 && !t.plannerFails
  }

  /** Undisturbed, that is when it begins later than at zero, its loop limit leaves it a step and lets it reach the third
      loop, and it has the tokens for the one or two steps. */
  lemma UndisturbedErrorsEndItIff(entry: LoopVars, env: nat -> Turn, limits: Limits)
    requires IsEntry(entry) && OnlyFailures(env) && Undisturbed(env)
    ensures RunFrom(entry, Checked(env), 0, limits).exit == StepError <==>
              && entry.loopCount > 0 && limits.maxLoops >= Max(entry.loopCount + 1, 3)
              && entry.tokens + Used(env, ThirdLoop(entry) + 1) < limits.maxTokens
  {
    ErrorsEndItIff(entry, env, limits);
    assert Calm(env(0)) && Calm(env(1));
  }

  // ---------- When it ends as completed ----------

  /** Before turn `n` the loop limit is reached or the session cancelled, and nothing ended the call earlier. */
  predicate StopsAt(entry: LoopVars, env: nat -> Turn, limits: Limits, n: nat) {
    !Steps(entry, env, limits, n)
    && forall m: nat | m < n :: Pays(entry, env, limits, m) && Withstands(entry, env, m)
  }

  lemma FirstStop(entry: LoopVars, env: nat -> Turn, limits: Limits, n: nat, m: nat)
    requires EndsIn(entry, env, limits, n) && m < 250 && StopsAt(entry, env, limits, m)
    ensures !Steps(entry, env, limits, n)
  {
    assert m < n ==> GoesOn(entry, env, limits, m);
    if n < m { assert Pays(entry, env, limits, n) && Withstands(entry, env, n); }
  }

  /** A call in which every step fails ends as completed exactly if within its first 250 turns the loop limit is reached or the
      session cancelled, while the tokens last and the first two errors are withstood. Later errors never end it, even when its
      time is up or no plan can be made. */
  lemma ErrorsCompleteIff(entry: LoopVars, env: nat -> Turn, limits: Limits)
    requires IsEntry(entry) && OnlyFailures(env)
    ensures var r := RunFrom(entry, Checked(env), 0, limits);
            FinalStatus(r.exit, r.last.kept) == SCompleted <==> exists n: nat :: n < 250 && StopsAt(entry, env, limits, n)
  {
    var n := ErrorsEnd(entry, env, limits);
    NothingIsRecovered(entry, Checked(env), limits);
    if m: nat :| m < 250 && StopsAt(entry, env, limits, m) {
      FirstStop(entry, env, limits, n, m);
    }
    if !Steps(entry, env, limits, n) {
      forall m: nat | m < n ensures Pays(entry, env, limits, m) && Withstands(entry, env, m) {
        assert GoesOn(entry, env, limits, m);
      }
      assert StopsAt(entry, env, limits, n);
    }
  }

  lemma {:induction false} UsedGrows(env: nat -> Turn, m: nat, n: nat)
    requires m <= n
    ensures Used(env, m) <= Used(env, n)
  {
    if m < n { UsedGrows(env, m, n - 1); }
  }

  /** Undisturbed and begun at zero, that is when its loop limit is below 250 and its tokens last as long. */
  lemma UndisturbedErrorsCompleteIff(entry: LoopVars, env: nat -> Turn, limits: Limits)
    requires IsEntry(entry) && OnlyFailures(env) && Undisturbed(env) && entry.loopCount == 0
    ensures var r := RunFrom(entry, Checked(env), 0, limits);
            FinalStatus(r.exit, r.last.kept) == SCompleted <==>
              limits.maxLoops == 0 || (limits.maxLoops < 250 && entry.tokens + Used(env, limits.maxLoops) < limits.maxTokens)
  {
    ErrorsCompleteIff(entry, env, limits);
    var l := limits.maxLoops;
    forall n: nat ensures Withstands(entry, env, n) && (Steps(entry, env, limits, n) <==> n < l) { assert Calm(env(n)); }
    if n: nat :| n < 250 && StopsAt(entry, env, limits, n) {
      if l > 0 { assert Pays(entry, env, limits, l - 1); }
    }
    if l == 0 || (l < 250 && entry.tokens + Used(env, l) < limits.maxTokens) {
      forall m: nat | m < l ensures Pays(entry, env, limits, m) { UsedGrows(env, m + 1, l); }
      assert StopsAt(entry, env, limits, l);
    }
  }
}
