/** What every call of the run loop keeps, whatever its environment answers. */
module RunLoopTheorems {
  import opened Prelude
  import opened LoopStabilizer
  import opened StepResults
  import opened Verifier
  import opened RunLoop
  import opened RunTrace

  lemma RunIsACall(entry: LoopVars, env: nat -> Turn, limits: Limits)
    requires IsEntry(entry)
    ensures Call(RunFrom(entry, env, 0, limits), entry, env, limits)
  {
    RunIsATrace(entry, env, 0, limits);
  }

  // ---------- How long a call runs ----------

  lemma CallBound(r: Run, entry: LoopVars, env: nat -> Turn, limits: Limits)
    requires Call(r, entry, env, limits)
    ensures |r.before| <= 250 && |r.before| <= Max(0, limits.maxLoops - entry.loopCount)
    ensures r.exit == LoopLimit ==> limits.maxLoops < entry.loopCount + 250
  {
    if r.before != [] {
      var j := |r.before| - 1;
      HeadAt(r, entry, env, limits, j);
      if r.exit == LoopLimit && !Ended(r.before[j], env(j), r.exit, r.last, limits) {
        var w :| ClosesAt(r.before[j], env, j, limits, r.exit, r.last, w);
      }
    }
  }

  /** A call takes at most 250 steps, at most as many as its loop limit leaves, and leaves by the `while` guard only
      if the limit leaves fewer than 250. */
  lemma StepBound(entry: LoopVars, env: nat -> Turn, limits: Limits)
    requires IsEntry(entry)
    ensures var r := RunFrom(entry, env, 0, limits);
            && |r.before| <= 250 && |r.before| <= Max(0, limits.maxLoops - entry.loopCount)
            && (r.exit == LoopLimit ==> limits.maxLoops < entry.loopCount + 250)
  {
    RunIsACall(entry, env, limits);
    CallBound(RunFrom(entry, env, 0, limits), entry, env, limits);
  }

  /** Only the first step of a call can begin with its token budget used up. */
  lemma BudgetIsCheckedEveryStep(entry: LoopVars, env: nat -> Turn, limits: Limits, j: nat)
    requires IsEntry(entry) && 0 < j < |RunFrom(entry, env, 0, limits).before|
    ensures RunFrom(entry, env, 0, limits).before[j].tokens < limits.maxTokens
  {
    RunIsACall(entry, env, limits);
    HeadAt(RunFrom(entry, env, 0, limits), entry, env, limits, j);
  }

  /** No step but the last of a call achieves the goal, asks for approval, is found to be a loop, or fails at a loop
      count of three or more without the verifier's feedback. */
  lemma OnlyTheLastStepEnds(entry: LoopVars, env: nat -> Turn, limits: Limits, j: nat)
    requires IsEntry(entry) && j + 1 < |RunFrom(entry, env, 0, limits).before|
    ensures Survives(entry.loopCount, env(j), j)
  {
    RunIsACall(entry, env, limits);
    SurvivedAt(RunFrom(entry, env, 0, limits), entry, env, limits, j + 1);
  }

  // ---------- The verifier inside the loop ----------

  /** Among the verifier's own verdicts there is never a found loop. */
  lemma {:induction false} SeenHasNoTriple(env: nat -> Turn, n: nat)
    ensures NoTriple(Seen(env, n))
  {
    if n > 0 {
      SeenHasNoTriple(env, n - 1);
      NotedKeepsNoTriple(Seen(env, n - 1), DigestOf(env(n - 1).step));
    }
  }

  lemma NoLoopIsFound(env: nat -> Turn, n: nat)
    ensures Checked(env)(n).verdict != LoopFound
  {
    SeenHasNoTriple(env, n);
    NoTripleNoLoop(Seen(env, n), DigestOf(env(n).step));
  }

  lemma NeverLoopDetected(r: Run, entry: LoopVars, env: nat -> Turn, limits: Limits)
    requires Call(r, entry, env, limits) && forall n: nat :: env(n).verdict != LoopFound
    ensures r.exit != LoopDetected
  {
    if r.before != [] {
      var j := |r.before| - 1;
      if !Ended(r.before[j], env(j), r.exit, r.last, limits) {
        var w :| ClosesAt(r.before[j], env, j, limits, r.exit, r.last, w);
      }
    }
  }

  /** With the verifier's own verdicts no call ever ends because a loop is detected: a step that was seen twice in the last
      ten is rejected and not noted again. */
  lemma LoopDetectionIsDead(entry: LoopVars, env: nat -> Turn, limits: Limits)
    requires IsEntry(entry)
    ensures RunFrom(entry, Checked(env), 0, limits).exit != LoopDetected
  {
    forall n: nat ensures Checked(env)(n).verdict != LoopFound { NoLoopIsFound(env, n); }
    RunIsACall(entry, Checked(env), limits);
    NeverLoopDetected(RunFrom(entry, Checked(env), 0, limits), entry, Checked(env), limits);
  }

  // ---------- Leaving by the guard is possible below the limit of 250 ----------

  /** A quiet environment: every step succeeds and differs from the others. */
  function Quiet(i: nat): Turn {
    Turn(false, Performed("think", "", i, i, true, false), 0, 0, NoLoop, 0, 0, false, 0, 0, false)
  }

  lemma QuietIsBenign(k: nat, m: nat)
    ensures Benign(k, Checked(Quiet)(m), m)
  {
    NoLoopIsFound(Quiet, m);
    var s := Quiet(m).step;
    assert Get(s, KGoalAchieved) == Some(Flag(false)) && Get(s, KWaitingApproval) == None && Get(s, KError) == None;
  }

  lemma QuietEndsAtTheGuard(entry: LoopVars, limits: Limits)
    requires IsEntry(entry) && entry.tokens < limits.maxTokens && limits.maxLoops < entry.loopCount + 250
    ensures RunFrom(entry, Checked(Quiet), 0, limits).exit == LoopLimit
  {
    forall m: nat ensures Benign(entry.loopCount, Checked(Quiet)(m), m) { QuietIsBenign(entry.loopCount, m); }
    RunIsACall(entry, Checked(Quiet), limits);
    BenignEndsAtTheGuard(RunFrom(entry, Checked(Quiet), 0, limits), entry, Checked(Quiet), limits);
  }

  /** Some environment makes the call end at the `while` guard. */
  ghost predicate CanEndAtTheGuard(entry: LoopVars, limits: Limits) {
    exists env: nat -> Turn :: RunFrom(entry, Checked(env), 0, limits).exit == LoopLimit
  }

  lemma GuardAtOnce(entry: LoopVars, limits: Limits)
    requires limits.maxLoops <= entry.loopCount
    ensures RunFrom(entry, Checked(Quiet), 0, limits).exit == LoopLimit
  {
    RunUnfolds(entry, Checked(Quiet), 0, limits);
  }

  lemma NoTokensNoGuard(entry: LoopVars, env: nat -> Turn, limits: Limits)
    requires entry.loopCount < limits.maxLoops && entry.tokens >= limits.maxTokens
    ensures RunFrom(entry, env, 0, limits).exit != LoopLimit
  {
    RunUnfolds(entry, env, 0, limits);
  }

  /** A call can end at the `while` guard exactly when its loop limit leaves no step, or, with tokens left, fewer than 250. */
  lemma GuardIsReachableIff(entry: LoopVars, limits: Limits)
    requires IsEntry(entry)
    ensures CanEndAtTheGuard(entry, limits) <==>
              limits.maxLoops <= entry.loopCount
              || (entry.tokens < limits.maxTokens && limits.maxLoops < entry.loopCount + 250)
  {
    if limits.maxLoops <= entry.loopCount {
      GuardAtOnce(entry, limits);
    } else if entry.tokens < limits.maxTokens && limits.maxLoops < entry.loopCount + 250 {
      QuietEndsAtTheGuard(entry, limits);
    }
    if CanEndAtTheGuard(entry, limits) {
      var env: nat -> Turn :| RunFrom(entry, Checked(env), 0, limits).exit == LoopLimit;
      StepBound(entry, Checked(env), limits);
      if limits.maxLoops > entry.loopCount && entry.tokens >= limits.maxTokens { NoTokensNoGuard(entry, Checked(env), limits); }
    }
  }

  // ---------- The stabiliser inside the loop ----------

  lemma NoEscalationAt(k: nat, v: LoopVars, t: Turn, i: nat, limits: Limits)
    requires AtHead(k, v, i, limits)
    ensures ReportOf(v.course, t).action != Escalate
  {
    if ReportOf(v.course, t).action == Escalate {
      EscalationNeedsRevisions(Standard, Record(v.course.stab, RecordOf(t.step)), Confidence(t.verdict), t.elapsed);
    }
  }

  /** Escalation is dead code: the loop never records a plan revision with its stabiliser. */
  lemma NeverEscalates(entry: LoopVars, env: nat -> Turn, limits: Limits, j: nat)
    requires IsEntry(entry) && j < |RunFrom(entry, env, 0, limits).before|
    ensures ReportOf(RunFrom(entry, env, 0, limits).before[j].course, env(j)).action != Escalate
  {
    var r := RunFrom(entry, env, 0, limits);
    RunIsACall(entry, env, limits);
    HeadAt(r, entry, env, limits, j);
    NoEscalationAt(entry.loopCount, r.before[j], env(j), j, limits);
  }

  // ---------- Rollback ----------

  /** What turn `j` has done when the stabiliser's report is heeded. */
  function DoneIn(v: LoopVars, t: Turn, j: nat): Course {
    RecordStep(AfterStep(v, t, j).course, t)
  }

  lemma CallRollsBack(r: Run, entry: LoopVars, env: nat -> Turn, limits: Limits, j: nat)
    requires Call(r, entry, env, limits) && j < |r.before|
    ensures var done, c := DoneIn(r.before[j], env(j), j), r.before[j].course.stab.lastCheckpointIteration;
            && (c == 0 ==> j < 5 && RollBack(done) == done)
            && c == j - j % 5 && (c > 0 ==> RollBack(done) == RestoredTo(done, r.before[c].course))
  {
    EverySaved(r, entry, env, limits, j);
    HeadAt(r, entry, env, limits, j);
    var c := r.before[j].course.stab.lastCheckpointIteration;
    if c > 0 { RollBackRestores(r.before[j], env(j), j, r.before[c].course, c); }
  }

  /** A rollback after turn `j` restores the context, and the last five history entries, that the loop had before the last turn up to
      it that is a multiple of five; within the first five turns there is nothing to restore. */
  lemma RollbackGoesBackAtMostFiveTurns(entry: LoopVars, env: nat -> Turn, limits: Limits, j: nat)
    requires IsEntry(entry) && j < |RunFrom(entry, env, 0, limits).before|
    ensures var before := RunFrom(entry, env, 0, limits).before;
            var done, c := DoneIn(before[j], env(j), j), before[j].course.stab.lastCheckpointIteration;
            && (c == 0 ==> j < 5 && RollBack(done) == done)
            && c == j - j % 5 && (c > 0 ==> RollBack(done) == RestoredTo(done, before[c].course))
  {
    RunIsACall(entry, env, limits);
    CallRollsBack(RunFrom(entry, env, 0, limits), entry, env, limits, j);
  }

  /** `course` with the context and the last five history entries of `saved`. */
  function RestoredTo(course: Course, saved: Course): Course {
    course.(context := saved.context, history := LastN(saved.history, 5))
  }

  lemma LastOfLast<T>(s: seq<T>)
    ensures LastN(LastN(s, 10), 5) == LastN(s, 5)
  {
  }

  lemma RollBackRestores(v: LoopVars, t: Turn, i: nat, saved: Course, c: nat)
    requires SavedFrom(v.course, saved, c)
    ensures var done := RecordStep(AfterStep(v, t, i).course, t); RollBack(done) == RestoredTo(done, saved)
  {
    LastOfLast(saved.history);
  }

  // ---------- Endings that do not say what happened ----------

  /** A session cancelled between steps leaves the loop and is then marked completed. */
  lemma CancelledIsMarkedCompleted(v: LoopVars, env: nat -> Turn, i: nat, limits: Limits)
    requires v.loopCount < limits.maxLoops && env(i).cancelled
    ensures RunFrom(v, env, i, limits) == Run([], Cancelled, v) && FinalStatus(Cancelled, v.kept) == SCompleted
  {
    RunUnfolds(v, env, i, limits);
  }

  lemma DeliverableSnoc(kept: seq<KeptStep>, s: KeptStep)
    ensures HasDeliverable(kept + [s]) <==> HasDeliverable(kept) || IsDeliverable(s)
  {
    var all := kept + [s];
    if i :| 0 <= i < |kept| && IsDeliverable(kept[i]) { assert all[i] == kept[i]; }
    if IsDeliverable(s) { assert all[|kept|] == s; }
  }

  lemma {:induction false} NoneIsDeliverable(env: nat -> Turn, n: nat)
    ensures !HasDeliverable(KeptOf(env, n))
  {
    if n > 0 {
      NoneIsDeliverable(env, n - 1);
      KeptIsUnknown(env(n - 1).step);
      DeliverableSnoc(KeptOf(env, n - 1), Keep(env(n - 1).step));
    }
  }

  lemma CallRecoversNothing(r: Run, entry: LoopVars, env: nat -> Turn, limits: Limits)
    requires Call(r, entry, env, limits)
    ensures r.last.kept == KeptOf(env, |r.before|) && !HasDeliverable(r.last.kept)
    ensures FinalStatus(r.exit, r.last.kept) == SCompleted <==> r.exit in {Cancelled, LoopLimit, GoalAchieved}
  {
    EveryStepIsKept(r, entry, env, limits);
    NoneIsDeliverable(env, |r.before|);
    StatusWithoutDeliverable(r.exit, r.last.kept);
  }

  /** Whatever tools succeed in a call, nothing to deliver is found in what it keeps; so it ends as completed only by its
      goal, by the guard, or by cancellation. */
  lemma NothingIsRecovered(entry: LoopVars, env: nat -> Turn, limits: Limits)
    requires IsEntry(entry)
    ensures var r := RunFrom(entry, env, 0, limits);
            && r.last.kept == KeptOf(env, |r.before|) && !HasDeliverable(r.last.kept)
            && (FinalStatus(r.exit, r.last.kept) == SCompleted <==> r.exit in {Cancelled, LoopLimit, GoalAchieved})
  {
    RunIsACall(entry, env, limits);
    CallRecoversNothing(RunFrom(entry, env, 0, limits), entry, env, limits);
  }

  lemma StatusWithoutDeliverable(e: Exit, kept: seq<KeptStep>)
    requires !HasDeliverable(kept)
    ensures FinalStatus(e, kept) == SCompleted <==> e in {Cancelled, LoopLimit, GoalAchieved}
  {
  }

  /** What a deliverable would change: a session that is cut off would count as completed, unless it has used up its tokens or waits. */
  lemma RecoveredIsCompleted(e: Exit, kept: seq<KeptStep>)
    requires HasDeliverable(kept)
    ensures FinalStatus(e, kept) == SCompleted <==> e != TokenBudget && e != WaitingApproval
    ensures FinalStatus(e, kept) == SWaiting <==> e == WaitingApproval
  {
  }

  /** What would be kept if the action were read under the key that step results have. */
  function KeepByAction(r: StepResult): KeptStep {
    Keep(r).(action := TextAt(r, KAction, "unknown"))
  }

  function KeptByAction(env: nat -> Turn, n: nat): (r: seq<KeptStep>)
    ensures |r| == n
  {
    if n == 0 then [] else KeptByAction(env, n - 1) + [KeepByAction(env(n - 1).step)]
  }

  ghost predicate PodcastBefore(env: nat -> Turn, n: nat) {
    exists j: nat | j < n :: FinishedPodcast(env(j).step)
  }

  lemma PodcastSnoc(env: nat -> Turn, n: nat)
    ensures PodcastBefore(env, n + 1) <==> PodcastBefore(env, n) || FinishedPodcast(env(n).step)
  {
  }

  /** Then a call would be saved exactly by a step that finished the podcast. */
  lemma {:induction false} RecoverableIff(env: nat -> Turn, n: nat)
    ensures HasDeliverable(KeptByAction(env, n)) <==> PodcastBefore(env, n)
  {
    if n > 0 {
      var r := env(n - 1).step;
      RecoverableIff(env, n - 1);
      PodcastSnoc(env, n - 1);
      ReadUnderActionIff(r);
      DeliverableSnoc(KeptByAction(env, n - 1), KeepByAction(r));
    }
  }
}
