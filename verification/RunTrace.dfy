/** One turn of the run loop as far as it is counted, and a call as a trace of such turns. */
module RunTrace {
  import opened Prelude
  import opened LoopStabilizer
  import opened StepResults
  import opened Verifier
  import opened RunLoop

  /** The variables with which a call begins. */
  predicate IsEntry(v: LoopVars) {
    v == Entry(v.loopCount, v.tokens, v.course.context, v.course.history, v.course.plan)
  }

  // ---------- What lets a call go on ----------

  /** The loop goes on after a turn exactly if nothing, in any order, was a reason to end it. */
  lemma GoesOnIff(v: LoopVars, t: Turn, i: nat, limits: Limits)
    ensures TakeTurn(v, t, i, limits).Go? <==>
              && v.loopCount < limits.maxLoops && !t.cancelled && v.tokens + t.tokens < limits.maxTokens
              && ReportOf(v.course, t).action != Abort && t.verdict != LoopFound
              && !(ReportOf(v.course, t).action == Escalate && t.supervisorAborts)
              && !(ReportOf(v.course, t).action == Replan && t.plannerFails)
              && !Achieves(t.step) && !Waits(t.step)
              && (Fails(t.step) && t.verdict == NoLoop ==> v.loopCount < 2 && !t.plannerFails)
  {
    if TakesStep(v, t, limits) { ProceedGoesOnIff(v, t, i, limits); }
  }

  lemma ProceedGoesOnIff(v: LoopVars, t: Turn, i: nat, limits: Limits)
    ensures Proceed(v, t, i, limits).Go? <==>
              && v.tokens + t.tokens < limits.maxTokens
              && ReportOf(v.course, t).action != Abort && t.verdict != LoopFound
              && !(ReportOf(v.course, t).action == Escalate && t.supervisorAborts)
              && !(ReportOf(v.course, t).action == Replan && t.plannerFails)
              && !Achieves(t.step) && !Waits(t.step)
              && (Fails(t.step) && t.verdict == NoLoop ==> v.loopCount < 2 && !t.plannerFails)
  {
    var done := AfterStep(v, t, i);
    SameStabSameReport(v.course, done.course, t);
    ReactGoesOnIff(RecordStep(done.course, t), t, ReportOf(done.course, t), done.loopCount);
  }

  lemma ReactGoesOnIff(c: Course, t: Turn, r: Report, loopCount: nat)
    ensures React(c, t, r, loopCount).exit == None <==>
              && r.action != Abort && t.verdict != LoopFound && !(r.action == Escalate && t.supervisorAborts)
              && !(r.action == Replan && t.plannerFails) && !Achieves(t.step) && !Waits(t.step)
              && (Fails(t.step) && t.verdict == NoLoop ==> loopCount < 3 && !t.plannerFails)
  {
  }

  /** The step of a turn that begins at `loopCount` gives no reason to end the call. */
  predicate Spared(loopCount: nat, t: Turn) {
    && !Achieves(t.step) && !Waits(t.step) && t.verdict != LoopFound
    && (Fails(t.step) && t.verdict == NoLoop ==> loopCount < 2)
  }

  predicate TakesStep(v: LoopVars, t: Turn, limits: Limits) {
    v.loopCount < limits.maxLoops && !t.cancelled
  }

  /** Nothing else ends the call after this turn either: no tokens, no limit, no delay and no trouble with a new plan. */
  predicate Unhindered(v: LoopVars, t: Turn, limits: Limits) {
    && v.tokens + t.tokens < limits.maxTokens && v.course.stab.iteration + 1 < Standard.maxIterations
    && t.elapsed <= 3600 && !t.plannerFails && !t.supervisorAborts && Spared(v.loopCount, t)
  }

  /** The stabiliser has the step recorded, and perhaps a checkpoint saved. */
  ghost predicate RecordedIn(before: LoopState, t: Turn, after: LoopState) {
    && after.(lastCheckpoint := before.lastCheckpoint, lastCheckpointIteration := before.lastCheckpointIteration)
       == Record(before, RecordOf(t.step))
    && after.lastCheckpointIteration
       == (if ShouldCheckpoint(Record(before, RecordOf(t.step))) then before.iteration + 1 else before.lastCheckpointIteration)
  }

  /** The latest checkpoint of `course` holds what `saved` has. */
  ghost predicate SavedFrom(course: Course, saved: Course, c: nat) {
    exists plan :: Latest(course.stab, course.checkpoints)
                   == Some(Checkpoint(c, saved.context, LastN(saved.history, 10), plan))
  }

  /** A turn saves a checkpoint of how it ends, or leaves the latest one alone. */
  ghost predicate SavedIn(before: Course, t: Turn, after: Course) {
    if ShouldCheckpoint(Record(before.stab, RecordOf(t.step)))
    then after.stab.lastCheckpoint.Some? && SavedFrom(after, after, before.stab.iteration + 1)
    else Latest(after.stab, after.checkpoints) == Latest(before.stab, before.checkpoints)
         && after.stab.lastCheckpoint == before.stab.lastCheckpoint
  }

  /** What a turn that goes on leaves. */
  ghost predicate WentOn(v: LoopVars, t: Turn, n: LoopVars, limits: Limits) {
    && TakesStep(v, t, limits) && n.loopCount == v.loopCount + 1
    && n.tokens == v.tokens + t.tokens < limits.maxTokens && n.kept == v.kept + [Keep(t.step)]
    && RecordedIn(v.course.stab, t, n.course.stab) && SavedIn(v.course, t, n.course)
    && v.course.stab.iteration + 1 < Standard.maxIterations && Spared(v.loopCount, t)
  }

  predicate TokensLeft(v: LoopVars, t: Turn, limits: Limits) {
    v.tokens + t.tokens < limits.maxTokens
  }

  /** How a turn that ends the call leaves it. */
  ghost predicate Ended(v: LoopVars, t: Turn, exit: Exit, last: LoopVars, limits: Limits) {
    && (exit == LoopLimit <==> v.loopCount >= limits.maxLoops) && (exit == LoopLimit ==> last == v)
    && last.kept == (if TakesStep(v, t, limits) then v.kept + [Keep(t.step)] else v.kept)
    && (exit == LoopDetected ==> t.verdict == LoopFound) && (exit == WaitingApproval ==> TakesStep(v, t, limits) && Waits(t.step))
    && (TakesStep(v, t, limits) ==> !Unhindered(v, t, limits))
    && (TakesStep(v, t, limits) && TokensLeft(v, t, limits) && v.course.stab.iteration + 1 >= Standard.maxIterations
        ==> exit == StabilityAbort)
  }

  lemma HeedKeeps(c: Course, t: Turn, r: Report)
    ensures Heed(c, t, r).stab == c.stab && Heed(c, t, r).checkpoints == c.checkpoints
  {
  }

  /** A turn that goes on leaves the stabiliser with the step recorded, and perhaps a checkpoint saved. */
  lemma GoingOnStab(v: LoopVars, t: Turn, i: nat, limits: Limits)
    requires TakeTurn(v, t, i, limits).Go?
    ensures var before, n := v.course.stab, TakeTurn(v, t, i, limits).next;
            && n.course.stab.(lastCheckpoint := before.lastCheckpoint, lastCheckpointIteration := before.lastCheckpointIteration)
               == Record(before, RecordOf(t.step))
            && n.course.stab.lastCheckpointIteration
               == (if ShouldCheckpoint(Record(before, RecordOf(t.step))) then before.iteration + 1
                   else before.lastCheckpointIteration)
            && n.loopCount == v.loopCount + 1 && n.tokens == v.tokens + t.tokens && n.tokens < limits.maxTokens
            && n.kept == v.kept + [Keep(t.step)]
  {
    HeedKeeps(RecordStep(AfterStep(v, t, i).course, t), t, ReportOf(AfterStep(v, t, i).course, t));
  }

  lemma ConcludeKeeps(c: Course, t: Turn, loopCount: nat)
    ensures var n := Conclude(c, t, loopCount).course;
            n.context == c.context && n.history == c.history && n.stab == c.stab && n.checkpoints == c.checkpoints
  {
  }

  lemma SaveSaves(c: Course, time: int)
    ensures var n := SaveCheckpoint(c, time);
            if ShouldCheckpoint(c.stab)
            then n.stab.lastCheckpoint.Some? && n.context == c.context && n.history == c.history
                 && Latest(n.stab, n.checkpoints) == Some(Checkpoint(c.stab.iteration, c.context, LastN(c.history, 10), c.plan))
            else n == c
  {
  }

  /** A turn that goes on leaves the latest checkpoint alone or saves one of how it ends. */
  lemma GoingOnSaves(v: LoopVars, t: Turn, i: nat, limits: Limits)
    requires TakeTurn(v, t, i, limits).Go?
    ensures SavedIn(v.course, t, TakeTurn(v, t, i, limits).next.course)
  {
    var done, loopCount := RecordStep(AfterStep(v, t, i).course, t), v.loopCount + 1;
    var heeded := Heed(done, t, ReportOf(AfterStep(v, t, i).course, t));
    HeedKeeps(done, t, ReportOf(AfterStep(v, t, i).course, t));
    SaveSaves(heeded, t.time);
    ConcludeKeeps(SaveCheckpoint(heeded, t.time), t, loopCount);
    assert TakeTurn(v, t, i, limits).next.course == Conclude(SaveCheckpoint(heeded, t.time), t, loopCount).course;
  }

  lemma GoingOnIsNotAborted(v: LoopVars, t: Turn, i: nat, limits: Limits)
    requires TakeTurn(v, t, i, limits).Go?
    ensures v.course.stab.iteration + 1 < Standard.maxIterations
  {
    var s := Record(v.course.stab, RecordOf(t.step));
    if s.iteration >= Standard.maxIterations { LimitAborts(Standard, s, Confidence(t.verdict), t.elapsed); }
  }

  lemma GoingOnWent(v: LoopVars, t: Turn, i: nat, limits: Limits)
    requires TakeTurn(v, t, i, limits).Go?
    ensures WentOn(v, t, TakeTurn(v, t, i, limits).next, limits)
  {
    GoingOnStab(v, t, i, limits);
    GoingOnSaves(v, t, i, limits);
    GoingOnIsNotAborted(v, t, i, limits);
    GoesOnIff(v, t, i, limits);
  }

  lemma UnhinderedGoesOn(v: LoopVars, t: Turn, i: nat, limits: Limits)
    requires TakesStep(v, t, limits) && Unhindered(v, t, limits)
    ensures TakeTurn(v, t, i, limits).Go?
  {
    var s := Record(v.course.stab, RecordOf(t.step));
    if ReportOf(v.course, t).action == Abort { AbortIsALimit(Standard, s, Confidence(t.verdict), t.elapsed); }
    GoesOnIff(v, t, i, limits);
  }

  lemma AtTheLimitAborts(v: LoopVars, t: Turn, i: nat, limits: Limits)
    requires TakesStep(v, t, limits) && v.tokens + t.tokens < limits.maxTokens
    requires v.course.stab.iteration + 1 >= Standard.maxIterations
    ensures TakeTurn(v, t, i, limits).Stop? && TakeTurn(v, t, i, limits).exit == StabilityAbort
  {
    LimitAborts(Standard, Record(v.course.stab, RecordOf(t.step)), Confidence(t.verdict), t.elapsed);
  }

  lemma ReactExits(c: Course, t: Turn, r: Report, loopCount: nat)
    ensures React(c, t, r, loopCount).exit != Some(LoopLimit)
    ensures React(c, t, r, loopCount).exit == Some(LoopDetected) ==> t.verdict == LoopFound
    ensures React(c, t, r, loopCount).exit == Some(WaitingApproval) ==> Waits(t.step)
  {
  }

  lemma ProceedKeeps(v: LoopVars, t: Turn, i: nat, limits: Limits)
    requires Proceed(v, t, i, limits).Stop?
    ensures var o := Proceed(v, t, i, limits);
            && o.exit != LoopLimit && o.last.kept == v.kept + [Keep(t.step)]
            && (o.exit == LoopDetected ==> t.verdict == LoopFound) && (o.exit == WaitingApproval ==> Waits(t.step))
  {
    var done := AfterStep(v, t, i);
    ReactExits(RecordStep(done.course, t), t, ReportOf(done.course, t), done.loopCount);
  }

  lemma StoppingKeeps(v: LoopVars, t: Turn, i: nat, limits: Limits)
    requires TakeTurn(v, t, i, limits).Stop?
    ensures var o := TakeTurn(v, t, i, limits);
            && (o.exit == LoopLimit <==> v.loopCount >= limits.maxLoops) && (o.exit == LoopLimit ==> o.last == v)
            && o.last.kept == (if TakesStep(v, t, limits) then v.kept + [Keep(t.step)] else v.kept)
            && (o.exit == LoopDetected ==> t.verdict == LoopFound) && (o.exit == WaitingApproval ==> TakesStep(v, t, limits) && Waits(t.step))
  {
    if TakesStep(v, t, limits) { ProceedKeeps(v, t, i, limits); }
  }

  lemma StoppingEnded(v: LoopVars, t: Turn, i: nat, limits: Limits)
    requires TakeTurn(v, t, i, limits).Stop?
    ensures Ended(v, t, TakeTurn(v, t, i, limits).exit, TakeTurn(v, t, i, limits).last, limits)
  {
    StoppingKeeps(v, t, i, limits);
    if TakesStep(v, t, limits) {
      if Unhindered(v, t, limits) { UnhinderedGoesOn(v, t, i, limits); }
      if v.tokens + t.tokens < limits.maxTokens && v.course.stab.iteration + 1 >= Standard.maxIterations {
        AtTheLimitAborts(v, t, i, limits);
      }
    }
  }

  // ---------- A call as a trace ----------

  /** The turn of `v` ends the call, or goes on to variables that take no further step. */
  ghost predicate Closes(v: LoopVars, env: nat -> Turn, i: nat, limits: Limits, exit: Exit, last: LoopVars) {
    Ended(v, env(i), exit, last, limits) || exists w :: ClosesAt(v, env, i, limits, exit, last, w)
  }

  ghost predicate ClosesAt(v: LoopVars, env: nat -> Turn, i: nat, limits: Limits, exit: Exit, last: LoopVars, w: LoopVars) {
    WentOn(v, env(i), w, limits) && !TakesStep(w, env(i + 1), limits) && Ended(w, env(i + 1), exit, last, limits)
  }

  /** A run from `v` and turn `i` on, turn by turn. */
  ghost predicate Trace(r: Run, v: LoopVars, env: nat -> Turn, i: nat, limits: Limits) {
    && (r.before == [] ==> !TakesStep(v, env(i), limits) && Ended(v, env(i), r.exit, r.last, limits))
    && (r.before != [] ==>
          && r.before[0] == v && Closes(r.before[|r.before| - 1], env, i + |r.before| - 1, limits, r.exit, r.last)
          && StepsTaken(r.before, env, i, limits) && Linked(r.before, env, i, limits))
  }

  ghost predicate StepsTaken(before: seq<LoopVars>, env: nat -> Turn, i: nat, limits: Limits) {
    forall j: nat | j < |before| :: TakesAt(before, env, i, limits, j)
  }

  predicate TakesAt(before: seq<LoopVars>, env: nat -> Turn, i: nat, limits: Limits, j: nat)
    requires j < |before|
  {
    TakesStep(before[j], env(i + j), limits)
  }

  ghost predicate Linked(before: seq<LoopVars>, env: nat -> Turn, i: nat, limits: Limits) {
    forall j: nat | j + 1 < |before| :: LinkedAt(before, env, i, limits, j)
  }

  ghost predicate LinkedAt(before: seq<LoopVars>, env: nat -> Turn, i: nat, limits: Limits, j: nat)
    requires j + 1 < |before|
  {
    WentOn(before[j], env(i + j), before[j + 1], limits)
  }

  lemma TraceOfOne(v: LoopVars, env: nat -> Turn, i: nat, limits: Limits, exit: Exit, last: LoopVars)
    requires Ended(v, env(i), exit, last, limits)
    ensures Trace(Run(if TakesStep(v, env(i), limits) then [v] else [], exit, last), v, env, i, limits)
  {
  }

  lemma StepsCons(v: LoopVars, env: nat -> Turn, i: nat, limits: Limits, rest: seq<LoopVars>)
    requires TakesStep(v, env(i), limits) && StepsTaken(rest, env, i + 1, limits)
    ensures StepsTaken([v] + rest, env, i, limits)
  {
    forall j: nat | j < |rest| + 1 ensures TakesAt([v] + rest, env, i, limits, j) {
      if j > 0 { assert TakesAt(rest, env, i + 1, limits, j - 1); }
    }
  }

  lemma LinkedLater(v: LoopVars, env: nat -> Turn, i: nat, limits: Limits, rest: seq<LoopVars>, j: nat)
    requires j + 1 < |rest| && LinkedAt(rest, env, i + 1, limits, j)
    ensures LinkedAt([v] + rest, env, i, limits, j + 1)
  {
    assert i + 1 + j == i + (j + 1);
    assert ([v] + rest)[j + 1] == rest[j] && ([v] + rest)[j + 1 + 1] == rest[j + 1];
  }

  lemma LinkedCons(v: LoopVars, env: nat -> Turn, i: nat, limits: Limits, rest: seq<LoopVars>)
    requires rest != [] && WentOn(v, env(i), rest[0], limits) && Linked(rest, env, i + 1, limits)
    ensures Linked([v] + rest, env, i, limits)
  {
    forall j: nat | j + 1 < |rest| + 1 ensures LinkedAt([v] + rest, env, i, limits, j) {
      if j > 0 { LinkedLater(v, env, i, limits, rest, j - 1); }
    }
  }

  lemma TraceOfTwo(v: LoopVars, env: nat -> Turn, i: nat, limits: Limits, n: LoopVars, exit: Exit, last: LoopVars)
    requires WentOn(v, env(i), n, limits) && !TakesStep(n, env(i + 1), limits) && Ended(n, env(i + 1), exit, last, limits)
    ensures Trace(Run([v], exit, last), v, env, i, limits)
  {
    assert ClosesAt(v, env, i, limits, exit, last, n);
    assert TakesAt([v], env, i, limits, 0);
  }

  lemma ClosesLater(r: Run, v: LoopVars, env: nat -> Turn, i: nat, limits: Limits)
    requires r.before != [] && Trace(r, v, env, i + 1, limits)
    ensures Closes(r.before[|r.before| - 1], env, i + |r.before|, limits, r.exit, r.last)
  {
  }

  lemma TraceCons(before: seq<LoopVars>, env: nat -> Turn, i: nat, limits: Limits, exit: Exit, last: LoopVars)
    requires |before| > 1 && StepsTaken(before, env, i, limits) && Linked(before, env, i, limits)
    requires Closes(before[|before| - 1], env, i + |before| - 1, limits, exit, last)
    ensures Trace(Run(before, exit, last), before[0], env, i, limits)
  {
  }

  lemma TraceGrows(v: LoopVars, env: nat -> Turn, i: nat, limits: Limits, n: LoopVars, rest: Run)
    requires rest.before != [] && WentOn(v, env(i), n, limits) && Trace(rest, n, env, i + 1, limits)
    ensures Trace(Run([v] + rest.before, rest.exit, rest.last), v, env, i, limits)
  {
    StepsCons(v, env, i, limits, rest.before);
    LinkedCons(v, env, i, limits, rest.before);
    ClosesLater(rest, n, env, i, limits);
    TraceCons([v] + rest.before, env, i, limits, rest.exit, rest.last);
  }

  lemma TraceGoesBack(v: LoopVars, env: nat -> Turn, i: nat, limits: Limits, n: LoopVars, rest: Run)
    requires WentOn(v, env(i), n, limits) && Trace(rest, n, env, i + 1, limits)
    ensures Trace(Run([v] + rest.before, rest.exit, rest.last), v, env, i, limits)
  {
    if rest.before == [] {
      TraceOfTwo(v, env, i, limits, n, rest.exit, rest.last);
      assert [v] + rest.before == [v];
    } else {
      TraceGrows(v, env, i, limits, n, rest);
    }
  }

  lemma {:induction false} RunIsATrace(v: LoopVars, env: nat -> Turn, i: nat, limits: Limits)
    ensures Trace(RunFrom(v, env, i, limits), v, env, i, limits)
    decreases limits.maxLoops - v.loopCount
  {
    RunUnfolds(v, env, i, limits);
    var o := TakeTurn(v, env(i), i, limits);
    if o.Go? {
      GoMeansStepped(v, env(i), i, limits);
      GoingOnWent(v, env(i), i, limits);
      RunIsATrace(o.next, env, i + 1, limits);
      TraceGoesBack(v, env, i, limits, o.next, RunFrom(o.next, env, i + 1, limits));
    } else {
      StoppingEnded(v, env(i), i, limits);
      TraceOfOne(v, env, i, limits, o.exit, o.last);
    }
  }

  /** `r` is a call, from its entry to its end. */
  ghost predicate Call(r: Run, entry: LoopVars, env: nat -> Turn, limits: Limits) {
    IsEntry(entry) && Trace(r, entry, env, 0, limits)
  }

  /** One turn of a call. */
  lemma CallStep(r: Run, entry: LoopVars, env: nat -> Turn, limits: Limits, j: nat)
    requires Call(r, entry, env, limits) && 0 < j < |r.before|
    ensures WentOn(r.before[j - 1], env(j - 1), r.before[j], limits)
  {
    assert LinkedAt(r.before, env, 0, limits, j - 1);
  }

  /** What one turn of a call adds up. */
  lemma CallAdds(r: Run, entry: LoopVars, env: nat -> Turn, limits: Limits, j: nat)
    requires Call(r, entry, env, limits) && 0 < j < |r.before|
    ensures r.before[j].tokens == r.before[j - 1].tokens + env(j - 1).tokens
    ensures r.before[j].kept == r.before[j - 1].kept + [Keep(env(j - 1).step)]
  {
    CallStep(r, entry, env, limits, j);
  }

  /** The step `t` is added to what the stabiliser has recorded. */
  ghost predicate Grown(s: LoopState, t: Turn, n: LoopState) {
    && n.progressHistory == s.progressHistory + [ProgressOf(t.step)]
    && n.stepHashes == s.stepHashes + [HashOf(t.step)]
    && n.consecutiveErrors == if Fails(t.step) then s.consecutiveErrors + 1 else 0
  }

  lemma RecordedIsGrown(s: LoopState, t: Turn, n: LoopState)
    requires RecordedIn(s, t, n)
    ensures Grown(s, t, n)
  {
  }

  /** One turn of a call as its stabiliser sees it. */
  lemma CallRecords(r: Run, entry: LoopVars, env: nat -> Turn, limits: Limits, j: nat)
    requires Call(r, entry, env, limits) && 0 < j < |r.before|
    ensures Grown(r.before[j - 1].course.stab, env(j - 1), r.before[j].course.stab)
    ensures Spared(r.before[j - 1].loopCount, env(j - 1))
  {
    CallStep(r, entry, env, limits, j);
    RecordedIsGrown(r.before[j - 1].course.stab, env(j - 1), r.before[j].course.stab);
  }

  // ---------- At the head of the loop ----------

  /** Before turn `i` of a call entered at loop count `k`. */
  ghost predicate AtHead(k: nat, v: LoopVars, i: nat, limits: Limits) {
    && v.loopCount == k + i && v.course.stab.iteration == i < Standard.maxIterations
    && v.course.stab.planRevisions == 0
    && v.course.stab.lastCheckpointIteration == i - i % 5
    && (i > 0 ==> v.tokens < limits.maxTokens)
  }

  /** A turn that goes on has made too little progress for a checkpoint of its own: one is saved at every fifth turn. */
  lemma EveryFifthIsSaved(s: LoopState, t: Turn, i: nat)
    requires s.iteration == i && s.lastCheckpointIteration == i - i % 5 && !Achieves(t.step)
    ensures ShouldCheckpoint(Record(s, RecordOf(t.step))) <==> (i + 1) % 5 == 0
  {
    var p := Record(s, RecordOf(t.step)).progressHistory;
    assert p[|p| - 1] == ProgressOf(t.step) <= 1;
  }

  lemma WentKeepsHead(k: nat, v: LoopVars, t: Turn, n: LoopVars, i: nat, limits: Limits)
    requires AtHead(k, v, i, limits) && WentOn(v, t, n, limits)
    ensures AtHead(k, n, i + 1, limits)
  {
    EveryFifthIsSaved(v.course.stab, t, i);
  }

  lemma HeadNext(r: Run, entry: LoopVars, env: nat -> Turn, limits: Limits, j: nat)
    requires Call(r, entry, env, limits) && 0 < j < |r.before| && AtHead(entry.loopCount, r.before[j - 1], j - 1, limits)
    ensures AtHead(entry.loopCount, r.before[j], j, limits)
  {
    CallStep(r, entry, env, limits, j);
    WentKeepsHead(entry.loopCount, r.before[j - 1], env(j - 1), r.before[j], j - 1, limits);
  }

  lemma {:induction false} HeadAt(r: Run, entry: LoopVars, env: nat -> Turn, limits: Limits, j: nat)
    requires Call(r, entry, env, limits) && j < |r.before|
    ensures AtHead(entry.loopCount, r.before[j], j, limits) && TakesStep(r.before[j], env(j), limits)
  {
    assert TakesAt(r.before, env, 0, limits, j);
    if j > 0 {
      HeadAt(r, entry, env, limits, j - 1);
      HeadNext(r, entry, env, limits, j);
    }
  }

  // ---------- The stabiliser's records ----------

  /** In turn `n` of a call entered at `k`, the step alone gives no reason to end the call. */
  predicate Survives(k: nat, t: Turn, n: nat) {
    Spared(k + n, t)
  }

  /** All turns before `n` were survived. */
  ghost predicate AllSurvive(k: nat, env: nat -> Turn, n: nat) {
    forall m: nat | m < n :: Survives(k, env(m), m)
  }

  /** The errors in a row up to turn `n`, not included. */
  function Trailing(env: nat -> Turn, n: nat): nat {
    if n == 0 then 0 else if Fails(env(n - 1).step) then Trailing(env, n - 1) + 1 else 0
  }

  /** The stabiliser's records mirror the turns of the call. */
  ghost predicate Mirrors(s: LoopState, env: nat -> Turn, i: nat) {
    && |s.progressHistory| == i && |s.stepHashes| == i && s.consecutiveErrors == Trailing(env, i)
    && (forall n | 0 <= n < i :: s.progressHistory[n] == ProgressOf(env(n).step))
    && (forall n | 0 <= n < i :: s.stepHashes[n] == HashOf(env(n).step))
  }

  lemma RecordMirrors(s: LoopState, env: nat -> Turn, i: nat, n: LoopState)
    requires Mirrors(s, env, i) && Grown(s, env(i), n)
    ensures Mirrors(n, env, i + 1)
  {
  }

  /** Before each turn of a call the stabiliser's records are those of the turns so far ... */
  lemma {:induction false} MirrorsAt(r: Run, entry: LoopVars, env: nat -> Turn, limits: Limits, j: nat)
    requires Call(r, entry, env, limits) && j < |r.before|
    ensures Mirrors(r.before[j].course.stab, env, j)
  {
    if j > 0 {
      MirrorsAt(r, entry, env, limits, j - 1);
      CallRecords(r, entry, env, limits, j);
      RecordMirrors(r.before[j - 1].course.stab, env, j - 1, r.before[j].course.stab);
    }
  }

  /** ... all of which were survived. */
  lemma SurvivedAt(r: Run, entry: LoopVars, env: nat -> Turn, limits: Limits, j: nat)
    requires Call(r, entry, env, limits) && j < |r.before|
    ensures AllSurvive(entry.loopCount, env, j)
  {
    forall m: nat | m < j ensures Survives(entry.loopCount, env(m), m) {
      HeadAt(r, entry, env, limits, m);
      CallRecords(r, entry, env, limits, m + 1);
    }
  }

  // ---------- Checkpoints ----------

  /** The latest checkpoint before turn `j` holds what the loop had before turn `c`, the turn after it was saved. */
  ghost predicate SavedAt(before: seq<LoopVars>, j: nat)
    requires j < |before|
  {
    var course := before[j].course;
    var c := course.stab.lastCheckpointIteration;
    c <= j && (course.stab.lastCheckpoint.Some? <==> c > 0) && (c > 0 ==> SavedFrom(course, before[c].course, c))
  }

  lemma SavedStep(before: seq<LoopVars>, t: Turn, limits: Limits, k: nat, j: nat)
    requires 0 < j < |before| && SavedAt(before, j - 1) && WentOn(before[j - 1], t, before[j], limits)
    requires AtHead(k, before[j - 1], j - 1, limits)
    ensures SavedAt(before, j)
  {
  }

  lemma {:induction false} EverySaved(r: Run, entry: LoopVars, env: nat -> Turn, limits: Limits, j: nat)
    requires Call(r, entry, env, limits) && j < |r.before|
    ensures SavedAt(r.before, j)
  {
    if j > 0 {
      EverySaved(r, entry, env, limits, j - 1);
      HeadAt(r, entry, env, limits, j - 1);
      CallStep(r, entry, env, limits, j);
      SavedStep(r.before, env(j - 1), limits, entry.loopCount, j);
    }
  }

  // ---------- What is kept ----------

  /** What is kept of the first `n` turns of a call. */
  function KeptOf(env: nat -> Turn, n: nat): (r: seq<KeptStep>)
    ensures |r| == n
  {
    if n == 0 then [] else KeptOf(env, n - 1) + [Keep(env(n - 1).step)]
  }

  lemma {:induction false} KeptAt(r: Run, entry: LoopVars, env: nat -> Turn, limits: Limits, j: nat)
    requires Call(r, entry, env, limits) && j < |r.before|
    ensures r.before[j].kept == KeptOf(env, j)
  {
    if j > 0 {
      KeptAt(r, entry, env, limits, j - 1);
      CallAdds(r, entry, env, limits, j);
    }
  }

  /** A call keeps one entry for each of its steps. */
  lemma EveryStepIsKept(r: Run, entry: LoopVars, env: nat -> Turn, limits: Limits)
    requires Call(r, entry, env, limits)
    ensures r.last.kept == KeptOf(env, |r.before|)
  {
    if r.before != [] {
      var j := |r.before| - 1;
      KeptAt(r, entry, env, limits, j);
      LastIsKept(r, entry, env, limits, j);
    }
  }

  lemma LastIsKept(r: Run, entry: LoopVars, env: nat -> Turn, limits: Limits, j: nat)
    requires Call(r, entry, env, limits) && j + 1 == |r.before| && r.before[j].kept == KeptOf(env, j)
    ensures r.last.kept == KeptOf(env, j + 1)
  {
    var v := r.before[j];
    assert TakesAt(r.before, env, 0, limits, j);
    if !Ended(v, env(j), r.exit, r.last, limits) {
      var w :| ClosesAt(v, env, j, limits, r.exit, r.last, w);
    }
  }

  // ---------- Turns that nothing hinders ----------

  /** A turn without tokens, trouble or delay whose step gives no reason to end the call. */
  predicate Benign(k: nat, t: Turn, n: nat) {
    Untroubled(t) && Survives(k, t, n)
  }

  predicate Untroubled(t: Turn) {
    !t.cancelled && t.tokens == 0 && t.elapsed <= 3600 && !t.plannerFails && !t.supervisorAborts
  }

  ghost predicate BenignUntil(k: nat, env: nat -> Turn, j: nat) {
    forall m: nat | m < j :: Benign(k, env(m), m)
  }

  lemma {:induction false} NoTokensAt(r: Run, entry: LoopVars, env: nat -> Turn, limits: Limits, j: nat)
    requires Call(r, entry, env, limits) && j < |r.before| && BenignUntil(entry.loopCount, env, j)
    ensures r.before[j].tokens == entry.tokens
  {
    if j > 0 {
      NoTokensAt(r, entry, env, limits, j - 1);
      CallAdds(r, entry, env, limits, j);
      assert Benign(entry.loopCount, env(j - 1), j - 1);
    }
  }

  /** A benign turn that is the last to take a step is followed by one that takes none. */
  lemma BenignCloses(r: Run, entry: LoopVars, env: nat -> Turn, limits: Limits, j: nat) returns (w: LoopVars)
    requires Call(r, entry, env, limits) && j + 1 == |r.before| && entry.tokens < limits.maxTokens
    requires BenignUntil(entry.loopCount, env, j + 1) && j + 1 < Standard.maxIterations
    ensures w.loopCount == entry.loopCount + j + 1 && !TakesStep(w, env(j + 1), limits)
    ensures Ended(w, env(j + 1), r.exit, r.last, limits)
  {
    HeadAt(r, entry, env, limits, j);
    NoTokensAt(r, entry, env, limits, j);
    assert Benign(entry.loopCount, env(j), j);
    w :| ClosesAt(r.before[j], env, j, limits, r.exit, r.last, w);
  }

  lemma BenignGoesOn(r: Run, entry: LoopVars, env: nat -> Turn, limits: Limits, j: nat)
    requires Call(r, entry, env, limits) && j + 1 == |r.before| && entry.tokens < limits.maxTokens
    requires BenignUntil(entry.loopCount, env, j + 1) && j + 1 < Standard.maxIterations
    ensures entry.loopCount + j + 1 >= limits.maxLoops || env(j + 1).cancelled
  {
    var w := BenignCloses(r, entry, env, limits, j);
  }

  /** Through benign turns a call gets as far as its limits let it. */
  lemma {:induction false} BenignReaches(r: Run, entry: LoopVars, env: nat -> Turn, limits: Limits, j: nat)
    requires Call(r, entry, env, limits) && entry.tokens < limits.maxTokens
    requires j < Standard.maxIterations && entry.loopCount + j < limits.maxLoops
    requires BenignUntil(entry.loopCount, env, j) && !env(j).cancelled
    ensures |r.before| > j
  {
    if j > 0 {
      assert Benign(entry.loopCount, env(j - 1), j - 1);
      BenignReaches(r, entry, env, limits, j - 1);
      if |r.before| == j { BenignGoesOn(r, entry, env, limits, j - 1); }
    }
  }

  lemma BenignEndsAtTheGuard(r: Run, entry: LoopVars, env: nat -> Turn, limits: Limits)
    requires Call(r, entry, env, limits) && entry.tokens < limits.maxTokens
    requires limits.maxLoops < entry.loopCount + 250 && forall m: nat :: Benign(entry.loopCount, env(m), m)
    ensures r.exit == LoopLimit
  {
    assert Benign(entry.loopCount, env(0), 0);
    if r.before != [] {
      var j := |r.before| - 1;
      HeadAt(r, entry, env, limits, j);
      assert Benign(entry.loopCount, env(j + 1), j + 1);
      var w := BenignCloses(r, entry, env, limits, j);
    }
  }
}
