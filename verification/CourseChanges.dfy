/** What one turn makes of the course of a call: its context, its history and its plan. */
module CourseChanges {
  import opened Prelude
  import opened LoopStabilizer
  import opened StepResults
  import opened Verifier
  import opened RunLoop
  import opened RunTrace
  import opened RunLoopTheorems

  /** The checkpoint that a turn goes back to, if it is told to roll back and there is one. */
  function BackTo(v: LoopVars, t: Turn): Option<Checkpoint> {
    if ReportOf(v.course, t).action == Rollback then Latest(v.course.stab, v.course.checkpoints) else None
  }

  /** The turn's step and what the stabiliser made of it: context and history are those of the step, or of the checkpoint with its
      last five entries; and the plan is a new one if the stabiliser asked for that. */
  predicate Steered(v: LoopVars, t: Turn, i: nat, n: Course) {
    match BackTo(v, t)
    case Some(cp) => n.context == cp.context && n.history == LastN(cp.history, 5)
    case None => n.context == t.context && n.history == v.course.history + [i]
  }

  /** The plan and the number of its revisions, after so many new ones the last of which is `plan`. */
  predicate Revised(v: LoopVars, n: Course, plan: int, more: nat) {
    n.plan == (if more == 0 then v.course.plan else plan) && n.revisions == v.course.revisions + more
  }

  lemma RecordKeepsLatest(c: Course, t: Turn)
    ensures Latest(RecordStep(c, t).stab, RecordStep(c, t).checkpoints) == Latest(c.stab, c.checkpoints)
  {
  }

  lemma HeedIs(v: LoopVars, t: Turn, i: nat)
    ensures var done := AfterStep(v, t, i).course;
            var n, action := Heed(RecordStep(done, t), t, ReportOf(done, t)), ReportOf(v.course, t).action;
            && Steered(v, t, i, n) && Revised(v, n, t.revised, if action == Action.Replan then 1 else 0)
  {
    var done := AfterStep(v, t, i).course;
    SameStabSameReport(v.course, done, t);
    RecordKeepsLatest(done, t);
  }

  lemma SaveKeepsCourse(c: Course, time: int)
    ensures var n := SaveCheckpoint(c, time);
            n.context == c.context && n.history == c.history && n.plan == c.plan && n.revisions == c.revisions
  {
  }

  /** How many new plans a turn brings that goes on, and which is the last: one on the stabiliser's advice, and one for an error that
      is not taken for feedback. */
  function NewPlans(v: LoopVars, t: Turn): nat {
    (if ReportOf(v.course, t).action == Action.Replan then 1 else 0) + if Fails(t.step) && t.verdict != Rejected then 1 else 0
  }

  function LastPlan(t: Turn): int {
    if Fails(t.step) && t.verdict != Rejected then t.repaired else t.revised
  }

  /** A turn after which the call goes on leaves it the step's context and history, or the checkpoint's, and a new plan for each of
      the two reasons there may be. */
  lemma GoingOnSteers(v: LoopVars, t: Turn, i: nat, limits: Limits)
    requires TakeTurn(v, t, i, limits).Go?
    ensures var n := TakeTurn(v, t, i, limits).next.course; Steered(v, t, i, n) && Revised(v, n, LastPlan(t), NewPlans(v, t))
  {
    var done := AfterStep(v, t, i).course;
    var r := ReportOf(done, t);
    var heeded := Heed(RecordStep(done, t), t, r);
    HeedIs(v, t, i);
    SameStabSameReport(v.course, done, t);
    SaveKeepsCourse(heeded, t.time);
    assert TakeTurn(v, t, i, limits).next.course == Conclude(SaveCheckpoint(heeded, t.time), t, v.loopCount + 1).course;
  }

  /** So does one that achieves the goal or waits, which brings no plan for an error; and any other that takes a step leaves at least
      the step's context and history, if nothing was rolled back. */
  lemma EndingSteers(v: LoopVars, t: Turn, i: nat, limits: Limits)
    requires TakesStep(v, t, limits) && TakeTurn(v, t, i, limits).Stop?
    ensures var e, n := TakeTurn(v, t, i, limits).exit, TakeTurn(v, t, i, limits).last.course;
            && (e in {GoalAchieved, WaitingApproval} ==>
                  Steered(v, t, i, n)
                  && Revised(v, n, t.revised, if ReportOf(v.course, t).action == Action.Replan then 1 else 0))
            && (e == TokenBudget || ReportOf(v.course, t).action != Rollback ==>
                  n.context == t.context && n.history == v.course.history + [i])
  {
    if v.tokens + t.tokens < limits.maxTokens {
      var done := AfterStep(v, t, i).course;
      HeedIs(v, t, i);
      SameStabSameReport(v.course, done, t);
      EndedBy(v, t, i, limits);
      SteeredEnd(v, t, i, TakeTurn(v, t, i, limits).last.course, Heed(RecordStep(done, t), t, ReportOf(done, t)), done);
    }
  }

  /** The course in which a turn ends the call that has its tokens: as recorded, as heeded, or as saved after that. */
  lemma EndedBy(v: LoopVars, t: Turn, i: nat, limits: Limits)
    requires TakesStep(v, t, limits) && TakeTurn(v, t, i, limits).Stop? && v.tokens + t.tokens < limits.maxTokens
    ensures var e, n := TakeTurn(v, t, i, limits).exit, TakeTurn(v, t, i, limits).last.course;
            var c := RecordStep(AfterStep(v, t, i).course, t);
            var heeded := Heed(c, t, ReportOf(AfterStep(v, t, i).course, t));
            && e != TokenBudget && (e in {GoalAchieved, WaitingApproval} ==> n == SaveCheckpoint(heeded, t.time))
            && (n == c || n == heeded || n == SaveCheckpoint(heeded, t.time))
  {
    var done := AfterStep(v, t, i).course;
    ReactedCourse(RecordStep(done, t), t, ReportOf(done, t), v.loopCount + 1);
  }

  lemma SteeredEnd(v: LoopVars, t: Turn, i: nat, n: Course, heeded: Course, done: Course)
    requires Steered(v, t, i, heeded) && Revised(v, heeded, t.revised, if ReportOf(v.course, t).action == Action.Replan then 1 else 0)
    requires done == AfterStep(v, t, i).course
    ensures n == SaveCheckpoint(heeded, t.time) ==>
              Steered(v, t, i, n) && Revised(v, n, t.revised, if ReportOf(v.course, t).action == Action.Replan then 1 else 0)
    ensures (n == RecordStep(done, t) || n == heeded || n == SaveCheckpoint(heeded, t.time))
            && ReportOf(v.course, t).action != Rollback ==>
              n.context == t.context && n.history == v.course.history + [i]
  {
    SaveKeepsCourse(heeded, t.time);
  }

  /** The turn that achieves the goal saves a checkpoint of how it ends, whenever the last one was. */
  lemma AchievingSaves(v: LoopVars, t: Turn, i: nat, limits: Limits)
    requires TakesStep(v, t, limits) && TakeTurn(v, t, i, limits).Stop? && TakeTurn(v, t, i, limits).exit == GoalAchieved
    ensures var n, k := TakeTurn(v, t, i, limits).last.course, v.course.stab.iteration + 1;
            && n.stab.lastCheckpointIteration == k
            && Latest(n.stab, n.checkpoints) == Some(Checkpoint(k, n.context, LastN(n.history, 10), n.plan))
  {
    var done := AfterStep(v, t, i).course;
    EndedBy(v, t, i, limits);
    AchievedIsSaved(RecordStep(done, t), t, ReportOf(done, t), v.loopCount + 1);
    SavedCheckpoint(Heed(RecordStep(done, t), t, ReportOf(done, t)), t.time);
  }

  lemma SavedCheckpoint(c: Course, time: int)
    requires ShouldCheckpoint(c.stab)
    ensures var n := SaveCheckpoint(c, time);
            && n.stab.lastCheckpointIteration == c.stab.iteration
            && Latest(n.stab, n.checkpoints) == Some(Checkpoint(c.stab.iteration, n.context, LastN(n.history, 10), n.plan))
  {
  }

  lemma AchievedIsSaved(c: Course, t: Turn, r: Report, loopCount: nat)
    requires c.stab.progressHistory != [] && c.stab.progressHistory[|c.stab.progressHistory| - 1] == ProgressOf(t.step)
    requires React(c, t, r, loopCount).exit == Some(GoalAchieved)
    ensures Heed(c, t, r).stab == c.stab && ShouldCheckpoint(c.stab)
  {
    HeedKeeps(c, t, r);
  }

  lemma ReactedCourse(c: Course, t: Turn, r: Report, loopCount: nat)
    requires React(c, t, r, loopCount).exit.Some?
    ensures var e, n := React(c, t, r, loopCount).exit.value, React(c, t, r, loopCount).course;
            && e != TokenBudget
            && (e in {GoalAchieved, WaitingApproval} ==> n == SaveCheckpoint(Heed(c, t, r), t.time))
            && (n == c || n == Heed(c, t, r) || n == SaveCheckpoint(Heed(c, t, r), t.time))
  {
  }

  /** A call begins with nothing kept, nothing recorded and its first plan. */
  lemma EntryIs(entry: LoopVars)
    requires IsEntry(entry)
    ensures entry.kept == [] && entry.course.revisions == 0 && entry.course.checkpoints == map[]
    ensures var s := entry.course.stab;
            s.iteration == s.consecutiveErrors == s.planRevisions == 0 && s.lastCheckpoint == None
            && s.progressHistory == [] && s.stepHashes == [] && s.actionSequence == []
  {
  }

  lemma BeforeUnfolds(v: LoopVars, env: nat -> Turn, i: nat, limits: Limits)
    ensures var o, before := TakeTurn(v, env(i), i, limits), RunFrom(v, env, i, limits).before;
            && (before != [] ==> before[0] == v)
            && (o.Stop? ==> |before| <= 1)
            && (o.Go? ==> before == [v] + RunFrom(o.next, env, i + 1, limits).before
                          && v.loopCount < limits.maxLoops && o.next.loopCount == v.loopCount + 1)
  {
    RunUnfolds(v, env, i, limits);
    if TakeTurn(v, env(i), i, limits).Go? { GoMeansStepped(v, env(i), i, limits); }
  }

  /** What a turn makes of the variables. */
  type Step = (LoopVars, Turn, nat) -> Outcome

  predicate Follows(step: Step, v: LoopVars, t: Turn, i: nat, n: LoopVars) {
    step(v, t, i) == Go(n)
  }

  /** Each turn of the run, from turn `i` on, begins with what the one before it leaves. */
  ghost predicate InTurn(step: Step, before: seq<LoopVars>, env: nat -> Turn, i: nat) {
    forall j: nat | j + 1 < |before| :: FollowsAt(step, before, env, i, j)
  }

  predicate FollowsAt(step: Step, before: seq<LoopVars>, env: nat -> Turn, i: nat, j: nat)
    requires j + 1 < |before|
  {
    Follows(step, before[j], env(i + j), i + j, before[j + 1])
  }

  lemma FollowsLater(step: Step, v: LoopVars, rest: seq<LoopVars>, env: nat -> Turn, i: nat, j: nat)
    requires j + 1 < |rest| && FollowsAt(step, rest, env, i + 1, j)
    ensures FollowsAt(step, [v] + rest, env, i, j + 1)
  {
    assert i + 1 + j == i + (j + 1);
    assert ([v] + rest)[j + 1] == rest[j] && ([v] + rest)[j + 1 + 1] == rest[j + 1];
  }

  lemma InTurnCons(step: Step, v: LoopVars, rest: seq<LoopVars>, env: nat -> Turn, i: nat)
    requires InTurn(step, rest, env, i + 1) && (rest != [] ==> Follows(step, v, env(i), i, rest[0]))
    ensures InTurn(step, [v] + rest, env, i)
  {
    forall j: nat | j + 1 < |rest| + 1 ensures FollowsAt(step, [v] + rest, env, i, j) {
      if j > 0 { FollowsLater(step, v, rest, env, i, j - 1); }
    }
  }

  function TurnOf(limits: Limits): Step {
    (v: LoopVars, t: Turn, i: nat) => TakeTurn(v, t, i, limits)
  }

  lemma {:induction false} TurnsFollow(v: LoopVars, env: nat -> Turn, i: nat, limits: Limits, step: Step)
    requires step == TurnOf(limits)
    ensures InTurn(step, RunFrom(v, env, i, limits).before, env, i)
    decreases limits.maxLoops - v.loopCount
  {
    BeforeUnfolds(v, env, i, limits);
    var o := TakeTurn(v, env(i), i, limits);
    if o.Go? {
      var rest := RunFrom(o.next, env, i + 1, limits).before;
      TurnsFollow(o.next, env, i + 1, limits, step);
      BeginsWith(o.next, env, i + 1, limits);
      InTurnCons(step, v, rest, env, i);
    }
  }

  lemma BeginsWith(v: LoopVars, env: nat -> Turn, i: nat, limits: Limits)
    ensures RunFrom(v, env, i, limits).before != [] ==> RunFrom(v, env, i, limits).before[0] == v
  {
    BeforeUnfolds(v, env, i, limits);
  }

  lemma FollowingSteers(v: LoopVars, t: Turn, i: nat, limits: Limits, n: LoopVars)
    requires Follows(TurnOf(limits), v, t, i, n)
    ensures SteeredTo(v, t, i, n.course)
  {
    GoingOnSteers(v, t, i, limits);
  }

  /** The turn leaves the step's context and history or the checkpoint's, and one revision of the plan for each new one. */
  predicate SteeredTo(v: LoopVars, t: Turn, i: nat, n: Course) {
    Steered(v, t, i, n) && Revised(v, n, LastPlan(t), NewPlans(v, t))
  }

  /** So all through a call, for every turn but its last. */
  lemma EveryTurnSteers(entry: LoopVars, env: nat -> Turn, limits: Limits, before: seq<LoopVars>, j: nat)
    requires before == RunFrom(entry, env, 0, limits).before && j + 1 < |before|
    ensures SteeredTo(before[j], env(j), j, before[j + 1].course)
  {
    TurnsFollow(entry, env, 0, limits, TurnOf(limits));
    TurnSteers(before, env, limits, j);
  }

  lemma TurnSteers(before: seq<LoopVars>, env: nat -> Turn, limits: Limits, j: nat)
    requires InTurn(TurnOf(limits), before, env, 0) && j + 1 < |before|
    ensures SteeredTo(before[j], env(j), j, before[j + 1].course)
  {
    assert FollowsAt(TurnOf(limits), before, env, 0, j);
    FollowingSteers(before[j], env(j), j, limits, before[j + 1]);
  }
}
