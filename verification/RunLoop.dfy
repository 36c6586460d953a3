/** The agent run loop of one call, driven by its stabiliser and its verifier. Whatever the steps, the planner, the
    supervisor and the clock answer comes from `env`, one entry per turn of the call. */
module RunLoop {
  import opened Prelude
  import opened LoopStabilizer
  import opened StepResults
  import opened Verifier

  datatype Turn = Turn(
    cancelled: bool,        // the session is cancelled or paused when the turn begins
    step: StepResult,
    tokens: nat,            // used by the step
    context: int,           // the session's context after the step
    verdict: Verdict,
    elapsed: int,
    time: int,
    plannerFails: bool,     // a plan revision raises
    revised: int,           // the plan made on the stabiliser's advice
    repaired: int,          // the plan made after an error
    supervisorAborts: bool)

  datatype Exit = Cancelled | LoopLimit | TokenBudget | StabilityAbort | SupervisorAbort | LoopDetected
                | GoalAchieved | WaitingApproval | StepError | PlannerRaised

  datatype SessionStatus = SCompleted | SFailed | SWaiting

  /** A session that is cut off counts as completed if something to deliver is found in what was kept; not so one that has
      used up its tokens. */
  function FinalStatus(e: Exit, kept: seq<KeptStep>): SessionStatus {
    match e
    case Cancelled | LoopLimit | GoalAchieved => SCompleted
    case WaitingApproval => SWaiting
    case TokenBudget => SFailed
    case _ => if HasDeliverable(kept) then SCompleted else SFailed
  }

  /** What the stabiliser can set back or change. History holds the numbers of the turns whose results it keeps. */
  datatype Course = Course(context: int, history: seq<int>, plan: int, revisions: nat,
                           stab: LoopState, checkpoints: map<CheckpointId, Checkpoint>)

  /** The loop's variables. */
  datatype LoopVars = LoopVars(loopCount: nat, tokens: nat, kept: seq<KeptStep>, course: Course)

  /** The settings of a call: the agent's loop limit and its token budget. */
  datatype Limits = Limits(maxLoops: nat, maxTokens: nat)

  function Confidence(v: Verdict): int {
    match v case NoLoop => 80 case Rejected => 70 case LoopFound => 95
  }

  /** The course with the step in context and history; `i` is the number of the turn. */
  function Advance(c: Course, t: Turn, i: nat): Course {
    c.(context := t.context, history := c.history + [i])
  }

  /** The step is done and recorded. */
  function AfterStep(v: LoopVars, t: Turn, i: nat): LoopVars {
    LoopVars(v.loopCount + 1, v.tokens + t.tokens, v.kept + [Keep(t.step)], Advance(v.course, t, i))
  }

  function RecordStep(c: Course, t: Turn): Course {
    c.(stab := Record(c.stab, RecordOf(t.step)))
  }

  function ReportOf(c: Course, t: Turn): Report {
    Assess(Standard, Record(c.stab, RecordOf(t.step)), Confidence(t.verdict), t.elapsed)
  }

  /** ROLLBACK: the context and the last five results of the latest checkpoint, if there is one. */
  function RollBack(c: Course): Course {
    var cp := Latest(c.stab, c.checkpoints);
    if cp.Some? then c.(context := cp.value.context, history := LastN(cp.value.history, 5)) else c
  }

  function SaveCheckpoint(c: Course, time: int): Course {
    if ShouldCheckpoint(c.stab) then
      var id := CheckpointId(c.stab.iteration, time);
      c.(checkpoints := c.checkpoints[id := Checkpoint(c.stab.iteration, c.context, LastN(c.history, 10), c.plan)],
         stab := c.stab.(lastCheckpoint := Some(id), lastCheckpointIteration := c.stab.iteration))
    else c
  }

  /** How a turn leaves the course, and whether it ends the call. */
  datatype Reaction = Reaction(exit: Option<Exit>, course: Course)

  /** What the report makes the loop do before it goes on: restore a checkpoint, or revise the plan. */
  function Heed(c: Course, t: Turn, r: Report): Course {
    if r.action == Rollback then RollBack(c)
    else if r.action == Replan then c.(plan := t.revised, revisions := c.revisions + 1)
    else c
  }

  /** The end of a turn, after the checkpoint: the goal, an approval to wait for, or an error to retry or give up on. */
  function Conclude(c: Course, t: Turn, loopCount: nat): Reaction {
    if Achieves(t.step) then Reaction(Some(GoalAchieved), c)
    else if Waits(t.step) then Reaction(Some(WaitingApproval), c)
    else if Fails(t.step) && t.verdict != Rejected then
      if loopCount >= 3 then Reaction(Some(StepError), c)
      else if t.plannerFails then Reaction(Some(PlannerRaised), c)
      else Reaction(None, c.(plan := t.repaired, revisions := c.revisions + 1))
    else Reaction(None, c)
  }

  /** A turn from the stabiliser's report on. */
  function React(c: Course, t: Turn, r: Report, loopCount: nat): Reaction {
    if r.action == Abort then Reaction(Some(StabilityAbort), c)
    else if r.action == Replan && t.plannerFails then Reaction(Some(PlannerRaised), c)
    else if r.action == Escalate && t.supervisorAborts then Reaction(Some(SupervisorAbort), c)
    else if t.verdict == LoopFound then Reaction(Some(LoopDetected), Heed(c, t, r))
    else Conclude(SaveCheckpoint(Heed(c, t, r), t.time), t, loopCount)
  }

  lemma SameStabSameReport(c: Course, d: Course, t: Turn)
    requires c.stab == d.stab
    ensures ReportOf(c, t) == ReportOf(d, t)
  {
  }

  datatype Outcome = Go(next: LoopVars) | Stop(exit: Exit, last: LoopVars)

  function Settle(done: LoopVars, r: Reaction): Outcome {
    if r.exit == None then Go(done.(course := r.course)) else Stop(r.exit.value, done.(course := r.course))
  }

  /** A turn from the step on. */
  function Proceed(v: LoopVars, t: Turn, i: nat, limits: Limits): Outcome {
    var done := AfterStep(v, t, i);
    if done.tokens >= limits.maxTokens then Stop(TokenBudget, done)
    else Settle(done, React(RecordStep(done.course, t), t, ReportOf(done.course, t), done.loopCount))
  }

  /** One turn of the `while` loop, the `i`-th of the call. */
  function TakeTurn(v: LoopVars, t: Turn, i: nat, limits: Limits): Outcome {
    if v.loopCount >= limits.maxLoops then Stop(LoopLimit, v)
    else if t.cancelled then Stop(Cancelled, v)
    else Proceed(v, t, i, limits)
  }

  /** The variables before each step taken, from turn `i` on, and how the call ends. */
  datatype Run = Run(before: seq<LoopVars>, exit: Exit, last: LoopVars)

  function RunFrom(v: LoopVars, env: nat -> Turn, i: nat, limits: Limits): (r: Run)
    decreases limits.maxLoops - v.loopCount
  {
    var stepped := v.loopCount < limits.maxLoops && !env(i).cancelled;
    match TakeTurn(v, env(i), i, limits)
    case Stop(e, last) => Run(if stepped then [v] else [], e, last)
    case Go(next) =>
      var rest := RunFrom(next, env, i + 1, limits);
      Run([v] + rest.before, rest.exit, rest.last)
  }

  /** A call begins with a new stabiliser, no checkpoints, its first plan, and the history it resumes from. */
  function Entry(loopCount: nat, tokens: nat, context: int, history: seq<int>, plan: int): LoopVars {
    LoopVars(loopCount, tokens, [], Course(context, history, plan, 0, Initial, map[]))
  }

  // ---------- The verdicts are the verifier's ----------

  /** What the verifier has noted before turn `n`. */
  function Seen(env: nat -> Turn, n: nat): seq<Digest> {
    if n == 0 then [] else Noted(Seen(env, n - 1), DigestOf(env(n - 1).step))
  }

  /** The same turns with the verdicts that the verifier gives. */
  function Checked(env: nat -> Turn): nat -> Turn {
    (n: nat) => env(n).(verdict := Judge(Seen(env, n), DigestOf(env(n).step)))
  }

  // ---------- The loop as it runs ----------

  class Session {
    var loopCount: nat
    var totalTokens: nat
    var context: int
    var history: seq<int>
    var kept: seq<KeptStep>
    var plan: int
    var revisions: nat
    var status: SessionStatus
    var stabilizer: Stabilizer
    var verifier: VerifierAgent

    constructor (loopCount: nat, totalTokens: nat, context: int)
      ensures this.loopCount == loopCount && this.totalTokens == totalTokens && this.context == context
    {
      this.loopCount, this.totalTokens, this.context, status := loopCount, totalTokens, context, SCompleted;
      history, kept, plan, revisions := [], [], 0, 0;
      stabilizer := new Stabilizer(Standard);
      verifier := new VerifierAgent();
    }

    ghost function Way(): Course
      reads this, stabilizer
    {
      Course(context, history, plan, revisions, stabilizer.state, stabilizer.checkpoints)
    }

    ghost function Vars(): LoopVars
      reads this, stabilizer
    {
      LoopVars(loopCount, totalTokens, kept, Way())
    }

    /** `_run_loop_inner`, from the creation of its own verifier and stabiliser on. */
    method RunLoop(env: nat -> Turn, limits: Limits, resumed: seq<int>, firstPlan: int) returns (exit: Exit, ghost run: Run)
      modifies this
      ensures run == RunFrom(Entry(old(loopCount), old(totalTokens), old(context), resumed, firstPlan), Checked(env), 0, limits)
      ensures exit == run.exit && status == FinalStatus(exit, run.last.kept) && Vars() == run.last
    {
      Begin(resumed, firstPlan);
      exit, run := Iterate(env, limits);
      status := FinalStatus(exit, kept);
    }

    /** A new verifier and a new stabiliser. */
    method Begin(resumed: seq<int>, firstPlan: int)
      modifies this`history, this`kept, this`plan, this`revisions, this`stabilizer, this`verifier
      ensures fresh(stabilizer) && fresh(verifier) && stabilizer.config == Standard && verifier.stepHashes == []
      ensures Vars() == Entry(loopCount, totalTokens, context, resumed, firstPlan)
    {
      history, kept, plan, revisions := resumed, [], firstPlan, 0;
      verifier := new VerifierAgent();
      stabilizer := new Stabilizer(Standard);
    }

    /** The `while` loop. */
    method Iterate(env: nat -> Turn, limits: Limits) returns (exit: Exit, ghost run: Run)
      requires stabilizer.config == Standard && verifier.stepHashes == []
      modifies this`loopCount, this`totalTokens, this`context, this`history, this`kept, this`plan, this`revisions
      modifies stabilizer, verifier
      ensures run == RunFrom(old(Vars()), Checked(env), 0, limits) && exit == run.exit && Vars() == run.last
    {
      ghost var start, before := Vars(), [];
      var i, ended := 0, None;
      while ended == None
        invariant ended == None ==> verifier.stepHashes == Seen(env, i)
        invariant RunFrom(start, Checked(env), 0, limits) == Joined(before, Vars(), ended, Checked(env), i, limits)
        decreases ended == None, if limits.maxLoops > loopCount then limits.maxLoops - loopCount else 0
      {
        ghost var v, was := Vars(), before;
        if loopCount < limits.maxLoops && !env(i).cancelled {
          before := before + [v];
        }
        ended := OneTurn(env(i), i, limits);
        JoinedAfter(was, v, Checked(env), i, limits, ended, Vars());
        i := i + 1;
      }
      exit := ended.value;
      run := Run(before, exit, Vars());
    }

    /** The turn as the verifier judges it. */
    ghost function Judged(t: Turn): Turn
      reads this, verifier
    {
      t.(verdict := Judge(verifier.stepHashes, DigestOf(t.step)))
    }

    method OneTurn(t: Turn, i: nat, limits: Limits) returns (exit: Option<Exit>)
      requires stabilizer.config == Standard
      modifies this`loopCount, this`totalTokens, this`context, this`history, this`kept, this`plan, this`revisions
      modifies stabilizer, verifier
      ensures Shows(TakeTurn(old(Vars()), old(Judged(t)), i, limits), exit, Vars())
      ensures exit == None ==> verifier.stepHashes == Noted(old(verifier.stepHashes), DigestOf(t.step))
    {
      if loopCount >= limits.maxLoops {
        return Some(LoopLimit);
      }
      if t.cancelled {
        return Some(Cancelled);
      }
      exit := Step(t, i, limits);
    }

    method Step(t: Turn, i: nat, limits: Limits) returns (exit: Option<Exit>)
      requires stabilizer.config == Standard
      modifies this`loopCount, this`totalTokens, this`context, this`history, this`kept, this`plan, this`revisions
      modifies stabilizer, verifier
      ensures Shows(Proceed(old(Vars()), old(Judged(t)), i, limits), exit, Vars())
      ensures exit == None ==> verifier.stepHashes == Noted(old(verifier.stepHashes), DigestOf(t.step))
    {
      TakeIn(t, i);
      ghost var done := Vars();
      if totalTokens >= limits.maxTokens {
        return Some(TokenBudget);
      }
      exit := Verify(t);
      assert Vars() == done.(course := Way());
    }

    /** The results of a step. */
    method TakeIn(t: Turn, i: nat)
      modifies this`loopCount, this`totalTokens, this`context, this`history, this`kept
      ensures Vars() == AfterStep(old(Vars()), t, i)
    {
      loopCount, totalTokens, context := loopCount + 1, totalTokens + t.tokens, t.context;
      history, kept := history + [i], kept + [Keep(t.step)];
    }

    method Verify(t: Turn) returns (exit: Option<Exit>)
      requires stabilizer.config == Standard
      modifies this`context, this`history, this`plan, this`revisions, stabilizer, verifier
      ensures var judged := old(Judged(t));
              Reaction(exit, Way()) == React(RecordStep(old(Way()), judged), judged, ReportOf(old(Way()), judged), loopCount)
      ensures verifier.stepHashes == Noted(old(verifier.stepHashes), DigestOf(t.step))
    {
      var verdict := verifier.CheckForLoops(DigestOf(t.step));
      exit := Stabilize(t.(verdict := verdict));
    }

    method Stabilize(t: Turn) returns (exit: Option<Exit>)
      requires stabilizer.config == Standard
      modifies this`context, this`history, this`plan, this`revisions, stabilizer
      ensures Reaction(exit, Way())
              == React(RecordStep(old(Way()), t), t, ReportOf(old(Way()), t), loopCount)
    {
      var r := stabilizer.RecordStep(RecordOf(t.step), Confidence(t.verdict), t.elapsed);
      exit := ReactTo(t, r);
    }

    method ReactTo(t: Turn, r: Report) returns (exit: Option<Exit>)
      modifies this`context, this`history, this`plan, this`revisions, stabilizer
      ensures Reaction(exit, Way()) == React(old(Way()), t, r, loopCount)
    {
      if r.action == Abort {
        return Some(StabilityAbort);
      }
      if r.action == Rollback {
        var checkpoint := stabilizer.LatestCheckpoint();
        if checkpoint.Some? {
          context, history := checkpoint.value.context, LastN(checkpoint.value.history, 5);
        }
      }
      if r.action == Replan {
        if t.plannerFails {
          return Some(PlannerRaised);
        }
        plan, revisions := t.revised, revisions + 1;
      }
      if r.action == Escalate && t.supervisorAborts {
        return Some(SupervisorAbort);
      }
      if t.verdict == LoopFound {
        return Some(LoopDetected);
      }
      exit := Finish(t);
    }

    method Finish(t: Turn) returns (exit: Option<Exit>)
      modifies this`plan, this`revisions, stabilizer
      ensures Reaction(exit, Way()) == Conclude(SaveCheckpoint(old(Way()), t.time), t, loopCount)
    {
      if ShouldCheckpoint(stabilizer.state) {
        stabilizer.CreateCheckpoint(context, LastN(history, 10), plan, t.time);
      }
      if Achieves(t.step) {
        return Some(GoalAchieved);
      }
      if Waits(t.step) {
        return Some(WaitingApproval);
      }
      if Fails(t.step) && t.verdict != Rejected {
        if loopCount >= 3 {
          return Some(StepError);
        }
        if t.plannerFails {
          return Some(PlannerRaised);
        }
        plan, revisions := t.repaired, revisions + 1;
      }
      exit := None;
    }
  }

  /** The outcome is the exit, if any, and the variables it leaves. */
  ghost predicate Shows(o: Outcome, exit: Option<Exit>, v: LoopVars) {
    match o
    case Go(next) => exit == None && v == next
    case Stop(e, last) => exit == Some(e) && v == last
  }

  /** A run of which the steps `before` are done: it goes on from turn `i`, unless it has ended. */
  ghost function Joined(before: seq<LoopVars>, v: LoopVars, ended: Option<Exit>, env: nat -> Turn, i: nat, limits: Limits): Run {
    if ended.Some? then Run(before, ended.value, v)
    else var r := RunFrom(v, env, i, limits); Run(before + r.before, r.exit, r.last)
  }

  lemma RunStep(before: seq<LoopVars>, v: LoopVars, env: nat -> Turn, i: nat, limits: Limits)
    ensures var before' := if v.loopCount < limits.maxLoops && !env(i).cancelled then before + [v] else before;
            Joined(before, v, None, env, i, limits) ==
              match TakeTurn(v, env(i), i, limits)
              case Go(next) => Joined(before', next, None, env, i + 1, limits)
              case Stop(e, last) => Joined(before', last, Some(e), env, i + 1, limits)
    ensures TakeTurn(v, env(i), i, limits).Go? ==>
              v.loopCount < limits.maxLoops && TakeTurn(v, env(i), i, limits).next.loopCount == v.loopCount + 1
  {
    var o := TakeTurn(v, env(i), i, limits);
    RunUnfolds(v, env, i, limits);
    if o.Go? {
      GoMeansStepped(v, env(i), i, limits);
      var rest := RunFrom(o.next, env, i + 1, limits).before;
      assert before + ([v] + rest) == (before + [v]) + rest;
    } else {
      assert before + [] == before;
    }
  }

  lemma JoinedAfter(before: seq<LoopVars>, v: LoopVars, env: nat -> Turn, i: nat, limits: Limits, exit: Option<Exit>,
                    w: LoopVars)
    requires Shows(TakeTurn(v, env(i), i, limits), exit, w)
    ensures var before' := if v.loopCount < limits.maxLoops && !env(i).cancelled then before + [v] else before;
            Joined(before, v, None, env, i, limits) == Joined(before', w, exit, env, i + 1, limits)
    ensures exit == None ==> v.loopCount < limits.maxLoops && w.loopCount == v.loopCount + 1
  {
    RunStep(before, v, env, i, limits);
  }

  lemma GoMeansStepped(v: LoopVars, t: Turn, i: nat, limits: Limits)
    requires TakeTurn(v, t, i, limits).Go?
    ensures v.loopCount < limits.maxLoops && !t.cancelled && TakeTurn(v, t, i, limits).next.loopCount == v.loopCount + 1
  {
  }

  lemma RunUnfolds(v: LoopVars, env: nat -> Turn, i: nat, limits: Limits)
    ensures RunFrom(v, env, i, limits) ==
              match TakeTurn(v, env(i), i, limits)
              case Stop(e, last) => Run(if v.loopCount < limits.maxLoops && !env(i).cancelled then [v] else [], e, last)
              case Go(next) => var r := RunFrom(next, env, i + 1, limits); Run([v] + r.before, r.exit, r.last)
  {
  }
}
