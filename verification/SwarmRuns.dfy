/** Whole runs of the swarm protocol: safety, progress, and what completion needs. */
module SwarmRuns {
  import opened Prelude
  import opened SwarmProtocol
  import opened SwarmSafety

  function Run(s: Swarm, es: seq<Event>): Swarm
    decreases es
  {
    if es == [] then s else Run(Next(s, es[0]), es[1..])
  }

  ghost predicate LegalRun(s: Swarm, es: seq<Event>)
    decreases es
  {
    es != [] ==> Legal(s, es[0]) && LegalRun(Next(s, es[0]), es[1..])
  }

  lemma {:induction false} RunKeepsInv(s: Swarm, es: seq<Event>)
    requires Inv(s) && LegalRun(s, es)
    ensures Inv(Run(s, es))
    decreases es
  {
    if es != [] {
      NextKeepsInv(s, es[0]);
      RunKeepsInv(Next(s, es[0]), es[1..]);
    }
  }

  /** `s` is where some legal run of a new orchestrator, `es`, leads. */
  ghost predicate Reached(es: seq<Event>, s: Swarm) {
    LegalRun(Empty, es) && s == Run(Empty, es)
  }

  lemma ReachedInv(es: seq<Event>, s: Swarm)
    requires Reached(es, s)
    ensures Inv(s)
  {
    assert Inv(Empty);
    RunKeepsInv(Empty, es);
  }

  lemma {:induction false} RunAppend(s: Swarm, es: seq<Event>, fs: seq<Event>)
    ensures Run(s, es + fs) == Run(Run(s, es), fs)
    ensures LegalRun(s, es + fs) <==> LegalRun(s, es) && LegalRun(Run(s, es), fs)
    decreases es
  {
    if es == [] {
      assert es + fs == fs;
    } else {
      assert (es + fs)[0] == es[0] && (es + fs)[1..] == es[1..] + fs;
      RunAppend(Next(s, es[0]), es[1..], fs);
    }
  }

  // ---------- Exactly one place ----------

  /** How often `t` stands in the queue. */
  ghost function TimesQueued(q: seq<TaskId>, t: TaskId): nat { multiset(q)[t] }

  ghost function Holders(s: Swarm, t: TaskId): set<AgentId> {
    set a | a in s.agents && s.agents[a].currentTask == Some(t)
  }

  lemma {:induction false} DistinctOccursOnce(q: seq<TaskId>, t: TaskId)
    requires Distinct(q)
    ensures TimesQueued(q, t) == if t in q then 1 else 0
  {
    if q != [] {
      var front, last := q[..|q| - 1], q[|q| - 1];
      assert q == front + [last];
      DistinctOccursOnce(front, t);
    }
  }

  /** After any legal run a task is waiting on an unfinished dependency, or in the queue once, or held by exactly one
      agent, or COMPLETED, and nowhere else; and an agent is available exactly when it holds nothing. */
  lemma ExactlyOnePlace(es: seq<Event>, s: Swarm, t: TaskId)
    requires Reached(es, s) && t in s.tasks
    ensures && InGoal(s, t)
            && (s.tasks[t].status == Completed ==> Ready(s, t) && TimesQueued(s.queue, t) == 0 && Holders(s, t) == {})
            && (s.tasks[t].status == InProgress ==> Ready(s, t) && TimesQueued(s.queue, t) == 0 && |Holders(s, t)| == 1)
            && (s.tasks[t].status == Blocked ==> Ready(s, t) && TimesQueued(s.queue, t) == 1 && Holders(s, t) == {})
            && (s.tasks[t].status == Pending ==>
                  TimesQueued(s.queue, t) == (if Ready(s, t) then 1 else 0) && Holders(s, t) == {})
            && s.tasks[t].status !in {Assigned, Failed}
    ensures forall a | a in s.agents :: s.agents[a].available <==> s.agents[a].currentTask == None
  {
    ReachedInv(es, s);
    DistinctOccursOnce(s.queue, t);
    assert InPlace(s, t);
    if s.tasks[t].status == InProgress {
      assert Holders(s, t) == {s.tasks[t].assignedAgent.value};
    } else {
      assert Holders(s, t) == {};
    }
  }

  ghost predicate FinishedAs(s: Swarm, u: TaskId, g: nat, d: Label) {
    u in s.tasks && u.goal == g && s.tasks[u].id == d && s.tasks[u].status == Completed
  }

  /** Whatever is queued, in flight or finished has each of its dependencies finished in its own goal, whatever failed on
      the way. */
  lemma DependencySafety(es: seq<Event>, s: Swarm, t: TaskId, d: Label)
    requires Reached(es, s)
    requires t in s.tasks && d in s.tasks[t].deps && (t in s.queue || s.tasks[t].status in {Assigned, InProgress, Completed})
    ensures exists u :: FinishedAs(s, u, t.goal, d)
  {
    ReachedInv(es, s);
    assert InPlace(s, t);
    assert Met(s.tasks, s.goals[t.goal].tasks, d);
    var u :| u in s.goals[t.goal].tasks && Carries(s.tasks, u, d) && s.tasks[u].status == Completed;
    assert FinishedAs(s, u, t.goal, d);
  }

  // ---------- What one step does to finished tasks ----------

  /** `n` has the tasks and goals of `s` and perhaps more; it finishes `done`, if given, and nothing else. */
  ghost predicate Extends(s: Swarm, n: Swarm, done: Option<TaskId>) {
    && (forall t | t in s.tasks :: t in n.tasks && n.tasks[t].id == s.tasks[t].id && n.tasks[t].deps == s.tasks[t].deps)
    && (forall t | t in n.tasks ::
          n.tasks[t].status == Completed <==> (t in s.tasks && s.tasks[t].status == Completed) || done == Some(t))
    && |s.goals| <= |n.goals| && (forall g | 0 <= g < |s.goals| :: n.goals[g].tasks == s.goals[g].tasks)
    && s.agents.Keys <= n.agents.Keys
  }

  /** The task of a success report. */
  function Finished(s: Swarm, e: Event): Option<TaskId> {
    if e.Report? && e.success then Find(s, e.id) else None
  }

  lemma LedgerExtends(s: Swarm, n: Swarm)
    requires SameLedger(s, n) && n.agents.Keys == s.agents.Keys
    ensures Extends(s, n, None)
  {
    forall t ensures t in s.tasks <==> t in n.tasks { assert t in s.tasks.Keys <==> t in n.tasks.Keys; }
  }

  lemma SucceededExtends(s: Swarm, n: Swarm, t: TaskId, a: AgentId, unlocked: seq<TaskId>)
    requires InGoal(s, t) && SucceededTo(s, n, t, a, unlocked)
    ensures Extends(s, n, Some(t))
  {
  }

  lemma ReportExtends(s: Swarm, id: Label, a: AgentId, success: bool)
    requires Inv(s) && Legal(s, Report(id, a, success))
    ensures Extends(s, ReportTask(s, id, a, success), if success then Find(s, id) else None)
  {
    var t := ReportedIsHeld(s, id, a, success);
    if success {
      SuccessEffect(s, t, a);
      SucceededExtends(s, ReportOn(s, t, a, true), t, a, LetIn(s, t, a));
    } else {
      FailureEffect(s, t, a);
      FailedExtends(s, ReportOn(s, t, a, false), t, a);
    }
  }

  lemma FailedExtends(s: Swarm, n: Swarm, t: TaskId, a: AgentId)
    requires HeldBy(s, t, a) && FailedTo(s, n, t, a)
    ensures Extends(s, n, None)
  {
    LedgerExtends(s, n);
  }

  /** A legal step finishes the task of a success report and undoes nothing. */
  lemma StepFinishes(s: Swarm, e: Event)
    requires Inv(s) && Legal(s, e)
    ensures Extends(s, Next(s, e), Finished(s, e))
  {
    match e
    case Register(_, _) =>
    case Submit(ts) =>
      SubmitEffect(s, ts);
      SubmittedExtends(s, SubmitGoal(s, ts), ts);
    case Tick(delivered) => TurnExtends(s, delivered);
    case Report(id, a, success) => ReportExtends(s, id, a, success);
  }

  lemma SubmittedExtends(s: Swarm, n: Swarm, ts: seq<NewTask>)
    requires SubmittedTo(s, n, ts)
    ensures Extends(s, n, None)
  {
    forall t | t in n.tasks && t !in s.tasks ensures n.tasks[t].status == Pending {
      assert IsNew(|s.goals|, ts, t);
    }
  }

  lemma TurnExtends(s: Swarm, delivered: bool)
    requires Inv(s)
    ensures Extends(s, LoopTurn(s, delivered), None)
  {
    if s.queue == [] {
      NothingIsBlockedWhenIdle(s);
    } else {
      var best := if delivered then BestAgent(s.agents, s.roster) else None;
      HeadIsQueued(s);
      DispatchEffect(s, delivered);
      MovedLedger(s, LoopTurn(s, delivered), s.queue[0], best);
      LedgerExtends(s, LoopTurn(s, delivered));
    }
  }

  /** COMPLETED is never undone. */
  lemma {:induction false} CompletedIsForever(s: Swarm, es: seq<Event>, t: TaskId)
    requires Inv(s) && LegalRun(s, es) && t in s.tasks && s.tasks[t].status == Completed
    ensures t in Run(s, es).tasks && Run(s, es).tasks[t].status == Completed
    decreases es
  {
    if es != [] {
      StepFinishes(s, es[0]);
      NextKeepsInv(s, es[0]);
      CompletedIsForever(Next(s, es[0]), es[1..], t);
    }
  }

  // ---------- Counting successes ----------

  ghost function DoneIn(s: Swarm, g: nat): set<TaskId> {
    set t | t in s.tasks && t.goal == g && s.tasks[t].status == Completed
  }

  ghost predicate IsSuccessFor(s: Swarm, e: Event, g: nat) {
    Finished(s, e).Some? && Finished(s, e).value.goal == g
  }

  /** The number of success reports of the run about tasks of goal `g`. */
  ghost function Successes(s: Swarm, es: seq<Event>, g: nat): nat
    decreases es
  {
    if es == [] then 0
    else (if IsSuccessFor(s, es[0], g) then 1 else 0) + Successes(Next(s, es[0]), es[1..], g)
  }

  lemma ExtendsDone(s: Swarm, n: Swarm, done: Option<TaskId>, g: nat)
    requires Extends(s, n, done) && (done.Some? ==> done.value in s.tasks)
    ensures DoneIn(n, g) == DoneIn(s, g) + if done.Some? && done.value.goal == g then {done.value} else {}
  {
  }

  lemma ExtendsCounts(s: Swarm, n: Swarm, done: Option<TaskId>, g: nat)
    requires Extends(s, n, done) && (done.Some? ==> done.value in s.tasks && s.tasks[done.value].status != Completed)
    ensures |DoneIn(n, g)| == |DoneIn(s, g)| + if done.Some? && done.value.goal == g then 1 else 0
  {
    ExtendsDone(s, n, done, g);
    if done.Some? { assert done.value !in DoneIn(s, g); }
  }

  lemma StepCounts(s: Swarm, e: Event, g: nat)
    requires Inv(s) && Legal(s, e)
    ensures |DoneIn(Next(s, e), g)| == |DoneIn(s, g)| + if IsSuccessFor(s, e, g) then 1 else 0
  {
    StepFinishes(s, e);
    if e.Report? { var t := ReportedIsHeld(s, e.id, e.reporter, e.success); }
    ExtendsCounts(s, Next(s, e), Finished(s, e), g);
  }

  lemma {:induction false} SuccessesAreCompletions(s: Swarm, es: seq<Event>, g: nat)
    requires Inv(s) && LegalRun(s, es)
    ensures |DoneIn(Run(s, es), g)| == |DoneIn(s, g)| + Successes(s, es, g)
    decreases es
  {
    if es != [] {
      StepCounts(s, es[0], g);
      NextKeepsInv(s, es[0]);
      SuccessesAreCompletions(Next(s, es[0]), es[1..], g);
    }
  }

  lemma SuccessesFromTheStart(es: seq<Event>, s: Swarm, g: nat)
    requires Reached(es, s)
    ensures |DoneIn(s, g)| == Successes(Empty, es, g)
  {
    assert Inv(Empty);
    SuccessesAreCompletions(Empty, es, g);
    assert DoneIn(Empty, g) == {};
  }

  /** A goal is COMPLETED exactly when it has had as many successes as it has tasks, and it has some. */
  lemma CompletionNeedsEverySuccess(es: seq<Event>, s: Swarm, g: nat)
    requires Reached(es, s) && g < |s.goals|
    ensures s.goals[g].status == Completed <==> s.goals[g].tasks != [] && Successes(Empty, es, g) == |s.goals[g].tasks|
    ensures Successes(Empty, es, g) <= |s.goals[g].tasks|
  {
    ReachedInv(es, s);
    SuccessesFromTheStart(es, s, g);
    var members := Elements(s.goals[g].tasks);
    OrderedIsDistinct(g, s.goals[g].tasks);
    DistinctSize(s.goals[g].tasks);
    assert DoneIn(s, g) <= members;
    SubsetSize(DoneIn(s, g), members);
    if AllCompleted(s.tasks, s.goals[g].tasks) {
      assert members <= DoneIn(s, g);
    } else {
      var t :| t in s.goals[g].tasks && !(t in s.tasks && s.tasks[t].status == Completed);
      assert t in members && t !in DoneIn(s, g);
    }
  }

  lemma SubsetSize<T>(a: set<T>, b: set<T>)
    requires a <= b
    ensures |a| <= |b| && (|a| == |b| <==> a == b)
  {
    assert b == a + (b - a);
  }

  // ---------- Deadlock freedom ----------

  /** The goal's tasks name only labels of tasks of the goal as dependencies, along a rank. */
  ghost predicate Ranks(s: Swarm, g: nat, rank: map<TaskId, nat>)
    requires g < |s.goals|
  {
    forall t | t in s.goals[g].tasks :: t in s.tasks && t in rank &&
      forall d | d in s.tasks[t].deps :: exists u :: Below(s, g, rank, t, d, u)
  }

  ghost predicate Below(s: Swarm, g: nat, rank: map<TaskId, nat>, t: TaskId, d: Label, u: TaskId)
    requires g < |s.goals| && t in rank
  {
    u in s.goals[g].tasks && Carries(s.tasks, u, d) && u in rank && rank[u] < rank[t]
  }

  /** Acyclic, and closed over the goal's own tasks. */
  ghost predicate SoundPlan(s: Swarm, g: nat)
    requires g < |s.goals|
  {
    exists rank :: Ranks(s, g, rank)
  }

  ghost predicate InMotion(s: Swarm, t: TaskId) {
    t in s.tasks && (t in s.queue || s.tasks[t].status == InProgress)
  }

  lemma {:induction false} SomethingBelowMoves(s: Swarm, g: nat, rank: map<TaskId, nat>, t: TaskId) returns (m: TaskId)
    requires Inv(s) && g < |s.goals| && Ranks(s, g, rank)
    requires t in s.goals[g].tasks && s.tasks[t].status != Completed
    ensures m in s.goals[g].tasks && InMotion(s, m)
    decreases rank[t]
  {
    m := t;
    assert InPlace(s, t);
    if IsWaiting(s, t) {
      var d :| d in s.tasks[t].deps && !Met(s.tasks, s.goals[g].tasks, d);
      var u :| Below(s, g, rank, t, d, u);
      m := SomethingBelowMoves(s, g, rank, u);
    }
  }

  /** No deadlock: a non-empty, soundly planned goal that is not COMPLETED has a task queued or in flight. */
  lemma NoDeadlock(es: seq<Event>, s: Swarm, g: nat)
    requires Reached(es, s) && g < |s.goals| && SoundPlan(s, g)
    requires s.goals[g].tasks != [] && s.goals[g].status != Completed
    ensures exists t :: t in s.goals[g].tasks && InMotion(s, t)
  {
    ReachedInv(es, s);
    var m := UnfinishedGoalMoves(s, g);
  }

  lemma UnfinishedGoalMoves(s: Swarm, g: nat) returns (m: TaskId)
    requires Inv(s) && g < |s.goals| && SoundPlan(s, g) && s.goals[g].tasks != [] && s.goals[g].status != Completed
    ensures m in s.goals[g].tasks && InMotion(s, m)
  {
    var rank :| Ranks(s, g, rank);
    var t :| t in s.goals[g].tasks && s.tasks[t].status != Completed;
    m := SomethingBelowMoves(s, g, rank, t);
  }

  // ---------- A goal can be completed exactly when its plan is sound ----------

  ghost function Unfinished(s: Swarm): set<TaskId> {
    set t | t in s.tasks && s.tasks[t].status != Completed
  }

  /** Reports can reach every unfinished task of the goal. */
  ghost predicate AllAnswer(s: Swarm, g: nat)
    requires g < |s.goals|
  {
    forall t | t in s.goals[g].tasks && t in s.tasks && s.tasks[t].status != Completed :: Answers(s, t)
  }

  ghost predicate Completable(s: Swarm, g: nat) {
    Inv(s) && g < |s.goals| && s.goals[g].tasks != [] && SoundPlan(s, g) && AllAnswer(s, g)
  }

  lemma RanksPersist(s: Swarm, n: Swarm, done: Option<TaskId>, g: nat, rank: map<TaskId, nat>)
    requires Extends(s, n, done) && g < |s.goals| && Ranks(s, g, rank)
    ensures Ranks(n, g, rank)
  {
    forall t, d | t in n.goals[g].tasks && d in n.tasks[t].deps ensures exists u :: Below(n, g, rank, t, d, u) {
      var u :| Below(s, g, rank, t, d, u);
      assert Below(n, g, rank, t, d, u);
    }
  }

  lemma SoundPlanPersists(s: Swarm, n: Swarm, done: Option<TaskId>, g: nat)
    requires Extends(s, n, done) && g < |s.goals| && SoundPlan(s, g)
    ensures g < |n.goals| && SoundPlan(n, g)
  {
    var rank :| Ranks(s, g, rank);
    RanksPersist(s, n, done, g, rank);
  }

  /** Steps that enter no tasks take no task out of the reach of reports. */
  lemma AnswersPersist(s: Swarm, n: Swarm, done: Option<TaskId>, t: TaskId)
    requires Extends(s, n, done) && n.tasks.Keys == s.tasks.Keys && t in s.tasks && Answers(s, t)
    ensures Answers(n, t)
  {
    forall u | u in n.tasks ensures u in s.tasks && n.tasks[u].id == s.tasks[u].id { assert u in n.tasks.Keys; }
  }

  lemma CompletablePersists(s: Swarm, n: Swarm, done: Option<TaskId>, g: nat)
    requires Completable(s, g) && Extends(s, n, done) && n.tasks.Keys == s.tasks.Keys && Inv(n)
    ensures Completable(n, g)
  {
    SoundPlanPersists(s, n, done, g);
    forall t | t in n.goals[g].tasks && t in n.tasks && n.tasks[t].status != Completed ensures Answers(n, t) {
      assert t in s.tasks && s.tasks[t].status != Completed;
      AnswersPersist(s, n, done, t);
    }
  }

  ghost predicate SomeoneIdle(s: Swarm) {
    BestAgent(s.agents, s.roster).Some?
  }

  ghost function Busy(s: Swarm): nat {
    if SomeoneIdle(s) then 0 else 1
  }

  lemma DeliveryKeys(s: Swarm, n: Swarm, t: TaskId, best: Option<AgentId>)
    requires Moved(s, n, t, best) && SameLedger(s, n)
    ensures Unfinished(n) == Unfinished(s) && (best.Some? ==> |n.queue| < |s.queue|)
  {
    forall u ensures u in s.tasks <==> u in n.tasks { assert u in s.tasks.Keys <==> u in n.tasks.Keys; }
  }

  /** A delivered turn hands the head of the queue to an idle agent, if there is one. */
  lemma DeliveryStarts(s: Swarm, g: nat)
    requires Completable(s, g) && s.queue != [] && SomeoneIdle(s)
    ensures var n := Next(s, Tick(true));
            Completable(n, g) && Unfinished(n) == Unfinished(s) && |n.queue| < |s.queue|
  {
    var n, best := LoopTurn(s, true), BestAgent(s.agents, s.roster);
    HeadIsQueued(s);
    DispatchEffect(s, true);
    MovedLedger(s, n, s.queue[0], best);
    DeliveryKeys(s, n, s.queue[0], best);
    DispatchKeepsInv(s, true);
    LedgerExtends(s, n);
    CompletablePersists(s, n, None, g);
  }

  lemma {:induction false} LongerThanAll(ids: set<AgentId>) returns (n: nat)
    ensures forall a | a in ids :: |a| < n
  {
    n := 0;
    if ids != {} {
      var a :| a in ids;
      var m := LongerThanAll(ids - {a});
      n := Max(m, |a| + 1);
    }
  }

  /** Some agent id is not taken. */
  lemma FreshAgentId(ids: set<AgentId>) returns (a: AgentId)
    ensures a !in ids
  {
    var n := LongerThanAll(ids);
    a := seq(n, _ => 'a');
  }

  lemma RegisteringHelps(s: Swarm, g: nat, a: AgentId)
    requires Completable(s, g) && a !in s.agents
    ensures var n := Next(s, Register(a, Executor));
            Completable(n, g) && SomeoneIdle(n) && n.tasks == s.tasks && n.queue == s.queue && n.goals == s.goals
  {
    var n := RegisterAgent(s, a, Executor);
    RegisterKeepsInv(s, a, Executor);
    LedgerExtendsMore(s, n);
    CompletablePersists(s, n, None, g);
    assert a in n.roster && Idle(n.agents[a]);
  }

  lemma LedgerExtendsMore(s: Swarm, n: Swarm)
    requires n.tasks == s.tasks && n.goals == s.goals && s.agents.Keys <= n.agents.Keys
    ensures Extends(s, n, None)
  {
  }

  lemma FinishingShrinks(s: Swarm, n: Swarm, t: TaskId)
    requires t in s.tasks && s.tasks[t].status != Completed && n.tasks == s.tasks[t := s.tasks[t].(status := Completed)]
    ensures |Unfinished(n)| < |Unfinished(s)|
  {
    assert Unfinished(n) == Unfinished(s) - {t};
    assert t in Unfinished(s);
  }

  /** A task in flight that reports can reach can be reported by its holder. */
  lemma HolderCanReport(s: Swarm, t: TaskId) returns (e: Event, a: AgentId)
    requires Inv(s) && t in s.tasks && s.tasks[t].status == InProgress && Answers(s, t)
    ensures Legal(s, e) && Next(s, e) == ReportOn(s, t, a, true) && HeldBy(s, t, a)
  {
    InProgressIsHeld(s, t);
    ReportReachesIff(s, t);
    a := s.tasks[t].assignedAgent.value;
    e := Report(s.tasks[t].id, a, true);
  }

  lemma SucceededCompletable(s: Swarm, n: Swarm, g: nat, t: TaskId, a: AgentId, unlocked: seq<TaskId>)
    requires Completable(s, g) && HeldBy(s, t, a) && SucceededTo(s, n, t, a, unlocked) && Inv(n)
    ensures Completable(n, g)
  {
    SucceededExtends(s, n, t, a, unlocked);
    CompletablePersists(s, n, Some(t), g);
  }

  lemma ReportingShrinks(s: Swarm, g: nat, t: TaskId) returns (e: Event)
    requires Completable(s, g) && t in s.goals[g].tasks && t in s.tasks && s.tasks[t].status == InProgress
    ensures Legal(s, e) && Completable(Next(s, e), g) && |Unfinished(Next(s, e))| < |Unfinished(s)|
  {
    var a: AgentId;
    assert Answers(s, t);
    e, a := HolderCanReport(s, t);
    SuccessKeepsInv(s, t, a);
    SuccessEffect(s, t, a);
    SucceededCompletable(s, ReportOn(s, t, a, true), g, t, a, LetIn(s, t, a));
    FinishingShrinks(s, ReportOn(s, t, a, true), t);
  }

  /** Some legal continuation completes a soundly planned goal whose tasks reports can reach, whatever other goals do and
      however many agents are taken by tasks that nobody can report. */
  lemma {:induction false} CanFinish(s: Swarm, g: nat) returns (es: seq<Event>)
    requires Completable(s, g)
    ensures LegalRun(s, es) && IsComplete(Run(s, es), g)
    decreases |Unfinished(s)|, |s.queue|, Busy(s)
  {
    if s.goals[g].status == Completed {
      return [];
    }
    var m := UnfinishedGoalMoves(s, g);
    var e := Tick(true);
    if s.tasks[m].status == InProgress {
      e := ReportingShrinks(s, g, m);
    } else if SomeoneIdle(s) {
      DeliveryStarts(s, g);
    } else {
      var a := FreshAgentId(s.agents.Keys);
      RegisteringHelps(s, g, a);
      e := Register(a, Executor);
    }
    var rest := CanFinish(Next(s, e), g);
    es := [e] + rest;
  }

  /** The finished tasks name only finished tasks of their goal, along a rank: the order in which they finished. */
  ghost predicate RanksDone(s: Swarm, rank: map<TaskId, nat>) {
    forall t | t in s.tasks && s.tasks[t].status == Completed :: t in rank &&
      forall d | d in s.tasks[t].deps :: exists u :: DoneBelow(s, rank, t, d, u)
  }

  ghost predicate DoneBelow(s: Swarm, rank: map<TaskId, nat>, t: TaskId, d: Label, u: TaskId)
    requires t in rank
  {
    FinishedAs(s, u, t.goal, d) && u in rank && rank[u] < rank[t]
  }

  lemma {:induction false} RankBound(rank: map<TaskId, nat>, ids: set<TaskId>) returns (bound: nat)
    requires ids <= rank.Keys
    ensures forall t | t in ids :: rank[t] < bound
  {
    bound := 0;
    if ids != {} {
      var t :| t in ids;
      var b := RankBound(rank, ids - {t});
      bound := Max(b, rank[t] + 1);
    }
  }

  ghost predicate DepsDone(s: Swarm, t: TaskId)
    requires t in s.tasks
  {
    forall d | d in s.tasks[t].deps :: exists u :: FinishedAs(s, u, t.goal, d)
  }

  /** What finishes is ranked above everything finished before. */
  lemma ExtendsRanks(s: Swarm, n: Swarm, done: Option<TaskId>, rank: map<TaskId, nat>) returns (r: map<TaskId, nat>)
    requires Extends(s, n, done) && RanksDone(s, rank)
    requires done.Some? ==> done.value in s.tasks && s.tasks[done.value].status != Completed && DepsDone(s, done.value)
    ensures RanksDone(n, r)
  {
    var finished := set t | t in s.tasks && s.tasks[t].status == Completed;
    assert finished <= rank.Keys;
    var bound := RankBound(rank, finished);
    r := if done.Some? then rank[done.value := bound] else rank;
    forall t | t in n.tasks && n.tasks[t].status == Completed
      ensures t in r && forall d | d in n.tasks[t].deps :: exists u :: DoneBelow(n, r, t, d, u)
    {
      forall d | d in n.tasks[t].deps ensures exists u :: DoneBelow(n, r, t, d, u) {
        if done == Some(t) {
          var u :| FinishedAs(s, u, t.goal, d);
          assert u in finished;
          assert DoneBelow(n, r, t, d, u);
        } else {
          var u :| DoneBelow(s, rank, t, d, u);
          assert DoneBelow(n, r, t, d, u);
        }
      }
    }
  }

  lemma ReadyDepsDone(s: Swarm, t: TaskId)
    requires WellShaped(s) && InGoal(s, t) && Ready(s, t)
    ensures DepsDone(s, t)
  {
    forall d | d in s.tasks[t].deps ensures exists u :: FinishedAs(s, u, t.goal, d) {
      assert Met(s.tasks, s.goals[t.goal].tasks, d);
      var u :| u in s.goals[t.goal].tasks && Carries(s.tasks, u, d) && s.tasks[u].status == Completed;
      assert FinishedAs(s, u, t.goal, d);
    }
  }

  lemma StepRanks(s: Swarm, e: Event, rank: map<TaskId, nat>) returns (r: map<TaskId, nat>)
    requires Inv(s) && Legal(s, e) && RanksDone(s, rank)
    ensures RanksDone(Next(s, e), r)
  {
    StepFinishes(s, e);
    if e.Report? {
      var t := ReportedIsHeld(s, e.id, e.reporter, e.success);
      ReadyDepsDone(s, t);
    }
    r := ExtendsRanks(s, Next(s, e), Finished(s, e), rank);
  }

  lemma {:induction false} FinishedTasksAreRanked(s: Swarm, es: seq<Event>, rank: map<TaskId, nat>) returns (r: map<TaskId, nat>)
    requires Inv(s) && LegalRun(s, es) && RanksDone(s, rank)
    ensures RanksDone(Run(s, es), r)
    decreases es
  {
    r := rank;
    if es != [] {
      r := StepRanks(s, es[0], rank);
      NextKeepsInv(s, es[0]);
      r := FinishedTasksAreRanked(Next(s, es[0]), es[1..], r);
    }
  }

  lemma DoneRanksGoal(s: Swarm, g: nat, rank: map<TaskId, nat>)
    requires Inv(s) && g < |s.goals| && s.goals[g].status == Completed && RanksDone(s, rank)
    ensures Ranks(s, g, rank)
  {
    forall t | t in s.goals[g].tasks
      ensures t in s.tasks && t in rank
      ensures forall d | d in s.tasks[t].deps :: exists u :: Below(s, g, rank, t, d, u)
    {
      forall d | d in s.tasks[t].deps ensures exists u :: Below(s, g, rank, t, d, u) {
        var u :| DoneBelow(s, rank, t, d, u);
        assert u in s.goals[g].tasks;
        assert Below(s, g, rank, t, d, u);
      }
    }
  }

  /** Only a soundly planned goal is ever COMPLETED: a cycle or a missing dependency blocks it for good. */
  lemma CompletedGoalWasSound(es: seq<Event>, s: Swarm, g: nat)
    requires Reached(es, s) && g < |s.goals| && s.goals[g].status == Completed
    ensures SoundPlan(s, g)
  {
    ReachedInv(es, s);
    assert Inv(Empty);
    var rank := FinishedTasksAreRanked(Empty, es, map[]);
    DoneRanksGoal(s, g, rank);
  }

  /** Some legal continuation completes goal `g`. */
  ghost predicate CanComplete(s: Swarm, g: nat) {
    exists fs :: LegalRun(s, fs) && IsComplete(Run(s, fs), g)
  }

  ghost predicate IsComplete(s: Swarm, g: nat) {
    g < |s.goals| && s.goals[g].status == Completed
  }

  lemma {:induction false} PlansNeverChange(s: Swarm, es: seq<Event>, g: nat)
    requires Inv(s) && LegalRun(s, es) && g < |s.goals|
    ensures g < |Run(s, es).goals| && Run(s, es).goals[g].tasks == s.goals[g].tasks
    ensures forall t | t in s.tasks :: t in Run(s, es).tasks && Run(s, es).tasks[t].deps == s.tasks[t].deps
                                        && Run(s, es).tasks[t].id == s.tasks[t].id
    decreases es
  {
    if es != [] {
      StepFinishes(s, es[0]);
      NextKeepsInv(s, es[0]);
      PlansNeverChange(Next(s, es[0]), es[1..], g);
    }
  }

  lemma RanksGoBack(s: Swarm, n: Swarm, g: nat, rank: map<TaskId, nat>)
    requires Inv(s) && g < |s.goals| && g < |n.goals| && n.goals[g].tasks == s.goals[g].tasks && Ranks(n, g, rank)
    requires forall t | t in s.tasks :: t in n.tasks && n.tasks[t].deps == s.tasks[t].deps && n.tasks[t].id == s.tasks[t].id
    ensures Ranks(s, g, rank)
  {
    forall t, d | t in s.goals[g].tasks && d in s.tasks[t].deps ensures exists u :: Below(s, g, rank, t, d, u) {
      var u :| Below(n, g, rank, t, d, u);
      assert Below(s, g, rank, t, d, u);
    }
  }

  lemma SoundFromTheEnd(s: Swarm, n: Swarm, g: nat)
    requires Inv(s) && g < |s.goals| && g < |n.goals| && n.goals[g].tasks == s.goals[g].tasks && SoundPlan(n, g)
    requires forall t | t in s.tasks :: t in n.tasks && n.tasks[t].deps == s.tasks[t].deps && n.tasks[t].id == s.tasks[t].id
    ensures SoundPlan(s, g)
  {
    var rank :| Ranks(n, g, rank);
    RanksGoBack(s, n, g, rank);
  }

  /** Nothing that comes later brings a task back into the reach of reports. */
  lemma AnswersGoBack(s: Swarm, n: Swarm, done: Option<TaskId>, t: TaskId)
    requires Extends(s, n, done) && t in s.tasks && Answers(n, t)
    ensures Answers(s, t)
  {
  }

  lemma {:induction false} OnlyAnsweringFinish(s: Swarm, es: seq<Event>, t: TaskId)
    requires Inv(s) && LegalRun(s, es) && t in s.tasks && s.tasks[t].status != Completed
    requires t in Run(s, es).tasks && Run(s, es).tasks[t].status == Completed
    ensures Answers(s, t)
    decreases es
  {
    var e, n := es[0], Next(s, es[0]);
    StepFinishes(s, e);
    NextKeepsInv(s, e);
    if n.tasks[t].status == Completed {
      FindMeans(s, e.id);
    } else {
      OnlyAnsweringFinish(n, es[1..], t);
      AnswersGoBack(s, n, Finished(s, e), t);
    }
  }

  lemma CompletedAnswered(s: Swarm, g: nat, fs: seq<Event>)
    requires Inv(s) && g < |s.goals| && LegalRun(s, fs) && IsComplete(Run(s, fs), g)
    ensures AllAnswer(s, g)
  {
    RunKeepsInv(s, fs);
    PlansNeverChange(s, fs, g);
    forall t | t in s.goals[g].tasks && t in s.tasks && s.tasks[t].status != Completed ensures Answers(s, t) {
      assert t in Run(s, fs).goals[g].tasks;
      OnlyAnsweringFinish(s, fs, t);
    }
  }

  lemma CompletedHasTasks(n: Swarm, g: nat)
    requires Inv(n) && IsComplete(n, g)
    ensures n.goals[g].tasks != []
  {
  }

  lemma CompletableOnlyIfSound(es: seq<Event>, s: Swarm, g: nat, fs: seq<Event>)
    requires Reached(es, s) && g < |s.goals| && LegalRun(s, fs) && IsComplete(Run(s, fs), g)
    ensures s.goals[g].tasks != [] && SoundPlan(s, g) && AllAnswer(s, g)
  {
    var n := Run(s, fs);
    ReachedInv(es, s);
    RunAppend(Empty, es, fs);
    ReachedInv(es + fs, n);
    CompletedGoalWasSound(es + fs, n, g);
    PlansNeverChange(s, fs, g);
    SoundFromTheEnd(s, n, g);
    CompletedHasTasks(n, g);
    CompletedAnswered(s, g, fs);
  }

  /** At any time a goal can still be completed exactly when it has tasks, its plan is sound, and reports can reach all its
      unfinished tasks. */
  lemma CompletableIffSound(es: seq<Event>, s: Swarm, g: nat)
    requires Reached(es, s) && g < |s.goals|
    ensures CanComplete(s, g) <==> s.goals[g].tasks != [] && SoundPlan(s, g) && AllAnswer(s, g)
  {
    ReachedInv(es, s);
    if s.goals[g].tasks != [] && SoundPlan(s, g) && AllAnswer(s, g) {
      var fs := CanFinish(s, g);
    }
    if CanComplete(s, g) {
      var fs :| LegalRun(s, fs) && IsComplete(Run(s, fs), g);
      CompletableOnlyIfSound(es, s, g, fs);
    }
  }
}
