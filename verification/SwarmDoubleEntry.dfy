/** A run in which two interleaving reports put a task in the queue twice, and what the second entry does. */
module SwarmDoubleEntry {
  import opened Prelude
  import opened SwarmProtocol
  import opened SwarmSafety
  import opened SwarmRuns
  import opened SwarmInterleaving

  // ---------- A run that gets there ----------

  const Plan := [NewTask("a", []), NewTask("ab", []), NewTask("abc", ["a", "ab"])]

  const A := TaskId(0, 0)
  const B := TaskId(0, 1)
  const C := TaskId(0, 2)

  /** Two agents, a goal of three tasks of which the third waits for the others, and two turns of the loop. */
  const Story := [Register("x", Planner), Register("xy", Planner), Submit(Plan), Tick(true), Tick(true)]

  function FreshAgent(): Agent { Agent(Planner, None, 0, 0, true, 10) }

  function BusyAgent(t: TaskId): Agent { Agent(Planner, Some(t), 0, 0, false, 10) }

  const TwoAgents := Swarm(map[], [], map["x" := FreshAgent(), "xy" := FreshAgent()], ["x", "xy"], [])

  const Submitted := Swarm(
    map[A := Task("a", [], Pending, None), B := Task("ab", [], Pending, None), C := Task("abc", ["a", "ab"], Pending, None)],
    [Goal([A, B, C], Pending)],
    map["x" := FreshAgent(), "xy" := FreshAgent()], ["x", "xy"], [A, B])

  const OneInFlight := Swarm(
    map[A := Task("a", [], InProgress, Some("x")), B := Task("ab", [], Pending, None),
        C := Task("abc", ["a", "ab"], Pending, None)],
    [Goal([A, B, C], Pending)],
    map["x" := BusyAgent(A), "xy" := FreshAgent()], ["x", "xy"], [B])

  const TwoInFlight := Swarm(
    map[A := Task("a", [], InProgress, Some("x")), B := Task("ab", [], InProgress, Some("xy")),
        C := Task("abc", ["a", "ab"], Pending, None)],
    [Goal([A, B, C], Pending)],
    map["x" := BusyAgent(A), "xy" := BusyAgent(B)], ["x", "xy"], [])

  lemma RegisterBoth()
    ensures Legal(Empty, Story[0]) && Legal(Next(Empty, Story[0]), Story[1])
    ensures Next(Next(Empty, Story[0]), Story[1]) == TwoAgents
  {
    assert [] + ["x"] == ["x"];
  }

  lemma PlanTables()
    ensures Places(0, 3) == [A, B, C] && Roots(0, Plan) == [A, B]
    ensures AddTasks(map[], 0, Plan) == Submitted.tasks
  {
    var two, one := [NewTask("a", []), NewTask("ab", [])], [NewTask("a", [])];
    assert Plan[..2] == two && two[..1] == one && one[..0] == [];
    assert Roots(0, one) == [A];
    assert Roots(0, two) == [A, B];
    assert AddTasks(map[], 0, one) == map[A := Task("a", [], Pending, None)];
  }

  lemma SubmitPlan()
    ensures Legal(TwoAgents, Story[2]) && Next(TwoAgents, Story[2]) == Submitted
  {
    PlanTables();
  }

  lemma FirstIsBest()
    ensures BestAgent(Submitted.agents, Submitted.roster) == Some("x")
    ensures BestAgent(OneInFlight.agents, OneInFlight.roster) == Some("xy")
  {
    var idle, busy := Submitted.agents, OneInFlight.agents;
    var both, one := ["x", "xy"], ["x"];
    assert both[..|both| - 1] == one && one[..|one| - 1] == [];
    assert BestAgent(idle, []) == None && BestAgent(busy, []) == None;
    assert BestAgent(idle, one) == Some("x");
    assert BestAgent(busy, one) == None;
    assert Suitability(idle["x"]) == 10 && Suitability(idle["xy"]) == 10;
    assert BestAgent(idle, both) == Some("x");
    assert BestAgent(busy, both) == Some("xy");
  }

  lemma FirstTurn()
    ensures Next(Submitted, Tick(true)) == OneInFlight
  {
    FirstIsBest();
    assert [A, B][1..] == [B];
  }

  lemma SecondTurn()
    ensures Next(OneInFlight, Tick(true)) == TwoInFlight
  {
    FirstIsBest();
    assert [B][1..] == [];
  }

  lemma StoryUnfolds(e1: Event, e2: Event, e3: Event, e4: Event, e5: Event)
    returns (es: seq<Event>)
    ensures es == [e1, e2, e3, e4, e5]
    ensures var s2 := Next(Next(Empty, e1), e2);
            Run(Empty, es) == Next(Next(Next(s2, e3), e4), e5)
    ensures var s2 := Next(Next(Empty, e1), e2);
            Legal(Empty, e1) && Legal(Next(Empty, e1), e2) && Legal(s2, e3) && Legal(Next(s2, e3), e4)
            && Legal(Next(Next(s2, e3), e4), e5)
            ==> LegalRun(Empty, es)
  {
    TwoSteps(Empty, e1, e2, [e3, e4, e5]);
    TwoSteps(Next(Next(Empty, e1), e2), e3, e4, [e5]);
    TwoStepsEnd(Next(Next(Next(Next(Empty, e1), e2), e3), e4), e5);
    es := [e1, e2] + ([e3, e4] + [e5]);
    assert [e3, e4, e5] == [e3, e4] + [e5];
  }

  lemma TwoSteps(s: Swarm, e: Event, f: Event, es: seq<Event>)
    ensures Run(s, [e, f] + es) == Run(Next(Next(s, e), f), es)
    ensures LegalRun(s, [e, f] + es) <==> Legal(s, e) && Legal(Next(s, e), f) && LegalRun(Next(Next(s, e), f), es)
  {
    assert ([e, f] + es)[1..] == [f] + es && ([f] + es)[1..] == es;
  }

  lemma TwoStepsEnd(s: Swarm, e: Event)
    ensures Run(s, [e]) == Next(s, e) && (LegalRun(s, [e]) <==> Legal(s, e))
  {
    assert [e][1..] == [];
  }

  lemma TwoInFlightIsReached()
    ensures Reached(Story, TwoInFlight)
  {
    var es := StoryUnfolds(Story[0], Story[1], Story[2], Story[3], Story[4]);
    assert Story == es;
    RegisterBoth();
    SubmitPlan();
    FirstTurn();
    SecondTurn();
  }

  lemma LabelsDiffer()
    ensures "a" != "ab" && "ab" != "abc" && "a" != "abc"
  {
    assert |"a"| == 1 && |"ab"| == 2 && |"abc"| == 3;
  }

  lemma BothReport()
    ensures TwoReports(TwoInFlight, A, "x", B, "xy")
  {
    TwoInFlightIsReached();
    ReachedInv(Story, TwoInFlight);
    LabelsDiffer();
    ReportReachesIff(TwoInFlight, A);
    ReportReachesIff(TwoInFlight, B);
  }

  lemma DependentIsLast()
    ensures LastTwo(BothMarked(TwoInFlight, A, "x", B, "xy"), A, B, C)
  {
    var m := BothMarked(TwoInFlight, A, "x", B, "xy");
    var ids, deps := m.goals[0].tasks, m.tasks[C].deps;
    assert ids == [A, B, C] && ids[0] == A && ids[1] == B;
    assert deps == ["a", "ab"] && deps[0] == "a" && deps[1] == "ab";
    assert Met(m.tasks, ids, "a") by { assert Carries(m.tasks, A, "a"); }
    assert Met(m.tasks, ids, "ab") by { assert Carries(m.tasks, B, "ab"); }
  }

  /** In a state that a run of five events leads to, two legal reports that interleave put the dependent in the queue
      twice. */
  lemma InterleavedReportsQueueTwice()
    ensures Reached(Story, TwoInFlight) && TwoReports(TwoInFlight, A, "x", B, "xy")
    ensures InGoal(TwoInFlight, A) && InGoal(TwoInFlight, B)
    ensures !Distinct(QueueAfter(TwoInFlight, A, "x", B, "xy"))
  {
    TwoInFlightIsReached();
    BothReport();
    DependentIsLast();
    QueuedOnceIff(TwoInFlight, A, "x", B, "xy");
  }

  // ---------- What the second entry does ----------

  function Twice(): Swarm {
    Swarm(
      map[A := Task("a", [], Completed, Some("x")), B := Task("ab", [], Completed, Some("xy")),
          C := Task("abc", ["a", "ab"], Pending, None)],
      [Goal([A, B, C], Pending)],
      map["x" := Agent(Planner, None, 1, 0, true, 11), "xy" := Agent(Planner, None, 1, 0, true, 11)], ["x", "xy"], [C, C])
  }

  function TakenUp(): Swarm {
    Twice().(tasks := Twice().tasks[C := Task("abc", ["a", "ab"], InProgress, Some("x"))],
             agents := Twice().agents["x" := Agent(Planner, Some(C), 1, 0, false, 11)], queue := [C])
  }

  function AllDone(): Swarm {
    TakenUp().(tasks := TakenUp().tasks[C := Task("abc", ["a", "ab"], Completed, Some("x"))],
               goals := [Goal([A, B, C], Completed)],
               agents := TakenUp().agents["x" := Agent(Planner, None, 2, 0, true, 12)])
  }

  lemma UnlockedByOne(m: Swarm, id: Label)
    requires m.tasks == Twice().tasks && m.goals == Twice().goals && (id == "a" || id == "ab")
    ensures Unlocked(m, id, [A, B, C]) == [C]
  {
    var two, one := [A, B], [A];
    assert [A, B, C][..2] == two && two[..1] == one && one[..0] == [];
    var deps := m.tasks[C].deps;
    assert deps == ["a", "ab"] && deps[0] == "a" && deps[1] == "ab";
    assert m.goals[0].tasks[0] == A && m.goals[0].tasks[1] == B;
    assert Met(m.tasks, m.goals[0].tasks, "a") by { assert Carries(m.tasks, A, "a"); }
    assert Met(m.tasks, m.goals[0].tasks, "ab") by { assert Carries(m.tasks, B, "ab"); }
    assert Unlocked(m, id, one) == [];
    assert Unlocked(m, id, two) == [];
  }

  lemma FirstFinishes(m: Swarm)
    requires m == BothMarked(TwoInFlight, A, "x", B, "xy")
    ensures FinishReport(m, A, "x") == Twice().(queue := [C], agents := FreeAgent(m, "x").agents)
  {
    assert m.tasks == Twice().tasks;
    UnlockedByOne(m, "a");
    assert C in m.goals[0].tasks by { assert m.goals[0].tasks[2] == C; }
  }

  lemma SecondFinishes(n: Swarm)
    requires n.tasks == Twice().tasks && n.goals == Twice().goals && n.queue == [C]
    ensures FinishReport(n, B, "xy") == FreeAgent(n.(queue := [C, C]), "xy")
  {
    UnlockedByOne(n, "ab");
    assert C in n.goals[0].tasks by { assert n.goals[0].tasks[2] == C; }
  }

  lemma BothFinish()
    ensures BothReported(TwoInFlight, A, "x", B, "xy") == Twice()
  {
    var m := BothMarked(TwoInFlight, A, "x", B, "xy");
    FirstFinishes(m);
    SecondFinishes(FinishReport(m, A, "x"));
  }

  lemma FirstOfTwo(agents: map<AgentId, Agent>)
    requires agents.Keys == {"x", "xy"} && Idle(agents["x"]) && Suitability(agents["x"]) >= Suitability(agents["xy"])
    ensures BestAgent(agents, ["x", "xy"]) == Some("x")
  {
    var both, one := ["x", "xy"], ["x"];
    assert both[..1] == one && one[..0] == [];
    assert BestAgent(agents, []) == None;
    assert BestAgent(agents, one) == Some("x");
  }

  lemma TakenUpOnce()
    ensures Next(Twice(), Tick(true)) == TakenUp()
  {
    FirstOfTwo(Twice().agents);
    assert [C, C][1..] == [C];
  }

  lemma ThirdIsFound(s: Swarm)
    requires s.tasks == TakenUp().tasks && s.goals == TakenUp().goals
    ensures Find(s, "abc") == Some(C)
  {
    LabelsDiffer();
    var three, two, one := [A, B, C], [A, B], [A];
    assert three[..2] == two && two[..1] == one && one[..0] == [];
    assert FindIn(s.tasks, one, "abc") == None;
    assert FindIn(s.tasks, two, "abc") == None;
  }

  lemma NobodyDependsOnThird(m: Swarm)
    requires m.tasks == AllDone().tasks
    ensures Unlocked(m, "abc", [A, B, C]) == []
  {
    var two, one := [A, B], [A];
    assert [A, B, C][..2] == two && two[..1] == one && one[..0] == [];
    assert Unlocked(m, "abc", one) == [];
    assert Unlocked(m, "abc", two) == [];
  }

  lemma ThirdIsReported()
    ensures Next(TakenUp(), Report("abc", "x", true)) == AllDone()
  {
    var s := TakenUp();
    ThirdIsFound(s);
    var m := MarkCompleted(s, C, "x");
    assert m.tasks == AllDone().tasks;
    NobodyDependsOnThird(m);
    assert m.queue + [] == m.queue;
    assert AllCompleted(m.tasks, [A, B, C]);
  }

  predicate StatusIs(s: Swarm, t: TaskId, status: TaskStatus) {
    t in s.tasks && s.tasks[t].status == status
  }

  lemma RunsToTheEnd()
    ensures Run(Twice(), [Tick(true), Report("abc", "x", true)]) == AllDone()
  {
    TakenUpOnce();
    ThirdIsReported();
    var es := [Tick(true), Report("abc", "x", true)];
    assert es[1..] == [Report("abc", "x", true)] && es[1..][1..] == [];
  }

  lemma TakenUpTwice()
    ensures StatusIs(AllDone(), C, Completed) && IsComplete(AllDone(), 0)
    ensures StatusIs(Next(AllDone(), Tick(true)), C, InProgress) && IsComplete(Next(AllDone(), Tick(true)), 0)
  {
    FirstOfTwo(AllDone().agents);
  }

  /** After the two reports the dependent is in the queue twice. It is taken up and finished, and with it the goal; then the
      second entry takes the finished task of the finished goal up again. */
  lemma FinishedIsTakenUpAgain() returns (twice: Swarm, done: Swarm)
    ensures Reached(Story, TwoInFlight) && twice == BothReported(TwoInFlight, A, "x", B, "xy")
    ensures done == Run(twice, [Tick(true), Report("abc", "x", true)])
    ensures StatusIs(done, C, Completed) && IsComplete(done, 0)
    ensures StatusIs(Next(done, Tick(true)), C, InProgress) && IsComplete(Next(done, Tick(true)), 0)
  {
    twice, done := Twice(), AllDone();
    TwoInFlightIsReached();
    BothFinish();
    RunsToTheEnd();
    TakenUpTwice();
  }
}
