/** What every goal goes through: it ends in time, its milestones close in order, its obstacles never go away on their
    own, and exactly which goals are completed. */
module GoalPursuitTheorems {
  import opened Prelude
  import opened GoalPursuit

  // ---------- Ending ----------

  lemma {:induction false} EndedStays(g: Goal, cycles: seq<Answers>)
    requires g.status != Active
    ensures Run(g, cycles) == g
    decreases |cycles|
  {
    if cycles != [] { EndedStays(g, cycles[1..]); }
  }

  /** Every goal is completed or failed once its attempts are used up: after `maxAttempts` cycles at the latest. */
  lemma {:induction false} EveryGoalEnds(g: Goal, cycles: seq<Answers>)
    requires g.status == Active && |cycles| >= Max(1, g.maxAttempts - g.attempts)
    ensures Run(g, cycles).status in {Completed, Failed}
    decreases |cycles|
  {
    var h := Cycle(g, cycles[0]);
    if h.status == Active {
      assert h.attempts == g.attempts + 1 < g.maxAttempts == h.maxAttempts;
      EveryGoalEnds(h, cycles[1..]);
    } else {
      EndedStays(h, cycles[1..]);
    }
  }

  // ---------- Milestones and progress ----------

  /** The completed milestones come first, and the stored percentage is their share. */
  ghost predicate InOrder(g: Goal) {
    && CompletedCount(g.milestones) == NextOpen(g.milestones)
    && (forall i | NextOpen(g.milestones) <= i < |g.milestones| :: !g.milestones[i].completed)
    && (g.milestones != [] ==> g.progress == Share(g.milestones))
  }

  lemma {:induction false} CountOfPrefix(ms: seq<Milestone>, n: nat)
    requires n <= |ms| && forall i | 0 <= i < |ms| :: ms[i].completed <==> i < n
    ensures CompletedCount(ms) == n && NextOpen(ms) == n
  {
    if ms != [] {
      CountOfPrefix(ms[..|ms| - 1], Min(n, |ms| - 1));
    }
  }

  lemma AttemptInOrder(g: Goal, a: Answers)
    requires InOrder(g) && NextOpen(g.milestones) < |g.milestones|
    ensures InOrder(Attempt(g, a, NextOpen(g.milestones)))
    ensures a.done ==> var h := Attempt(g, a, NextOpen(g.milestones));
                       CompletedCount(h.milestones) == CompletedCount(g.milestones) + 1
  {
    if a.done {
      var h := Attempt(g, a, NextOpen(g.milestones));
      CountOfPrefix(h.milestones, NextOpen(g.milestones) + 1);
    }
  }

  lemma ReplanInOrder(g: Goal, a: Answers)
    requires InOrder(g)
    ensures InOrder(Replan(g, a))
  {
    if a.replan.Some? {
      var ms := Fresh(a.replan.value);
      CountOfPrefix(ms, 0);
      assert ms != [] ==> Share(ms) == 0.0;
    }
  }

  lemma AllDoneInOrder(g: Goal)
    requires InOrder(g) && NextOpen(g.milestones) == |g.milestones|
    ensures InOrder(g.(status := Completed, progress := 100.0))
  {
    if g.milestones != [] {
      var n := |g.milestones| as real;
      assert n / n == 1.0;
    }
  }

  lemma CycleInOrder(g: Goal, a: Answers)
    requires InOrder(g)
    ensures InOrder(Cycle(g, a))
    ensures Cycle(g, a).status == Completed && g.status == Active ==> CompletedCount(g.milestones) == |g.milestones|
  {
    var h := g.(attempts := g.attempts + 1);
    if g.status == Active && h.attempts < h.maxAttempts {
      if Unresolved(g.obstacles) >= MaxObstacles {
        ReplanInOrder(h, a);
      } else if NextOpen(g.milestones) < |g.milestones| {
        AttemptInOrder(h, a);
      } else {
        AllDoneInOrder(h);
      }
    }
  }

  lemma {:induction false} RunInOrder(g: Goal, cycles: seq<Answers>)
    requires InOrder(g)
    ensures InOrder(Run(g, cycles))
    decreases |cycles|
  {
    if cycles != [] {
      CycleInOrder(g, cycles[0]);
      RunInOrder(Cycle(g, cycles[0]), cycles[1..]);
    }
  }

  /** In every state of every goal, through any number of replans, the completed milestones are a prefix and the stored
      percentage is their share. */
  lemma MilestonesCloseInOrder(descriptions: seq<string>, maxAttempts: int, cycles: seq<Answers>)
    ensures InOrder(Run(NewGoal(descriptions, maxAttempts), cycles))
  {
    CountOfPrefix(Fresh(descriptions), 0);
    RunInOrder(NewGoal(descriptions, maxAttempts), cycles);
  }

  // ---------- Obstacles ----------

  lemma {:induction false} OnlyUnresolvedCounts(obstacles: seq<Obstacle>)
    ensures Unresolved(OnlyUnresolved(obstacles)) == Unresolved(obstacles)
  {
    if obstacles != [] {
      var front, last := obstacles[..|obstacles| - 1], obstacles[|obstacles| - 1];
      OnlyUnresolvedCounts(front);
      var kept := OnlyUnresolved(front);
      if last.resolved { assert kept + [] == kept; } else { assert (kept + [last])[..|kept|] == kept; }
    }
  }

  lemma UnresolvedSnoc(obstacles: seq<Obstacle>, o: Obstacle)
    ensures Unresolved(obstacles + [o]) == Unresolved(obstacles) + if o.resolved then 0 else 1
  {
    assert (obstacles + [o])[..|obstacles|] == obstacles;
  }

  lemma AttemptKeepsObstacles(g: Goal, a: Answers, next: nat)
    requires next < |g.milestones|
    ensures Unresolved(Attempt(g, a, next).obstacles)
            == Unresolved(g.obstacles) + if a.done || a.overcome then 0 else 1
  {
    UnresolvedSnoc(g.obstacles, Obstacle(a.obstacle, 1, a.overcome));
  }

  lemma ReplanKeepsObstacles(g: Goal, a: Answers)
    ensures Unresolved(Replan(g, a).obstacles) == Unresolved(g.obstacles)
  {
    OnlyUnresolvedCounts(g.obstacles);
  }

  lemma CycleKeepsObstacles(g: Goal, a: Answers)
    ensures Unresolved(Cycle(g, a).obstacles) >= Unresolved(g.obstacles)
    ensures Unresolved(g.obstacles) >= MaxObstacles && g.status == Active ==> Cycle(g, a).status != Completed
  {
    var h := g.(attempts := g.attempts + 1);
    ReplanKeepsObstacles(h, a);
    if NextOpen(g.milestones) < |g.milestones| { AttemptKeepsObstacles(h, a, NextOpen(g.milestones)); }
  }

  /** The number of unresolved obstacles never falls, and three of them are a trap: replanning drops none, so the goal
      is never completed. */
  lemma {:induction false} ObstaclesStay(g: Goal, cycles: seq<Answers>)
    ensures Unresolved(Run(g, cycles).obstacles) >= Unresolved(g.obstacles)
    ensures Unresolved(g.obstacles) >= MaxObstacles && g.status != Completed ==> Run(g, cycles).status != Completed
    decreases |cycles|
  {
    if cycles != [] {
      CycleKeepsObstacles(g, cycles[0]);
      ObstaclesStay(Cycle(g, cycles[0]), cycles[1..]);
    }
  }

  // ---------- Which goals are completed ----------

  function Successes(cycles: seq<Answers>): (r: nat)
    ensures r <= |cycles|
  {
    if cycles == [] then 0 else (if cycles[0].done then 1 else 0) + Successes(cycles[1..])
  }

  function Stuck(cycles: seq<Answers>): nat {
    if cycles == [] then 0
    else (if !cycles[0].done && !cycles[0].overcome then 1 else 0) + Stuck(cycles[1..])
  }

  /** Within the attempts that are left, `k` cycles close all open milestones and leave at most two obstacles; and one
      more attempt is left to notice it. */
  predicate ClearedBy(g: Goal, cycles: seq<Answers>, k: nat) {
    && k < |cycles| && g.attempts + k + 1 < g.maxAttempts
    && CompletedCount(g.milestones) + Successes(cycles[..k]) >= |g.milestones|
    && Unresolved(g.obstacles) + Stuck(cycles[..k]) < MaxObstacles
  }

  /** `h` is `g` after one attempt with the answers `a`. */
  predicate Attempted(g: Goal, a: Answers, h: Goal) {
    && h.maxAttempts == g.maxAttempts && h.attempts == g.attempts + 1 && |h.milestones| == |g.milestones|
    && CompletedCount(h.milestones) == CompletedCount(g.milestones) + (if a.done then 1 else 0)
    && Unresolved(h.obstacles) == Unresolved(g.obstacles) + if a.done || a.overcome then 0 else 1
  }

  lemma AttemptIsCounted(g: Goal, a: Answers)
    requires InOrder(g) && g.status == Active && g.attempts + 1 < g.maxAttempts
    requires Unresolved(g.obstacles) < MaxObstacles && NextOpen(g.milestones) < |g.milestones|
    ensures var h := Cycle(g, a); h.status == Active && InOrder(h) && Attempted(g, a, h)
  {
    AttemptInOrder(g.(attempts := g.attempts + 1), a);
    AttemptKeepsObstacles(g.(attempts := g.attempts + 1), a, NextOpen(g.milestones));
  }

  lemma ClearedShifts(g: Goal, cycles: seq<Answers>, h: Goal, k: nat)
    requires cycles != [] && Attempted(g, cycles[0], h)
    ensures ClearedBy(g, cycles, k + 1) <==> ClearedBy(h, cycles[1..], k)
  {
    if k + 1 < |cycles| {
      assert cycles[..k + 1][1..] == cycles[1..][..k];
      assert cycles[..k + 1][0] == cycles[0];
    }
  }

  /** An attempt moves one cycle from the answers into the goal. */
  lemma AttemptCounts(g: Goal, cycles: seq<Answers>, k: nat)
    requires InOrder(g) && g.status == Active && g.attempts + 1 < g.maxAttempts && cycles != []
    requires Unresolved(g.obstacles) < MaxObstacles && NextOpen(g.milestones) < |g.milestones|
    ensures var h := Cycle(g, cycles[0]);
            h.status == Active && InOrder(h) && (ClearedBy(g, cycles, k + 1) <==> ClearedBy(h, cycles[1..], k))
  {
    AttemptIsCounted(g, cycles[0]);
    ClearedShifts(g, cycles, Cycle(g, cycles[0]), k);
  }

  lemma {:induction false} ClearedIsCompleted(g: Goal, cycles: seq<Answers>, k: nat)
    requires InOrder(g) && g.status == Active && ClearedBy(g, cycles, k)
    ensures Run(g, cycles).status == Completed
    decreases |cycles|
  {
    if NextOpen(g.milestones) == |g.milestones| {
      EndedStays(Cycle(g, cycles[0]), cycles[1..]);
    } else {
      assert k > 0 by { assert cycles[..0] == []; }
      AttemptCounts(g, cycles, k - 1);
      ClearedIsCompleted(Cycle(g, cycles[0]), cycles[1..], k - 1);
    }
  }

  lemma {:induction false} CompletedIsCleared(g: Goal, cycles: seq<Answers>) returns (k: nat)
    requires InOrder(g) && g.status == Active && Run(g, cycles).status == Completed
    ensures ClearedBy(g, cycles, k)
    decreases |cycles|
  {
    var h := Cycle(g, cycles[0]);
    if g.attempts + 1 >= g.maxAttempts { EndedStays(h, cycles[1..]); }
    ObstaclesStay(g, cycles);
    if NextOpen(g.milestones) == |g.milestones| {
      k := 0;
      assert cycles[..0] == [];
    } else {
      AttemptCounts(g, cycles, 0);
      var j := CompletedIsCleared(h, cycles[1..]);
      AttemptCounts(g, cycles, j);
      k := j + 1;
    }
  }

  /** Exactly which goals are completed: those whose milestones are all closed, one per successful cycle, before the
      last attempt but one and before a third obstacle stays unresolved. Replanning completes none. */
  lemma CompletedIff(descriptions: seq<string>, maxAttempts: int, cycles: seq<Answers>)
    ensures var g := NewGoal(descriptions, maxAttempts);
            Run(g, cycles).status == Completed <==> exists k: nat :: ClearedBy(g, cycles, k)
  {
    var g := NewGoal(descriptions, maxAttempts);
    CountOfPrefix(Fresh(descriptions), 0);
    if Run(g, cycles).status == Completed {
      var k := CompletedIsCleared(g, cycles);
    }
    if k: nat :| ClearedBy(g, cycles, k) {
      ClearedIsCompleted(g, cycles, k);
    }
  }

  /** A goal with no fewer milestones than attempts, less one, is never completed whatever happens. */
  lemma TooManyMilestones(descriptions: seq<string>, maxAttempts: int, cycles: seq<Answers>)
    requires |descriptions| + 1 >= maxAttempts
    ensures Run(NewGoal(descriptions, maxAttempts), cycles).status != Completed
  {
    var g := NewGoal(descriptions, maxAttempts);
    CompletedIff(descriptions, maxAttempts, cycles);
    CountOfPrefix(Fresh(descriptions), 0);
  }
}
