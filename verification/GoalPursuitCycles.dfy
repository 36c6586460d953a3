/** What one pursuit cycle does to a goal, and what replanning does to one that is trapped. */
module GoalPursuitCycles {
  import opened Prelude
  import opened GoalPursuit
  import opened GoalPursuitTheorems

  // ---------- Obstacles ----------

  /** The places of the obstacles that are not resolved. */
  function OpenPlaces(obstacles: seq<Obstacle>): set<nat> {
    set i: nat | i < |obstacles| && !obstacles[i].resolved
  }

  lemma {:induction false} UnresolvedIsTheirNumber(obstacles: seq<Obstacle>)
    ensures Unresolved(obstacles) == |OpenPlaces(obstacles)|
  {
    if obstacles != [] {
      var k := |obstacles| - 1;
      UnresolvedIsTheirNumber(obstacles[..k]);
      assert OpenPlaces(obstacles) == OpenPlaces(obstacles[..k]) + if obstacles[k].resolved then {} else {k};
    }
  }

  /** `places` are the places of the unresolved ones in ascending order, and `kept` is what stands there. */
  ghost predicate KeptAt(obstacles: seq<Obstacle>, kept: seq<Obstacle>, places: seq<nat>) {
    && |places| == |kept| && (forall i, j | 0 <= i < j < |places| :: places[i] < places[j])
    && (forall i | 0 <= i < |places| :: places[i] < |obstacles| && !obstacles[places[i]].resolved && kept[i] == obstacles[places[i]])
    && forall k | 0 <= k < |obstacles| && !obstacles[k].resolved :: k in places
  }

  lemma {:induction false} UnresolvedAreKept(obstacles: seq<Obstacle>) returns (places: seq<nat>)
    ensures KeptAt(obstacles, OnlyUnresolved(obstacles), places)
  {
    places := [];
    if obstacles != [] {
      var k := |obstacles| - 1;
      places := UnresolvedAreKept(obstacles[..k]);
      OneMoreKept(obstacles, OnlyUnresolved(obstacles[..k]), places);
      if !obstacles[k].resolved { places := places + [k]; }
    }
  }

  lemma OneMoreKept(obstacles: seq<Obstacle>, kept: seq<Obstacle>, places: seq<nat>)
    requires obstacles != [] && KeptAt(obstacles[..|obstacles| - 1], kept, places)
    ensures var k := |obstacles| - 1;
            if obstacles[k].resolved then KeptAt(obstacles, kept + [], places)
            else KeptAt(obstacles, kept + [obstacles[k]], places + [k])
  {
    var k := |obstacles| - 1;
    assert forall i | 0 <= i < k :: obstacles[..k][i] == obstacles[i];
    assert kept + [] == kept;
    assert (places + [k])[|places|] == k;
    forall i | 0 <= i < k && !obstacles[i].resolved ensures i in places && i in places + [k] { }
  }

  // ---------- One cycle ----------

  /** A new goal is active, with its milestones open, nothing tried, nothing in its way and no progress. */
  lemma NewGoalIs(descriptions: seq<string>, maxAttempts: int)
    ensures var g := NewGoal(descriptions, maxAttempts);
            && g.status == Active && g.attempts == 0 && g.maxAttempts == maxAttempts && Planned(g.milestones, descriptions)
            && g.obstacles == [] && g.progress == 0.0
  {
  }

  /** The milestones are new ones with these descriptions. */
  ghost predicate Planned(ms: seq<Milestone>, descriptions: seq<string>) {
    |ms| == |descriptions| && forall i | 0 <= i < |ms| :: ms[i] == Milestone(descriptions[i], false)
  }

  /** In a cycle with three unresolved obstacles or more and an attempt left after it, the goal is replanned: an answer replaces the
      milestones, sets the progress back and drops the resolved obstacles, and without one all of these stay. */
  lemma TrappedIsReplanned(g: Goal, a: Answers) returns (places: seq<nat>)
    requires g.status == Active && g.attempts + 1 < g.maxAttempts && |OpenPlaces(g.obstacles)| >= 3
    ensures var h := Cycle(g, a);
            && h.status == Active && h.attempts == g.attempts + 1 && h.maxAttempts == g.maxAttempts
            && (match a.replan
                case None => h.milestones == g.milestones && h.progress == g.progress && h.obstacles == g.obstacles
                case Some(ds) => Planned(h.milestones, ds) && h.progress == 0.0 && KeptAt(g.obstacles, h.obstacles, places))
  {
    UnresolvedIsTheirNumber(g.obstacles);
    places := UnresolvedAreKept(g.obstacles);
  }

  /** With fewer, the first open milestone is closed, and the progress raised to match; or the new obstacle is noted, after one try to
      overcome it. */
  lemma OpenIsAttempted(g: Goal, a: Answers, i: nat)
    requires InOrder(g) && g.status == Active && g.attempts + 1 < g.maxAttempts && |OpenPlaces(g.obstacles)| < 3
    requires i < |g.milestones| && !g.milestones[i].completed && forall j | 0 <= j < i :: g.milestones[j].completed
    ensures var h := Cycle(g, a);
            && h.status == Active && h.attempts == g.attempts + 1 && h.maxAttempts == g.maxAttempts
            && (if a.done then
                  && h.milestones == g.milestones[i := Milestone(g.milestones[i].description, true)]
                  && h.progress == (i + 1) as real / |g.milestones| as real * 100.0 && h.obstacles == g.obstacles
                else
                  && h.milestones == g.milestones && h.progress == g.progress
                  && h.obstacles == g.obstacles + [Obstacle(a.obstacle, 1, a.overcome)])
  {
    UnresolvedIsTheirNumber(g.obstacles);
    assert NextOpen(g.milestones) == i;
    AttemptInOrder(g.(attempts := g.attempts + 1), a);
  }

  /** With fewer and no open milestone the goal is completed; and on the last attempt it has failed, whatever else. */
  lemma LastCycles(g: Goal, a: Answers)
    requires g.status == Active
    ensures g.attempts + 1 >= g.maxAttempts ==> Cycle(g, a) == g.(status := Failed, attempts := g.attempts + 1)
    ensures g.attempts + 1 < g.maxAttempts && |OpenPlaces(g.obstacles)| < 3 && (forall m | m in g.milestones :: m.completed) ==>
              Cycle(g, a) == g.(status := Completed, attempts := g.attempts + 1, progress := 100.0)
  {
    UnresolvedIsTheirNumber(g.obstacles);
    var next := NextOpen(g.milestones);
    assert next < |g.milestones| ==> g.milestones[next] in g.milestones;
  }

  // ---------- In the trap ----------

  /** What the last replan that was answered said. */
  function LastPlan(cycles: seq<Answers>): Option<seq<string>> {
    if cycles == [] then None
    else if cycles[|cycles| - 1].replan.Some? then cycles[|cycles| - 1].replan
    else LastPlan(cycles[..|cycles| - 1])
  }

  /** The cycles that are not the last attempt of the goal or come after it. */
  function InTime(g: Goal, cycles: seq<Answers>): (r: seq<Answers>)
    ensures |r| <= |cycles|
  {
    cycles[..Min(|cycles|, Max(0, g.maxAttempts - g.attempts - 1))]
  }

  lemma LastPlanCons(a: Answers, rest: seq<Answers>)
    ensures LastPlan([a] + rest) == if LastPlan(rest).Some? then LastPlan(rest) else a.replan
    decreases |rest|
  {
    var all := [a] + rest;
    if rest != [] {
      assert all[..|all| - 1] == [a] + rest[..|rest| - 1];
      LastPlanCons(a, rest[..|rest| - 1]);
    } else {
      assert all[..0] == [];
    }
  }

  lemma InTimeCons(g: Goal, cycles: seq<Answers>, h: Goal)
    requires cycles != [] && g.attempts + 1 < g.maxAttempts && h.attempts == g.attempts + 1 && h.maxAttempts == g.maxAttempts
    ensures InTime(g, cycles) == [cycles[0]] + InTime(h, cycles[1..])
  {
  }

  /** A trapped goal has all the while the milestones of the last replan that was answered in time, all of them open, or those it had
      if none was. */
  lemma {:induction false} TrappedHasTheLastPlan(g: Goal, cycles: seq<Answers>)
    requires g.status == Active && |OpenPlaces(g.obstacles)| >= 3
    ensures var h := Run(g, cycles);
            match LastPlan(InTime(g, cycles))
            case None => h.milestones == g.milestones && h.progress == g.progress
            case Some(ds) => Planned(h.milestones, ds) && h.progress == 0.0
    decreases |cycles|
  {
    if cycles != [] {
      var h := Cycle(g, cycles[0]);
      if g.attempts + 1 >= g.maxAttempts {
        LastCycles(g, cycles[0]);
        EndedStays(h, cycles[1..]);
        assert InTime(g, cycles) == [];
      } else {
        var places := TrappedIsReplanned(g, cycles[0]);
        UnresolvedIsTheirNumber(g.obstacles);
        UnresolvedIsTheirNumber(h.obstacles);
        CycleKeepsObstacles(g, cycles[0]);
        TrappedHasTheLastPlan(h, cycles[1..]);
        InTimeCons(g, cycles, h);
        LastPlanCons(cycles[0], InTime(h, cycles[1..]));
      }
    }
  }
}
