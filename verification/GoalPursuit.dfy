/** The life of an autonomously pursued goal, one pursuit cycle after the other; what the model, the strategies and the
    replanning answer is an input of each cycle. */
module GoalPursuit {
  import opened Prelude

  datatype GoalStatus = Active | Paused | Blocked | Completed | Failed | Abandoned

  datatype Milestone = Milestone(description: string, completed: bool)

  datatype Obstacle = Obstacle(description: string, attempts: nat, resolved: bool)

  datatype Goal = Goal(status: GoalStatus, attempts: int, maxAttempts: int, milestones: seq<Milestone>,
                       obstacles: seq<Obstacle>, progress: real)

  /** What one cycle is told: whether the milestone is done, else the obstacle met and whether a strategy overcame it;
      and, if the goal is replanned, its new milestones, unless that fails. */
  datatype Answers = Answers(done: bool, obstacle: string, overcome: bool, replan: Option<seq<string>>)

  const MaxObstacles := 3

  function Unresolved(obstacles: seq<Obstacle>): nat {
    if obstacles == [] then 0
    else Unresolved(obstacles[..|obstacles| - 1]) + if obstacles[|obstacles| - 1].resolved then 0 else 1
  }

  function OnlyUnresolved(obstacles: seq<Obstacle>): seq<Obstacle> {
    if obstacles == [] then []
    else
      var last := obstacles[|obstacles| - 1];
      OnlyUnresolved(obstacles[..|obstacles| - 1]) + if last.resolved then [] else [last]
  }

  function CompletedCount(ms: seq<Milestone>): (r: nat)
    ensures r <= |ms|
  {
    if ms == [] then 0 else CompletedCount(ms[..|ms| - 1]) + if ms[|ms| - 1].completed then 1 else 0
  }

  /** The position of the first open milestone, or the length if there is none. */
  function NextOpen(ms: seq<Milestone>): (r: nat)
    ensures r <= |ms| && (forall i | 0 <= i < r :: ms[i].completed) && (r < |ms| ==> !ms[r].completed)
  {
    if ms == [] then 0
    else
      var front := NextOpen(ms[..|ms| - 1]);
      if front < |ms| - 1 || !ms[|ms| - 1].completed then front else |ms|
  }

  function Fresh(descriptions: seq<string>): (r: seq<Milestone>)
    ensures |r| == |descriptions| && forall i | 0 <= i < |r| :: r[i] == Milestone(descriptions[i], false)
  {
    seq(|descriptions|, i requires 0 <= i < |descriptions| => Milestone(descriptions[i], false))
  }

  function Share(ms: seq<Milestone>): real
    requires ms != []
  {
    CompletedCount(ms) as real / |ms| as real * 100.0
  }

  function Replan(g: Goal, a: Answers): Goal {
    match a.replan
    case None => g
    case Some(descriptions) =>
      g.(milestones := Fresh(descriptions), progress := 0.0, obstacles := OnlyUnresolved(g.obstacles))
  }

  function Attempt(g: Goal, a: Answers, next: nat): Goal
    requires next < |g.milestones|
  {
    if a.done then
      var ms := g.milestones[next := g.milestones[next].(completed := true)];
      g.(milestones := ms, progress := Share(ms))
    else
      g.(obstacles := g.obstacles + [Obstacle(a.obstacle, 1, a.overcome)])
  }

  /** One pursuit of an active goal. */
  function Pursue(g0: Goal, a: Answers): Goal {
    var g := g0.(attempts := g0.attempts + 1);
    if g.attempts >= g.maxAttempts then g.(status := Failed)
    else if Unresolved(g.obstacles) >= MaxObstacles then Replan(g, a)
    else
      var next := NextOpen(g.milestones);
      if next == |g.milestones| then g.(status := Completed, progress := 100.0) else Attempt(g, a, next)
  }

  function Cycle(g: Goal, a: Answers): Goal {
    if g.status == Active then Pursue(g, a) else g
  }

  function Run(g: Goal, cycles: seq<Answers>): Goal
    decreases |cycles|
  {
    if cycles == [] then g else Run(Cycle(g, cycles[0]), cycles[1..])
  }

  function NewGoal(descriptions: seq<string>, maxAttempts: int): Goal {
    Goal(Active, 0, maxAttempts, Fresh(descriptions), [], 0.0)
  }

  // ---------- The object ----------

  class AutonomousGoal {
    var status: GoalStatus
    var attempts: int
    const maxAttempts: int
    var milestones: seq<Milestone>
    var obstacles: seq<Obstacle>
    var progress: real

    ghost function View(): Goal
      reads this
    {
      Goal(status, attempts, maxAttempts, milestones, obstacles, progress)
    }

    constructor (descriptions: seq<string>, maxAttempts: int)
      ensures View() == NewGoal(descriptions, maxAttempts)
    {
      status, attempts, obstacles, progress := Active, 0, [], 0.0;
      this.maxAttempts := maxAttempts;
      milestones := Fresh(descriptions);
    }

    method PursueGoal(a: Answers)
      modifies this
      ensures View() == Pursue(old(View()), a)
    {
      attempts := attempts + 1;
      if attempts >= maxAttempts {
        status := Failed;
        return;
      }
      if Unresolved(obstacles) >= MaxObstacles {
        ReplanGoal(a);
        return;
      }
      var next := NextOpen(milestones);
      if next == |milestones| {
        status, progress := Completed, 100.0;
        return;
      }
      if a.done {
        milestones := milestones[next := milestones[next].(completed := true)];
        progress := Share(milestones);
      } else {
        obstacles := obstacles + [Obstacle(a.obstacle, 0, false)];
        OvercomeObstacle(a);
      }
    }

    /** The obstacle just met. */
    method OvercomeObstacle(a: Answers)
      requires obstacles != []
      modifies `obstacles
      ensures var last := old(obstacles)[|old(obstacles)| - 1];
              obstacles == old(obstacles)[..|old(obstacles)| - 1]
                           + [last.(attempts := last.attempts + 1, resolved := last.resolved || a.overcome)]
    {
      var i := |obstacles| - 1;
      obstacles := obstacles[i := obstacles[i].(attempts := obstacles[i].attempts + 1)];
      if a.overcome { obstacles := obstacles[i := obstacles[i].(resolved := true)]; }
    }

    method ReplanGoal(a: Answers)
      modifies `milestones, `progress, `obstacles
      ensures View() == Replan(old(View()), a)
      ensures match a.replan
              case None => milestones == old(milestones) && progress == old(progress) && obstacles == old(obstacles)
              case Some(ds) =>
                && |milestones| == |ds| && (forall i | 0 <= i < |ds| :: milestones[i] == Milestone(ds[i], false))
                && progress == 0.0 && obstacles == OnlyUnresolved(old(obstacles))
    {
      if a.replan.Some? {
        milestones := Fresh(a.replan.value);
        progress := 0.0;
        obstacles := OnlyUnresolved(obstacles);
      }
    }
  }
}
