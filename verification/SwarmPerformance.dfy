/** The agents' own records: what they are credited with and blamed for over whole runs. */
module SwarmPerformance {
  import opened Prelude
  import opened SwarmProtocol
  import opened SwarmRuns

  /** A report with this label finds a task. */
  predicate Reaches(s: Swarm, id: Label) {
    Find(s, id).Some? && InGoal(s, Find(s, id).value)
  }

  /** The event is a success that `a` reports about a known task. */
  predicate Credited(s: Swarm, e: Event, a: AgentId) {
    e.Report? && e.success && e.reporter == a && Reaches(s, e.id)
  }

  /** The event is a failure that `a` reports about a known task, or a message that does not reach `a`. */
  predicate Blamed(s: Swarm, e: Event, a: AgentId) {
    match e
    case Report(id, reporter, success) => !success && reporter == a && Reaches(s, id)
    case Tick(delivered) =>
      !delivered && s.queue != [] && s.queue[0] in s.tasks && BestAgent(s.agents, s.roster) == Some(a)
    case _ => false
  }

  function Once(b: bool): nat { if b then 1 else 0 }

  /** A score, in tenths, after a success or a failure: a tenth more up to 2.0, two tenths less down to 0.1. */
  function Scored(score: int, credited: bool, blamed: bool): int {
    if credited then if score + 1 > 20 then 20 else score + 1
    else if blamed then if score - 2 < 1 then 1 else score - 2
    else score
  }

  /** From `b` to `n` an agent's record grew by one success or one failure, or by nothing, with its score in step. */
  predicate RecordStep(b: Agent, n: Agent, credited: bool, blamed: bool) {
    && n.tasksCompleted == b.tasksCompleted + Once(credited)
    && n.tasksFailed == b.tasksFailed + Once(blamed)
    && n.role == b.role
    && n.score == Scored(b.score, credited, blamed)
  }

  lemma TickOnAgent(s: Swarm, delivered: bool, a: AgentId)
    requires a in s.agents
    ensures a in LoopTurn(s, delivered).agents
    ensures RecordStep(s.agents[a], LoopTurn(s, delivered).agents[a], false, Blamed(s, Tick(delivered), a))
  {
  }

  lemma ReportOnAgent(s: Swarm, id: Label, reporter: AgentId, success: bool, a: AgentId)
    requires a in s.agents
    ensures var n, e := ReportTask(s, id, reporter, success), Report(id, reporter, success);
            a in n.agents && RecordStep(s.agents[a], n.agents[a], Credited(s, e, a), Blamed(s, e, a))
  {
    if Reaches(s, id) {
      var t := Find(s, id).value;
      if success { SuccessOnAgent(s, t, reporter, a); } else { FailureOnAgent(s, t, reporter, a); }
    }
  }

  lemma SuccessOnAgent(s: Swarm, t: TaskId, reporter: AgentId, a: AgentId)
    requires a in s.agents && InGoal(s, t)
    ensures var n := ReportOn(s, t, reporter, true);
            a in n.agents && RecordStep(s.agents[a], n.agents[a], reporter == a, false)
  {
    var m := MarkCompleted(s, t, reporter);
    var u := CheckGoal(UnlockDependents(m, t), t.goal);
    assert u.agents == m.agents;
  }

  lemma FailureOnAgent(s: Swarm, t: TaskId, reporter: AgentId, a: AgentId)
    requires a in s.agents && InGoal(s, t)
    ensures var n := ReportOn(s, t, reporter, false);
            a in n.agents && RecordStep(s.agents[a], n.agents[a], false, reporter == a)
  {
  }

  /** A new agent is free, has done nothing, and begins with a score of 1.0. */
  lemma NewAgentIs(s: Swarm, a: AgentId, role: AgentRole)
    ensures var n := RegisterAgent(s, a, role); a in n.agents && n.agents[a] == Agent(role, None, 0, 0, true, 10)
  {
  }

  predicate Registers(e: Event, a: AgentId) {
    e.Register? && e.agent == a
  }

  lemma StepOnAgent(s: Swarm, e: Event, a: AgentId)
    requires a in s.agents && !Registers(e, a)
    ensures a in Next(s, e).agents
    ensures RecordStep(s.agents[a], Next(s, e).agents[a], Credited(s, e, a), Blamed(s, e, a))
  {
    match e
    case Tick(delivered) => TickOnAgent(s, delivered, a);
    case Report(id, reporter, success) => ReportOnAgent(s, id, reporter, success, a);
    case _ =>
  }

  ghost function Credits(s: Swarm, es: seq<Event>, a: AgentId): nat
    decreases es
  {
    if es == [] then 0 else Once(Credited(s, es[0], a)) + Credits(Next(s, es[0]), es[1..], a)
  }

  ghost function Blames(s: Swarm, es: seq<Event>, a: AgentId): nat
    decreases es
  {
    if es == [] then 0 else Once(Blamed(s, es[0], a)) + Blames(Next(s, es[0]), es[1..], a)
  }

  /** The score after the credits and blames of a run, in their order. */
  ghost function ScoreAfter(s: Swarm, es: seq<Event>, a: AgentId, score: int): int
    decreases es
  {
    if es == [] then score
    else ScoreAfter(Next(s, es[0]), es[1..], a, Scored(score, Credited(s, es[0], a), Blamed(s, es[0], a)))
  }

  /** From an agent's registration to its next one, its record counts exactly the successes it reported, and the
      failures it reported or caused by not being reached; its score follows them in their order, between 0.1 and 2.0. */
  lemma {:induction false} RecordsCountReports(s: Swarm, es: seq<Event>, a: AgentId)
    requires a in s.agents && 1 <= s.agents[a].score <= 20
    requires forall i | 0 <= i < |es| :: !Registers(es[i], a)
    ensures a in Run(s, es).agents
    ensures var b, n := s.agents[a], Run(s, es).agents[a];
            && n.tasksCompleted == b.tasksCompleted + Credits(s, es, a)
            && n.tasksFailed == b.tasksFailed + Blames(s, es, a)
            && n.score == ScoreAfter(s, es, a, b.score) && 1 <= n.score <= 20
    decreases es
  {
    if es != [] {
      assert !Registers(es[0], a);
      StepOnAgent(s, es[0], a);
      RecordsCountReports(Next(s, es[0]), es[1..], a);
    }
  }
}
