/** Which agent a turn of the loop hands the next task to, told by roles and scores alone. */
module SwarmDispatch {
  import opened Prelude
  import opened SwarmProtocol

  /** The agent at place `i` of the roster can take a task. */
  predicate IdleAt(agents: map<AgentId, Agent>, roster: seq<AgentId>, i: nat) {
    i < |roster| && roster[i] in agents && agents[roster[i]].available && agents[roster[i]].currentTask == None
  }

  /** The agent at place `i` is at least as good as the one at place `j`, and better if that one comes first: performance in
      tenths, and half a point for executors. */
  predicate Outdoes(agents: map<AgentId, Agent>, roster: seq<AgentId>, i: nat, j: nat)
    requires IdleAt(agents, roster, i) && IdleAt(agents, roster, j)
  {
    var r, a := agents[roster[i]], agents[roster[j]];
    && a.score + (if a.role == Executor then 5 else 0) <= r.score + (if r.role == Executor then 5 else 0)
    && (j < i ==> a.score + (if a.role == Executor then 5 else 0) < r.score + (if r.role == Executor then 5 else 0))
  }

  /** The idle agent at place `i` outdoes all other idle ones. */
  ghost predicate IsFirstBest(agents: map<AgentId, Agent>, roster: seq<AgentId>, i: nat) {
    IdleAt(agents, roster, i) && forall j: nat | IdleAt(agents, roster, j) :: Outdoes(agents, roster, i, j)
  }

  lemma IdleInFront(agents: map<AgentId, Agent>, roster: seq<AgentId>, i: nat)
    requires i + 1 < |roster|
    ensures IdleAt(agents, roster[..|roster| - 1], i) <==> IdleAt(agents, roster, i)
  {
  }

  /** One more agent on the roster is chosen only if it is better than all before it. */
  lemma FirstBestGrows(agents: map<AgentId, Agent>, roster: seq<AgentId>, i: nat)
    requires roster != [] && IsFirstBest(agents, roster[..|roster| - 1], i)
    ensures var k := |roster| - 1;
            if IdleAt(agents, roster, k) && !Outdoes(agents, roster, i, k) then IsFirstBest(agents, roster, k)
            else IsFirstBest(agents, roster, i)
  {
    var k := |roster| - 1;
    forall j: nat | j < k && IdleAt(agents, roster, j) ensures Outdoes(agents, roster, i, j) {
      assert Outdoes(agents, roster[..k], i, j);
    }
  }

  lemma {:induction false} BestIsFirstBest(agents: map<AgentId, Agent>, roster: seq<AgentId>) returns (i: nat)
    ensures BestAgent(agents, roster) == None ==> forall j: nat :: !IdleAt(agents, roster, j)
    ensures BestAgent(agents, roster).Some? ==> IsFirstBest(agents, roster, i) && roster[i] == BestAgent(agents, roster).value
  {
    i := 0;
    if roster != [] {
      var k, front := |roster| - 1, roster[..|roster| - 1];
      i := BestIsFirstBest(agents, front);
      forall j: nat | j < k ensures IdleAt(agents, front, j) <==> IdleAt(agents, roster, j) { IdleInFront(agents, roster, j); }
      if BestAgent(agents, front).Some? {
        FirstBestGrows(agents, roster, i);
        if IdleAt(agents, roster, k) && !Outdoes(agents, roster, i, k) { i := k; }
      } else {
        i := k;
      }
    }
  }

  /** A turn whose message goes out hands the head of the queue to the first of the best idle agents: executors have half a point
      of performance more. Without an idle agent the task is BLOCKED at the end of the queue. */
  lemma HeadGoesToTheFirstBest(s: Swarm) returns (i: nat)
    requires s.queue != [] && s.queue[0] in s.tasks
    ensures var n, h := LoopTurn(s, true), s.queue[0];
            if forall j: nat :: !IdleAt(s.agents, s.roster, j) then
              && n.tasks == s.tasks[h := s.tasks[h].(status := Blocked)]
              && n.agents == s.agents && n.queue == s.queue[1..] + [h]
            else
              && IsFirstBest(s.agents, s.roster, i)
              && n.tasks == s.tasks[h := s.tasks[h].(status := InProgress, assignedAgent := Some(s.roster[i]))]
              && n.agents == s.agents[s.roster[i] := s.agents[s.roster[i]].(currentTask := Some(h), available := false)]
              && n.queue == s.queue[1..]
  {
    i := BestIsFirstBest(s.agents, s.roster);
  }
}
