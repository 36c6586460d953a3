/** What becomes of each task of the autonomous queue, told by the executions that a run begins and ends. */
module TaskQueueOutcomes {
  import opened Prelude
  import opened TaskQueueProtocol

  /** How many executions of the task ended in an exception. */
  ghost function Failures(es: seq<Event>, id: TaskId): nat {
    if es == [] then 0 else Failures(es[..|es| - 1], id) + Once(es[|es| - 1] == End(id, false))
  }

  /** What the task was first entered with: its priority value and its allowed attempts. */
  function Entered(es: seq<Event>, id: TaskId): Option<(int, int)> {
    if es == [] then None
    else
      var before, e := Entered(es[..|es| - 1], id), es[|es| - 1];
      if before == None && e.Add? && e.id == id then Some((e.priority, e.maxAttempts)) else before
  }

  /** The record of one task in terms of the run. */
  ghost predicate Told(es: seq<Event>, id: TaskId) {
    var s := Run(es);
    && (id in s.tasks <==> Entered(es, id).Some?)
    && (id !in s.tasks ==> End(id, true) !in es && Failures(es, id) == 0 && Begins(es, id) == 0)
    && (id in s.tasks ==> RecordTold(s.tasks[id], es, id))
  }

  ghost predicate RecordTold(t: Task, es: seq<Event>, id: TaskId)
    requires Entered(es, id).Some?
  {
    && t.priority == Entered(es, id).value.0 && t.maxAttempts == Entered(es, id).value.1
    && t.attempts == Begins(es, id)
    && (t.status == Completed <==> End(id, true) in es)
    && Begins(es, id) == Failures(es, id) + (if t.status in {Running, Completed} then 1 else 0)
    && (t.status == Failed ==> Failures(es, id) == Max(1, t.maxAttempts))
    && (t.status != Failed ==> Failures(es, id) < Max(1, t.maxAttempts))
  }

  lemma InSnoc(es: seq<Event>, e: Event)
    requires es != []
    ensures e in es <==> e in es[..|es| - 1] || es[|es| - 1] == e
  {
    assert es == es[..|es| - 1] + [es[|es| - 1]];
  }

  /** What an event does to the record of one task. */
  ghost predicate OneStep(s: State, e: Event, n: State, id: TaskId) {
    && (id in n.tasks <==> id in s.tasks || (e.Add? && e.id == id))
    && (id !in s.tasks && id in n.tasks ==>
          e.Add? && n.tasks[id] == Task(e.priority, Pending, None, 0, e.maxAttempts))
    && (id in s.tasks ==> id in n.tasks && RecordStep(s.tasks[id], e, n.tasks[id], id))
  }

  ghost predicate RecordStep(t: Task, e: Event, u: Task, id: TaskId) {
    && u.priority == t.priority && u.maxAttempts == t.maxAttempts
    && u.attempts == t.attempts + Once(e == Begin(id))
    && (e == Begin(id) ==> t.status == Assigned && u.status == Running)
    && (e == End(id, true) ==> t.status == Running && u.status == Completed)
    && (e == End(id, false) ==> t.status == Running && u.status == if t.attempts < t.maxAttempts then Pending else Failed)
    && (e != Begin(id) && e != End(id, true) && e != End(id, false) ==>
          u.status == t.status || (t.status == Pending && u.status == Assigned))
  }

  lemma ProcessStep(s: State, popped: nat, id: TaskId)
    ensures OneStep(s, Process(popped), ProcessQueue(s, popped), id)
  {
  }

  lemma EndStep(s: State, ended: TaskId, success: bool, id: TaskId)
    requires StageOk(s, End(ended, success))
    ensures OneStep(s, End(ended, success), EndTask(s, ended, success), id)
  {
  }

  lemma EventStep(s: State, e: Event, id: TaskId)
    requires StageOk(s, e)
    ensures OneStep(s, e, Next(s, e), id)
  {
    match e
    case Process(popped) => ProcessStep(s, popped, id);
    case End(ended, success) => EndStep(s, ended, success, id);
    case _ =>
  }

  lemma StepIsTold(es: seq<Event>, id: TaskId)
    requires es != [] && Told(es[..|es| - 1], id) && TasksOk(Run(es[..|es| - 1]))
    requires OneStep(Run(es[..|es| - 1]), es[|es| - 1], Run(es), id)
    requires StageOk(Run(es[..|es| - 1]), es[|es| - 1])
    ensures Told(es, id)
  {
    InSnoc(es, End(id, true));
  }

  lemma {:induction false} EveryTaskIsTold(es: seq<Event>, id: TaskId)
    requires PossibleRun(es)
    ensures Told(es, id)
  {
    if es != [] {
      var front, e := es[..|es| - 1], es[|es| - 1];
      EveryTaskIsTold(front, id);
      RunKeepsTasks(front);
      PossibleIsStaged(Run(front), e);
      EventStep(Run(front), e, id);
      StepIsTold(es, id);
    }
  }

  /** After any run, whoever was registered when: a task is known exactly if it was added, with the settings of the first time; it
      is COMPLETED exactly if an execution of it has returned, FAILED exactly if as many as are allowed have raised, RUNNING
      exactly if one was begun and has not ended, and otherwise it is in the heap or with a coroutine that has not begun. */
  lemma OutcomeIsTold(es: seq<Event>, id: TaskId)
    requires PossibleRun(es)
    ensures id in Run(es).tasks <==> Entered(es, id).Some?
    ensures id in Run(es).tasks ==>
              var s, t := Run(es), Run(es).tasks[id];
              && (t.priority, t.maxAttempts) == Entered(es, id).value
              && (t.status == Completed <==> End(id, true) in es)
              && (t.status == Failed <==> Failures(es, id) == Max(1, t.maxAttempts))
              && (t.status == Running <==> End(id, true) !in es && Begins(es, id) > Failures(es, id))
              && (t.status == Pending <==> id in s.heap) && (t.status == Assigned <==> s.created[id] == 1)
  {
    EveryTaskIsTold(es, id);
    TasksAreConserved(es, Run(es), id);
    RunKeepsTasks(es);
    InHeap(Run(es), id);
  }

  /** A failure with attempts left puts the task back in the heap at once, a last one gives it up. */
  lemma FailureIsRetried(es: seq<Event>, id: TaskId)
    requires es != [] && PossibleRun(es) && es[|es| - 1] == End(id, false)
    ensures var s := Run(es);
            && id in s.tasks
            && if Failures(es, id) < Max(1, s.tasks[id].maxAttempts) then s.tasks[id].status == Pending && id in s.heap
               else s.tasks[id].status == Failed && id !in s.heap
  {
    var front := es[..|es| - 1];
    RunKeepsTasks(front);
    PossibleIsStaged(Run(front), End(id, false));
    EventStep(Run(front), End(id, false), id);
    EveryTaskIsTold(es, id);
    RunKeepsTasks(es);
    InHeap(Run(es), id);
  }

  // ---------- Who gets a task ----------

  /** The agent at place `i` of the roster has fewer than three tasks, and those before it do not. */
  predicate FirstFree(s: State, i: nat) {
    && i < |s.available| && |ListOf(s, s.available[i])| < 3
    && forall j | 0 <= j < i :: |ListOf(s, s.available[j])| >= 3
  }

  lemma {:induction false} FreeAgentIsFirst(available: seq<AgentId>, agentTasks: map<AgentId, seq<TaskId>>) returns (i: nat)
    ensures i <= |available|
    ensures forall j | 0 <= j < i :: available[j] in agentTasks && |agentTasks[available[j]]| >= 3
    ensures FreeAgent(available, agentTasks) == if i < |available| then Some(available[i]) else None
    ensures i < |available| ==> (available[i] in agentTasks ==> |agentTasks[available[i]]| < 3)
  {
    i := 0;
    if available != [] && available[0] in agentTasks && |agentTasks[available[0]]| >= 3 {
      var k := FreeAgentIsFirst(available[1..], agentTasks);
      i := k + 1;
    }
  }

  /** A turn gives the popped task to the first agent on the roster with fewer than three, behind its others, and a coroutine to begin
      it; without such an agent or such a task nothing changes. */
  lemma PoppedGoesToTheFirstFree(s: State, popped: nat) returns (i: nat)
    requires PlacesOk(s)
    ensures var n := ProcessQueue(s, popped);
            if popped < |s.heap| && FirstFree(s, i) then
              var id, a := s.heap[popped], s.available[i];
              && id in s.tasks && n.tasks == s.tasks[id := s.tasks[id].(status := Assigned, assignedAgent := Some(a))]
              && n.agentTasks == s.agentTasks[a := ListOf(s, a) + [id]] && n.available == s.available
              && multiset(n.heap) == multiset(s.heap) - multiset{id}
              && n.created == s.created + multiset{id} && n.begun == s.begun
            else n == s && (popped < |s.heap| ==> forall j :: !FirstFree(s, j))
  {
    i := FreeAgentIsFirst(s.available, s.agentTasks);
    if popped < |s.heap| { PoppedIsPending(s, popped); }
  }

  // ---------- The roster ----------

  /** The event of the run by which the agent is on the roster, if it is. */
  function Since(es: seq<Event>, a: AgentId): Option<nat> {
    if es == [] then None
    else
      var before, e := Since(es[..|es| - 1], a), es[|es| - 1];
      if e == Register(a) then if before.Some? then before else Some(|es| - 1)
      else if e == Unregister(a) then None
      else before
  }

  /** The roster is the agents registered, in the order in which they came. */
  ghost predicate RosterTold(es: seq<Event>) {
    var roster := Run(es).available;
    && (forall a :: a in roster <==> Since(es, a).Some?)
    && (forall a | Since(es, a).Some? :: Since(es, a).value < |es|)
    && InOrderOf(roster, Times(es))
  }

  function Times(es: seq<Event>): AgentId -> Option<nat> {
    a => Since(es, a)
  }

  lemma {:induction false} RemoveFirstIs(s: seq<AgentId>, x: AgentId) returns (i: nat)
    requires x in s
    ensures i < |s| && s[i] == x && RemoveFirst(s, x) == s[..i] + s[i + 1..]
  {
    i := 0;
    if s[0] != x {
      var k := RemoveFirstIs(s[1..], x);
      i := k + 1;
    }
  }

  lemma {:induction false} RemoveNothing(s: seq<AgentId>, x: AgentId)
    requires x !in s
    ensures RemoveFirst(s, x) == s
  {
    if s != [] { RemoveNothing(s[1..], x); }
  }

  lemma DroppedOne(s: seq<AgentId>, i: nat)
    requires Distinct(s) && i < |s|
    ensures var r := s[..i] + s[i + 1..];
            && (forall j | 0 <= j < |r| :: r[j] == s[if j < i then j else j + 1])
            && forall b :: b in r <==> b in s && b != s[i]
  {
    var r := s[..i] + s[i + 1..];
    forall b ensures b in r <==> b in s && b != s[i] {
      if b in s && b != s[i] {
        var k :| 0 <= k < |s| && s[k] == b;
        assert r[if k < i then k else k - 1] == b;
      }
    }
  }

  /** The roster is in the order of the times that `at` tells. */
  ghost predicate InOrderOf(roster: seq<AgentId>, at: AgentId -> Option<nat>) {
    forall i, j | 0 <= i < j < |roster| :: Earlier(at, roster[i], roster[j])
  }

  predicate Earlier(at: AgentId -> Option<nat>, a: AgentId, b: AgentId) {
    at(a).Some? && at(b).Some? && at(a).value < at(b).value
  }

  lemma OrderIsDistinct(roster: seq<AgentId>, at: AgentId -> Option<nat>)
    requires InOrderOf(roster, at)
    ensures Distinct(roster)
  {
    forall i, j | 0 <= i < j < |roster| ensures roster[i] != roster[j] { assert Earlier(at, roster[i], roster[j]); }
  }

  lemma DroppedInOrder(before: seq<AgentId>, k: nat, at: AgentId -> Option<nat>)
    requires InOrderOf(before, at) && k < |before|
    ensures InOrderOf(before[..k] + before[k + 1..], at)
  {
    var r := before[..k] + before[k + 1..];
    forall i, j | 0 <= i < j < |r| ensures Earlier(at, r[i], r[j]) {
      var x, y := if i < k then i else i + 1, if j < k then j else j + 1;
      assert r[i] == before[x] && r[j] == before[y] && x < y;
      assert Earlier(at, before[x], before[y]);
    }
  }

  lemma SameOrder(roster: seq<AgentId>, at: AgentId -> Option<nat>, later: AgentId -> Option<nat>)
    requires InOrderOf(roster, at) && forall a | a in roster :: later(a) == at(a)
    ensures InOrderOf(roster, later)
  {
    forall i, j | 0 <= i < j < |roster| ensures Earlier(later, roster[i], roster[j]) {
      assert roster[i] in roster && roster[j] in roster && Earlier(at, roster[i], roster[j]);
    }
  }

  /** Who stays and who goes. */
  lemma RemovedFrom(before: seq<AgentId>, a: AgentId, at: AgentId -> Option<nat>)
    requires InOrderOf(before, at)
    ensures InOrderOf(RemoveFirst(before, a), at) && forall b :: b in RemoveFirst(before, a) <==> b in before && b != a
  {
    OrderIsDistinct(before, at);
    if a in before {
      var k := RemoveFirstIs(before, a);
      DroppedOne(before, k);
      DroppedInOrder(before, k, at);
    } else {
      RemoveNothing(before, a);
    }
  }

  lemma UnregisteredRoster(es: seq<Event>, a: AgentId)
    requires es != [] && es[|es| - 1] == Unregister(a) && RosterTold(es[..|es| - 1])
    ensures RosterTold(es)
  {
    var front := es[..|es| - 1];
    RemovedFrom(Run(front).available, a, Times(front));
    SameOrder(Run(es).available, Times(front), Times(es));
  }

  lemma RegisteredRoster(es: seq<Event>, a: AgentId)
    requires es != [] && es[|es| - 1] == Register(a) && RosterTold(es[..|es| - 1])
    ensures RosterTold(es)
  {
    var front := es[..|es| - 1];
    var before, roster := Run(front).available, Run(es).available;
    SameOrder(before, Times(front), Times(es));
    forall i, j | 0 <= i < j < |roster| ensures Earlier(Times(es), roster[i], roster[j]) {
      assert i < |before| && roster[i] == before[i] && roster[i] in before;
      if j < |before| { assert Earlier(Times(es), before[i], before[j]); }
    }
  }

  lemma {:induction false} RosterIsTold(es: seq<Event>)
    ensures RosterTold(es)
  {
    if es != [] {
      var front, e := es[..|es| - 1], es[|es| - 1];
      RosterIsTold(front);
      match e
      case Register(a) => RegisteredRoster(es, a);
      case Unregister(a) => UnregisteredRoster(es, a);
      case _ => SameOrder(Run(es).available, Times(front), Times(es));
    }
  }
}
