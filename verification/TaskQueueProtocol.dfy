/** The autonomous task queue as a protocol of atomic steps. Executing a task is a coroutine: it is created when the task
    is assigned, begins later, and ends later still; other steps come in between. */
module TaskQueueProtocol {
  import opened Prelude

  type TaskId = string
  type AgentId = string

  datatype TaskStatus = Pending | Assigned | Running | Completed | Failed

  /** A lower priority value is more urgent. */
  datatype Task = Task(priority: int, status: TaskStatus, assignedAgent: Option<AgentId>, attempts: nat, maxAttempts: int)

  /** `created` and `begun` are the coroutines that wait to begin and those that have. */
  datatype State = State(tasks: map<TaskId, Task>, heap: seq<TaskId>, agentTasks: map<AgentId, seq<TaskId>>,
                         available: seq<AgentId>, created: multiset<TaskId>, begun: multiset<TaskId>)

  const Empty := State(map[], [], map[], [], multiset{}, multiset{})

  /** `Process` names the position that the heap pops. */
  datatype Event =
    | Register(agent: AgentId)
    | Unregister(agent: AgentId)
    | Add(id: TaskId, priority: int, maxAttempts: int)
    | Process(popped: nat)
    | Begin(id: TaskId)
    | End(id: TaskId, success: bool)

  function RemoveFirst<T(==)>(s: seq<T>, x: T): (r: seq<T>)
    ensures multiset(r) == multiset(s) - multiset{x}
  {
    if s == [] then []
    else
      assert s == [s[0]] + s[1..];
      if s[0] == x then s[1..] else [s[0]] + RemoveFirst(s[1..], x)
  }

  function RemoveAt<T>(s: seq<T>, i: nat): (r: seq<T>)
    requires i < |s|
    ensures multiset(r) == multiset(s) - multiset{s[i]}
  {
    assert s == s[..i] + [s[i]] + s[i + 1..];
    s[..i] + s[i + 1..]
  }

  function ListOf(s: State, a: AgentId): seq<TaskId> {
    if a in s.agentTasks then s.agentTasks[a] else []
  }

  /** The first registered agent with fewer than three tasks. */
  function FreeAgent(available: seq<AgentId>, agentTasks: map<AgentId, seq<TaskId>>): (r: Option<AgentId>)
    ensures r.Some? ==> r.value in available && (r.value in agentTasks ==> |agentTasks[r.value]| < 3)
  {
    if available == [] then None
    else
      assert available == [available[0]] + available[1..];
      if available[0] !in agentTasks || |agentTasks[available[0]]| < 3 then Some(available[0])
      else FreeAgent(available[1..], agentTasks)
  }

  function RegisterAgent(s: State, a: AgentId): State {
    if a in s.available then s else s.(available := s.available + [a], agentTasks := s.agentTasks[a := []])
  }

  function AddTask(s: State, id: TaskId, priority: int, maxAttempts: int): State {
    if id in s.tasks then s
    else s.(tasks := s.tasks[id := Task(priority, Pending, None, 0, maxAttempts)], heap := s.heap + [id])
  }

  function AssignTask(s: State, id: TaskId, a: AgentId): State
    requires id in s.tasks
  {
    s.(tasks := s.tasks[id := s.tasks[id].(status := Assigned, assignedAgent := Some(a))],
       agentTasks := s.agentTasks[a := ListOf(s, a) + [id]],
       created := s.created + multiset{id})
  }

  /** `_process_queue`. A popped task that is not PENDING would be dropped. */
  function ProcessQueue(s: State, popped: nat): State {
    var a := FreeAgent(s.available, s.agentTasks);
    if a == None || s.heap == [] || popped >= |s.heap| then s
    else
      var id, n := s.heap[popped], s.(heap := RemoveAt(s.heap, popped));
      if id in s.tasks && s.tasks[id].status == Pending then AssignTask(n, id, a.value) else n
  }

  function BeginTask(s: State, id: TaskId): State {
    if id !in s.tasks then s
    else s.(tasks := s.tasks[id := s.tasks[id].(status := Running, attempts := s.tasks[id].attempts + 1)],
            created := s.created - multiset{id}, begun := s.begun + multiset{id})
  }

  /** The result's effect on the task: done, again, or given up. */
  function Concluded(t: Task, success: bool): TaskStatus {
    if success then Completed else if t.attempts < t.maxAttempts then Pending else Failed
  }

  /** The lists once `id` is off the list of the agent it was assigned to. */
  function OffList(agentTasks: map<AgentId, seq<TaskId>>, id: TaskId, a: Option<AgentId>): map<AgentId, seq<TaskId>> {
    if a.Some? && a.value in agentTasks then agentTasks[a.value := RemoveFirst(agentTasks[a.value], id)] else agentTasks
  }

  function ConcludedTasks(tasks: map<TaskId, Task>, id: TaskId, success: bool): map<TaskId, Task>
    requires id in tasks
  {
    tasks[id := tasks[id].(status := Concluded(tasks[id], success))]
  }

  /** A task that is to be tried again goes back on the heap. */
  function Retried(heap: seq<TaskId>, id: TaskId, status: TaskStatus): seq<TaskId> {
    if status == Pending then heap + [id] else heap
  }

  function EndTask(s: State, id: TaskId, success: bool): State {
    if id !in s.tasks then s
    else
      s.(tasks := ConcludedTasks(s.tasks, id, success),
         heap := Retried(s.heap, id, Concluded(s.tasks[id], success)),
         agentTasks := OffList(s.agentTasks, id, s.tasks[id].assignedAgent),
         begun := s.begun - multiset{id})
  }

  function Next(s: State, e: Event): State {
    match e
    case Register(a) => RegisterAgent(s, a)
    case Unregister(a) => s.(available := RemoveFirst(s.available, a))
    case Add(id, priority, maxAttempts) => AddTask(s, id, priority, maxAttempts)
    case Process(popped) => ProcessQueue(s, popped)
    case Begin(id) => BeginTask(s, id)
    case End(id, success) => EndTask(s, id, success)
  }

  // ---------- The invariant ----------

  predicate Active(s: State, id: TaskId) {
    id in s.tasks && s.tasks[id].status in {Assigned, Running}
  }

  predicate HasStatus(s: State, id: TaskId, status: TaskStatus) {
    id in s.tasks && s.tasks[id].status == status
  }

  function Once(b: bool): nat { if b then 1 else 0 }

  predicate WorksFor(s: State, id: TaskId, a: AgentId) {
    Active(s, id) && s.tasks[id].assignedAgent == Some(a)
  }

  /** The heap holds the PENDING tasks, once each; each ASSIGNED task has one coroutine created, each RUNNING one begun. */
  ghost predicate PlacesOk(s: State) {
    forall id :: multiset(s.heap)[id] == Once(HasStatus(s, id, Pending))
                 && s.created[id] == Once(HasStatus(s, id, Assigned))
                 && s.begun[id] == Once(HasStatus(s, id, Running))
  }

  /** An agent's list is its active tasks, once each, at most three; every active task is on a list. */
  ghost predicate ListsOk(s: State) {
    && (forall a, id | a in s.agentTasks :: multiset(s.agentTasks[a])[id] == Once(WorksFor(s, id, a)))
    && (forall a | a in s.agentTasks :: |s.agentTasks[a]| <= 3)
    && (forall id | Active(s, id) :: s.tasks[id].assignedAgent.Some? && s.tasks[id].assignedAgent.value in s.agentTasks)
    && (forall a | a in s.available :: a in s.agentTasks)
  }

  function Allowed(t: Task): nat { if t.maxAttempts < 1 then 1 else t.maxAttempts }

  ghost predicate AttemptsOk(s: State) {
    forall id | id in s.tasks ::
      s.tasks[id].attempts <= Allowed(s.tasks[id])
      && (s.tasks[id].status in {Pending, Assigned} ==> s.tasks[id].attempts < Allowed(s.tasks[id]))
  }

  ghost predicate Inv(s: State) {
    PlacesOk(s) && ListsOk(s) && AttemptsOk(s)
  }

  /** The heap pops a least element; coroutines begin once created and end once begun; and no agent is registered anew
      while its tasks are active. */
  ghost predicate Legal(s: State, e: Event) {
    Possible(s, e) &&
    match e
    case Register(a) => a in s.available || forall id :: !WorksFor(s, id, a)
    case Process(popped) => s.heap != [] ==> popped < |s.heap| && Least(s, popped)
    case _ => true
  }

  /** Coroutines begin once created and end once begun; whoever is registered, and whatever the heap pops. */
  predicate Possible(s: State, e: Event) {
    match e
    case Begin(id) => s.created[id] > 0
    case End(id, _) => s.begun[id] > 0
    case _ => true
  }

  ghost predicate Least(s: State, popped: nat)
    requires popped < |s.heap|
  {
    s.heap[popped] in s.tasks && forall id | id in s.heap && id in s.tasks :: s.tasks[s.heap[popped]].priority <= s.tasks[id].priority
  }

  // ---------- Every step keeps it ----------

  lemma InHeap(s: State, id: TaskId)
    requires PlacesOk(s)
    ensures id in s.heap <==> HasStatus(s, id, Pending)
  {
    assert id in s.heap <==> multiset(s.heap)[id] > 0;
  }

  lemma AddKeepsPlaces(s: State, id: TaskId, priority: int, maxAttempts: int)
    requires PlacesOk(s) && id !in s.tasks
    ensures PlacesOk(AddTask(s, id, priority, maxAttempts))
  {
    var n := AddTask(s, id, priority, maxAttempts);
    forall x
      ensures multiset(n.heap)[x] == Once(HasStatus(n, x, Pending)) && n.created[x] == Once(HasStatus(n, x, Assigned))
              && n.begun[x] == Once(HasStatus(n, x, Running))
    {
      assert multiset(n.heap)[x] == multiset(s.heap)[x] + Once(x == id);
      assert multiset(s.heap)[x] == Once(HasStatus(s, x, Pending));
      assert s.created[x] == Once(HasStatus(s, x, Assigned)) && s.begun[x] == Once(HasStatus(s, x, Running));
    }
  }

  lemma AddKeepsLists(s: State, id: TaskId, priority: int, maxAttempts: int)
    requires ListsOk(s) && id !in s.tasks
    ensures ListsOk(AddTask(s, id, priority, maxAttempts))
  {
    var n := AddTask(s, id, priority, maxAttempts);
    forall a, x | a in n.agentTasks ensures multiset(n.agentTasks[a])[x] == Once(WorksFor(n, x, a)) {
      assert multiset(s.agentTasks[a])[x] == Once(WorksFor(s, x, a));
    }
    assert forall x | Active(n, x) :: Active(s, x);
  }

  lemma AddKeepsInv(s: State, id: TaskId, priority: int, maxAttempts: int)
    requires Inv(s)
    ensures Inv(AddTask(s, id, priority, maxAttempts))
  {
    if id !in s.tasks {
      AddKeepsPlaces(s, id, priority, maxAttempts);
      AddKeepsLists(s, id, priority, maxAttempts);
    }
  }

  lemma RegisterKeepsInv(s: State, a: AgentId)
    requires Inv(s) && Legal(s, Register(a))
    ensures Inv(RegisterAgent(s, a))
  {
    var n := RegisterAgent(s, a);
    if a !in s.available {
      forall b, x | b in n.agentTasks ensures multiset(n.agentTasks[b])[x] == Once(WorksFor(n, x, b)) {
        assert WorksFor(n, x, b) == WorksFor(s, x, b);
        if b != a { assert multiset(s.agentTasks[b])[x] == Once(WorksFor(s, x, b)); }
      }
      assert forall x :: HasStatus(n, x, Pending) == HasStatus(s, x, Pending) && HasStatus(n, x, Assigned) == HasStatus(s, x, Assigned)
                         && HasStatus(n, x, Running) == HasStatus(s, x, Running);
      assert forall x | Active(n, x) :: Active(s, x);
    }
  }

  lemma UnregisterKeepsInv(s: State, a: AgentId)
    requires Inv(s)
    ensures Inv(Next(s, Unregister(a)))
  {
    var n := Next(s, Unregister(a));
    forall b | b in n.available ensures b in n.agentTasks {
      assert b in multiset(n.available);
      assert b in s.available;
    }
    forall b, x | b in n.agentTasks ensures multiset(n.agentTasks[b])[x] == Once(WorksFor(n, x, b)) {
      assert multiset(s.agentTasks[b])[x] == Once(WorksFor(s, x, b));
    }
    assert forall x :: HasStatus(n, x, Pending) == HasStatus(s, x, Pending) && HasStatus(n, x, Assigned) == HasStatus(s, x, Assigned)
                       && HasStatus(n, x, Running) == HasStatus(s, x, Running);
    assert forall x | Active(n, x) :: Active(s, x);
  }

  /** The task at the popped position is PENDING, so the branch that would drop it is dead. */
  lemma PoppedIsPending(s: State, popped: nat)
    requires PlacesOk(s) && popped < |s.heap|
    ensures HasStatus(s, s.heap[popped], Pending)
  {
    InHeap(s, s.heap[popped]);
  }

  lemma ProcessKeepsPlaces(s: State, popped: nat)
    requires PlacesOk(s)
    ensures PlacesOk(ProcessQueue(s, popped))
  {
    var n := ProcessQueue(s, popped);
    if n != s {
      PoppedIsPending(s, popped);
      forall x
        ensures multiset(n.heap)[x] == Once(HasStatus(n, x, Pending)) && n.created[x] == Once(HasStatus(n, x, Assigned))
                && n.begun[x] == Once(HasStatus(n, x, Running))
      {
        assert multiset(s.heap)[x] == Once(HasStatus(s, x, Pending));
        assert s.created[x] == Once(HasStatus(s, x, Assigned)) && s.begun[x] == Once(HasStatus(s, x, Running));
      }
    }
  }

  /** Assigning a pending task puts it on its agent's list. */
  lemma AssignOnList(s: State, id: TaskId, a: AgentId, b: AgentId, x: TaskId)
    requires HasStatus(s, id, Pending) && a in s.agentTasks && b in s.agentTasks
    requires multiset(s.agentTasks[b])[x] == Once(WorksFor(s, x, b))
    ensures var n := AssignTask(s, id, a);
            b in n.agentTasks && multiset(n.agentTasks[b])[x] == Once(WorksFor(n, x, b))
  {
    if b == a { assert multiset(s.agentTasks[a] + [id])[x] == multiset(s.agentTasks[a])[x] + Once(x == id); }
  }

  lemma AssignKeepsLists(s: State, id: TaskId, a: AgentId)
    requires ListsOk(s) && HasStatus(s, id, Pending) && a in s.agentTasks && |s.agentTasks[a]| < 3
    ensures ListsOk(AssignTask(s, id, a))
  {
    var n := AssignTask(s, id, a);
    forall b, x | b in n.agentTasks ensures multiset(n.agentTasks[b])[x] == Once(WorksFor(n, x, b)) {
      assert multiset(s.agentTasks[b])[x] == Once(WorksFor(s, x, b));
      AssignOnList(s, id, a, b, x);
    }
    assert forall x | Active(n, x) && x != id :: Active(s, x);
  }

  lemma ProcessKeepsLists(s: State, popped: nat)
    requires Inv(s)
    ensures ListsOk(ProcessQueue(s, popped))
  {
    if ProcessQueue(s, popped) != s {
      PoppedIsPending(s, popped);
      var id, a := s.heap[popped], FreeAgent(s.available, s.agentTasks).value;
      AssignKeepsLists(s.(heap := RemoveAt(s.heap, popped)), id, a);
    }
  }

  lemma BeginKeepsPlaces(s: State, id: TaskId)
    requires PlacesOk(s) && HasStatus(s, id, Assigned)
    ensures PlacesOk(BeginTask(s, id))
  {
    var n := BeginTask(s, id);
    forall x
      ensures multiset(n.heap)[x] == Once(HasStatus(n, x, Pending)) && n.created[x] == Once(HasStatus(n, x, Assigned))
              && n.begun[x] == Once(HasStatus(n, x, Running))
    {
      assert multiset(s.heap)[x] == Once(HasStatus(s, x, Pending));
      assert s.created[x] == Once(HasStatus(s, x, Assigned)) && s.begun[x] == Once(HasStatus(s, x, Running));
    }
  }

  lemma BeginKeepsLists(s: State, id: TaskId)
    requires ListsOk(s) && HasStatus(s, id, Assigned)
    ensures ListsOk(BeginTask(s, id))
  {
    var n := BeginTask(s, id);
    forall b, x | b in n.agentTasks ensures multiset(n.agentTasks[b])[x] == Once(WorksFor(n, x, b)) {
      assert multiset(s.agentTasks[b])[x] == Once(WorksFor(s, x, b));
    }
    assert forall x | Active(n, x) :: Active(s, x);
  }

  lemma BeginKeepsInv(s: State, id: TaskId)
    requires Inv(s) && Legal(s, Begin(id))
    ensures Inv(BeginTask(s, id))
  {
    assert HasStatus(s, id, Assigned) by { assert s.created[id] == Once(HasStatus(s, id, Assigned)); }
    BeginKeepsPlaces(s, id);
    BeginKeepsLists(s, id);
  }

  lemma EndKeepsPlaces(s: State, id: TaskId, success: bool)
    requires PlacesOk(s) && Possible(s, End(id, success))
    ensures PlacesOk(EndTask(s, id, success))
  {
    var n := EndTask(s, id, success);
    assert HasStatus(s, id, Running) by { assert s.begun[id] == Once(HasStatus(s, id, Running)); }
    forall x
      ensures multiset(n.heap)[x] == Once(HasStatus(n, x, Pending)) && n.created[x] == Once(HasStatus(n, x, Assigned))
              && n.begun[x] == Once(HasStatus(n, x, Running))
    {
      assert multiset(s.heap)[x] == Once(HasStatus(s, x, Pending));
      assert s.created[x] == Once(HasStatus(s, x, Assigned)) && s.begun[x] == Once(HasStatus(s, x, Running));
    }
  }

  /** A coroutine that begins or ends belongs to a task of that stage, and the heap pops a PENDING one. */
  ghost predicate StageOk(s: State, e: Event) {
    match e
    case Process(popped) => popped < |s.heap| ==> HasStatus(s, s.heap[popped], Pending)
    case Begin(id) => HasStatus(s, id, Assigned)
    case End(id, _) => HasStatus(s, id, Running)
    case _ => true
  }

  lemma PossibleIsStaged(s: State, e: Event)
    requires PlacesOk(s) && Possible(s, e)
    ensures StageOk(s, e)
  {
    match e
    case Process(popped) => if popped < |s.heap| { PoppedIsPending(s, popped); }
    case Begin(id) => assert s.created[id] == Once(HasStatus(s, id, Assigned));
    case End(id, _) => assert s.begun[id] == Once(HasStatus(s, id, Running));
    case _ =>
  }

  lemma RemoveFirstShortens<T>(s: seq<T>, x: T)
    ensures |RemoveFirst(s, x)| <= |s|
  {
    assert |RemoveFirst(s, x)| == |multiset(RemoveFirst(s, x))| <= |multiset(s)| == |s|;
  }

  lemma EndKeepsLists(s: State, id: TaskId, success: bool)
    requires ListsOk(s) && HasStatus(s, id, Running)
    ensures ListsOk(EndTask(s, id, success))
  {
    assert Active(s, id);
    var n, a := EndTask(s, id, success), s.tasks[id].assignedAgent.value;
    forall b, x | b in n.agentTasks ensures multiset(n.agentTasks[b])[x] == Once(WorksFor(n, x, b)) {
      EndOnList(s, id, success, b, x);
    }
    RemoveFirstShortens(s.agentTasks[a], id);
    forall x | Active(n, x) ensures n.tasks[x].assignedAgent.Some? && n.tasks[x].assignedAgent.value in n.agentTasks {
      assert Active(s, x);
    }
  }

  lemma OffListCounts(agentTasks: map<AgentId, seq<TaskId>>, id: TaskId, a: AgentId, b: AgentId, x: TaskId)
    requires a in agentTasks && b in agentTasks
    ensures var r := OffList(agentTasks, id, Some(a));
            b in r && multiset(r[b])[x]
                      == if b == a && x == id && multiset(agentTasks[b])[x] > 0 then multiset(agentTasks[b])[x] - 1
                         else multiset(agentTasks[b])[x]
  {
  }

  lemma EndOnList(s: State, id: TaskId, success: bool, b: AgentId, x: TaskId)
    requires HasStatus(s, id, Running) && b in s.agentTasks && multiset(s.agentTasks[b])[x] == Once(WorksFor(s, x, b))
    requires s.tasks[id].assignedAgent.Some? && s.tasks[id].assignedAgent.value in s.agentTasks
    ensures b in EndTask(s, id, success).agentTasks
    ensures multiset(EndTask(s, id, success).agentTasks[b])[x] == Once(WorksFor(EndTask(s, id, success), x, b))
  {
    OffListCounts(s.agentTasks, id, s.tasks[id].assignedAgent.value, b, x);
  }

  /** What a step does to one task: its attempts count the executions begun, and a final status stays. */
  ghost predicate TaskStepOk(s: State, n: State, began: bool, id: TaskId) {
    && (id in s.tasks ==> id in n.tasks && n.tasks[id].attempts == s.tasks[id].attempts + Once(began)
                          && n.tasks[id].maxAttempts == s.tasks[id].maxAttempts)
    && (id in n.tasks && id !in s.tasks ==> n.tasks[id].attempts == 0 && !began)
    && (id in s.tasks && s.tasks[id].status in {Completed, Failed} ==> n.tasks[id] == s.tasks[id])
    && (id !in s.tasks ==> !began)
  }

  lemma ProcessOnTask(s: State, popped: nat, id: TaskId)
    ensures TaskStepOk(s, ProcessQueue(s, popped), false, id)
  {
  }

  lemma EndOnTask(s: State, ended: TaskId, success: bool, id: TaskId)
    requires StageOk(s, End(ended, success))
    ensures TaskStepOk(s, EndTask(s, ended, success), false, id)
  {
  }

  lemma StepOnTask(s: State, e: Event, id: TaskId)
    requires StageOk(s, e)
    ensures TaskStepOk(s, Next(s, e), e == Begin(id), id)
  {
    match e
    case Process(popped) => ProcessOnTask(s, popped, id);
    case End(ended, success) => EndOnTask(s, ended, success, id);
    case _ =>
  }

  lemma ProcessKeepsAttempts(s: State, popped: nat)
    requires AttemptsOk(s)
    ensures AttemptsOk(ProcessQueue(s, popped))
  {
  }

  lemma EndKeepsAttempts(s: State, id: TaskId, success: bool)
    requires AttemptsOk(s)
    ensures AttemptsOk(EndTask(s, id, success))
  {
  }

  lemma NextKeepsAttempts(s: State, e: Event)
    requires AttemptsOk(s) && StageOk(s, e)
    ensures AttemptsOk(Next(s, e))
  {
    match e
    case Process(popped) => ProcessKeepsAttempts(s, popped);
    case End(id, success) => EndKeepsAttempts(s, id, success);
    case _ =>
  }

  lemma NextKeepsInv(s: State, e: Event)
    requires Inv(s) && Legal(s, e)
    ensures Inv(Next(s, e))
  {
    PossibleIsStaged(s, e);
    NextKeepsAttempts(s, e);
    match e
    case Register(a) => RegisterKeepsInv(s, a);
    case Unregister(a) => UnregisterKeepsInv(s, a);
    case Add(id, priority, maxAttempts) => AddKeepsInv(s, id, priority, maxAttempts);
    case Process(popped) => ProcessKeepsPlaces(s, popped); ProcessKeepsLists(s, popped);
    case Begin(id) => BeginKeepsInv(s, id);
    case End(id, success) => EndKeepsPlaces(s, id, success); EndKeepsLists(s, id, success);
  }

  /** What does not turn on the agents' lists is kept by every possible step. */
  ghost predicate TasksOk(s: State) {
    PlacesOk(s) && AttemptsOk(s)
  }

  lemma SamePlacesKept(s: State, n: State)
    requires PlacesOk(s) && n.tasks == s.tasks && n.heap == s.heap && n.created == s.created && n.begun == s.begun
    ensures PlacesOk(n)
  {
    assert forall x :: HasStatus(n, x, Pending) == HasStatus(s, x, Pending) && HasStatus(n, x, Assigned) == HasStatus(s, x, Assigned)
                       && HasStatus(n, x, Running) == HasStatus(s, x, Running);
  }

  lemma NextKeepsTasks(s: State, e: Event)
    requires TasksOk(s) && Possible(s, e)
    ensures TasksOk(Next(s, e))
  {
    PossibleIsStaged(s, e);
    NextKeepsAttempts(s, e);
    match e
    case Register(a) => SamePlacesKept(s, Next(s, e));
    case Unregister(a) => SamePlacesKept(s, Next(s, e));
    case Add(id, priority, maxAttempts) => if id !in s.tasks { AddKeepsPlaces(s, id, priority, maxAttempts); }
    case Process(popped) => ProcessKeepsPlaces(s, popped);
    case Begin(id) => BeginKeepsPlaces(s, id);
    case End(id, success) => EndKeepsPlaces(s, id, success);
  }

  /** Registering an agent keeps the invariant exactly when it is registered already or none of its tasks is active. */
  lemma ReRegistrationIff(s: State, a: AgentId)
    requires Inv(s)
    ensures Inv(RegisterAgent(s, a)) <==> Legal(s, Register(a))
  {
    if Legal(s, Register(a)) {
      RegisterKeepsInv(s, a);
    } else {
      var id :| WorksFor(s, id, a);
      var n := RegisterAgent(s, a);
      assert WorksFor(n, id, a) && multiset(n.agentTasks[a])[id] == 0;
    }
  }

  // ---------- Whole runs ----------

  function Run(es: seq<Event>): State {
    if es == [] then Empty else Next(Run(es[..|es| - 1]), es[|es| - 1])
  }

  ghost predicate LegalRun(es: seq<Event>) {
    es != [] ==> LegalRun(es[..|es| - 1]) && Legal(Run(es[..|es| - 1]), es[|es| - 1])
  }

  /** A run with any registrations at any time. */
  ghost predicate PossibleRun(es: seq<Event>) {
    es != [] ==> PossibleRun(es[..|es| - 1]) && Possible(Run(es[..|es| - 1]), es[|es| - 1])
  }

  lemma {:induction false} RunKeepsTasks(es: seq<Event>)
    requires PossibleRun(es)
    ensures TasksOk(Run(es))
  {
    if es == [] {
      assert PlacesOk(Empty);
    } else {
      RunKeepsTasks(es[..|es| - 1]);
      NextKeepsTasks(Run(es[..|es| - 1]), es[|es| - 1]);
    }
  }

  lemma {:induction false} RunKeepsInv(es: seq<Event>)
    requires LegalRun(es)
    ensures Inv(Run(es))
  {
    if es == [] {
      assert PlacesOk(Empty) && ListsOk(Empty);
    } else {
      RunKeepsInv(es[..|es| - 1]);
      NextKeepsInv(Run(es[..|es| - 1]), es[|es| - 1]);
    }
  }

  /** After any run, whoever was registered when, each unfinished task is once in the heap or in a coroutine of its stage. */
  lemma TasksAreConserved(es: seq<Event>, s: State, id: TaskId)
    requires PossibleRun(es) && s == Run(es)
    ensures multiset(s.heap)[id] == Once(HasStatus(s, id, Pending)) && s.created[id] == Once(HasStatus(s, id, Assigned))
    ensures s.begun[id] == Once(HasStatus(s, id, Running))
  {
    RunKeepsTasks(es);
  }

  /** After any legal run the heap is exactly the PENDING tasks, an agent's list exactly its active tasks, at most three,
      and every coroutine belongs to a task of its stage. */
  lemma QueueConservation(es: seq<Event>, s: State, id: TaskId, a: AgentId)
    requires LegalRun(es) && s == Run(es) && a in s.agentTasks
    ensures multiset(s.heap)[id] + s.created[id] + s.begun[id]
            == Once(id in s.tasks && s.tasks[id].status !in {Completed, Failed})
    ensures multiset(s.agentTasks[a])[id] == Once(WorksFor(s, id, a)) && |s.agentTasks[a]| <= 3
  {
    RunKeepsInv(es);
  }

  /** What a turn assigns has the least priority value of all PENDING tasks. */
  lemma MostUrgentFirst(es: seq<Event>, s: State, popped: nat, id: TaskId)
    requires PossibleRun(es) && s == Run(es) && popped < |s.heap| && Least(s, popped)
    requires HasStatus(s, id, Pending)
    ensures HasStatus(s, s.heap[popped], Pending) && s.tasks[s.heap[popped]].priority <= s.tasks[id].priority
  {
    RunKeepsTasks(es);
    PoppedIsPending(s, popped);
    InHeap(s, id);
  }

  /** How often the run began to execute task `id`. */
  ghost function Begins(es: seq<Event>, id: TaskId): nat {
    if es == [] then 0 else Begins(es[..|es| - 1], id) + Once(es[|es| - 1] == Begin(id))
  }

  lemma {:induction false} BeginsAreAttempts(es: seq<Event>, id: TaskId)
    requires PossibleRun(es)
    ensures Begins(es, id) == if id in Run(es).tasks then Run(es).tasks[id].attempts else 0
  {
    if es != [] {
      BeginsAreAttempts(es[..|es| - 1], id);
      RunKeepsTasks(es[..|es| - 1]);
      PossibleIsStaged(Run(es[..|es| - 1]), es[|es| - 1]);
      StepOnTask(Run(es[..|es| - 1]), es[|es| - 1], id);
    }
  }

  /** A task is executed at most `maxAttempts` times, and at least once may it be. */
  lemma AttemptsAreBounded(es: seq<Event>, id: TaskId)
    requires PossibleRun(es) && id in Run(es).tasks
    ensures Begins(es, id) <= Max(1, Run(es).tasks[id].maxAttempts)
  {
    RunKeepsTasks(es);
    BeginsAreAttempts(es, id);
  }

  /** COMPLETED and FAILED are final: whatever else happens, the task's record stays as it is. */
  lemma {:induction false} TerminalIsFinal(es: seq<Event>, k: nat, id: TaskId)
    requires PossibleRun(es) && k <= |es|
    requires id in Run(es[..k]).tasks && Run(es[..k]).tasks[id].status in {Completed, Failed}
    ensures id in Run(es).tasks && Run(es).tasks[id] == Run(es[..k]).tasks[id]
  {
    if k < |es| {
      var front := es[..|es| - 1];
      assert front[..k] == es[..k];
      TerminalIsFinal(front, k, id);
      RunKeepsTasks(front);
      PossibleIsStaged(Run(front), es[|es| - 1]);
      StepOnTask(Run(front), es[|es| - 1], id);
    } else {
      assert es[..k] == es;
    }
  }
}
