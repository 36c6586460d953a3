/** What replanning does to the critical path. */
module ReplanPaths {
  import opened Prelude
  import opened GoalPlan
  import opened ChainDurations
  import opened Replan

  // ---------- The minutes of the critical path ----------

  ghost function CriticalMinutes(tasks: seq<PlanTask>): int
    requires Acyclic(TaskMap(tasks))
  {
    var rank :| Ranked(TaskMap(tasks), rank);
    Critical(TaskMap(tasks), rank, tasks).duration
  }

  /** They are those of a chain of the plan, and no chain takes longer. */
  lemma LongestChain(tasks: seq<PlanTask>) returns (p: seq<string>)
    requires Acyclic(TaskMap(tasks))
    ensures Chain(TaskMap(tasks), p) && Total(TaskMap(tasks), p) == CriticalMinutes(tasks)
  {
    var m := TaskMap(tasks);
    var rank :| Ranked(m, rank) && CriticalMinutes(tasks) == Critical(m, rank, tasks).duration;
    CriticalIsAPath(m, rank, tasks);
    p := Critical(m, rank, tasks).ids;
  }

  lemma NoChainIsLonger(tasks: seq<PlanTask>, c: seq<string>)
    requires Acyclic(TaskMap(tasks)) && Chain(TaskMap(tasks), c)
    ensures Total(TaskMap(tasks), c) <= CriticalMinutes(tasks)
  {
    var m := TaskMap(tasks);
    var rank :| Ranked(m, rank) && CriticalMinutes(tasks) == Critical(m, rank, tasks).duration;
    CriticalPathIsOptimal(tasks, rank, c);
    CriticalIsAPath(m, rank, tasks);
  }

  lemma CriticalIsLongest(tasks: seq<PlanTask>)
    requires Acyclic(TaskMap(tasks))
    ensures LongestTotal(TaskMap(tasks), CriticalMinutes(tasks))
  {
    var p := LongestChain(tasks);
    forall c | Chain(TaskMap(tasks), c) ensures Total(TaskMap(tasks), c) <= CriticalMinutes(tasks) {
      NoChainIsLonger(tasks, c);
    }
  }

  // ---------- Chains of the new plan ----------

  /** A chain of the new plan without the fallback task was one of the old plan. */
  lemma KeptChain(tasks: seq<PlanTask>, completed: set<string>, failed: string, reason: string, c: seq<string>)
    requires Chain(TaskMap(Replanned(tasks, completed, failed, reason)), c)
    requires Retry(tasks, completed, failed, reason).Some? ==> RetryId(failed) !in c
    ensures Chain(TaskMap(tasks), c)
    ensures Total(TaskMap(Replanned(tasks, completed, failed, reason)), c) == Total(TaskMap(tasks), c)
  {
    var m, n := TaskMap(tasks), TaskMap(Replanned(tasks, completed, failed, reason));
    ReplannedMap(tasks, completed, failed, reason);
    forall i | 0 <= i < |c| ensures c[i] in m && m[c[i]] == n[c[i]] { assert c[i] in c; }
    TotalSame(m, n, c);
  }

  /** The fallback task begins every chain it is in: what it depends on is completed and gone. */
  lemma RetryComesAtTheHead(tasks: seq<PlanTask>, completed: set<string>, failed: string, reason: string, c: seq<string>, i: nat)
    requires Retry(tasks, completed, failed, reason).Some? && !SelfRetry(tasks, completed, failed, reason)
    requires Chain(TaskMap(Replanned(tasks, completed, failed, reason)), c) && i < |c| && c[i] == RetryId(failed)
    ensures i == 0
  {
    var n := TaskMap(Replanned(tasks, completed, failed, reason));
    ReplannedMap(tasks, completed, failed, reason);
    if i > 0 { ChainStep(n, c, i); }
  }

  // ---------- Never longer, for given minutes ----------

  lemma FailedIsKnown(tasks: seq<PlanTask>, failed: string)
    requires FirstWithId(tasks, failed).Some?
    ensures failed in TaskMap(tasks)
  {
    FirstIsThere(tasks, failed);
  }

  lemma {:induction false} FirstIsThere(tasks: seq<PlanTask>, id: string)
    requires FirstWithId(tasks, id).Some?
    ensures FirstWithId(tasks, id).value in tasks && FirstWithId(tasks, id).value.id == id
  {
    if tasks[0].id != id { FirstIsThere(tasks[1..], id); }
  }

  lemma FreshRetryStandsAlone(tasks: seq<PlanTask>, completed: set<string>, failed: string, reason: string, c: seq<string>, i: nat)
    requires FreshRetry(tasks, failed) && Retry(tasks, completed, failed, reason).Some?
    requires !SelfRetry(tasks, completed, failed, reason)
    requires Chain(TaskMap(Replanned(tasks, completed, failed, reason)), c) && i < |c| && c[i] == RetryId(failed)
    ensures c == [RetryId(failed)]
  {
    var n, id := TaskMap(Replanned(tasks, completed, failed, reason)), RetryId(failed);
    RetryComesAtTheHead(tasks, completed, failed, reason, c, i);
    ReplannedMap(tasks, completed, failed, reason);
    assert forall t | t in n :: id !in n[t].deps by { NobodyNamesIt(tasks, completed, failed, reason); }
    if |c| > 1 { ChainStep(n, c, 1); }
  }

  lemma NobodyNamesIt(tasks: seq<PlanTask>, completed: set<string>, failed: string, reason: string)
    requires FreshRetry(tasks, failed) && Retry(tasks, completed, failed, reason).Some?
    requires !SelfRetry(tasks, completed, failed, reason)
    ensures forall t | t in TaskMap(Replanned(tasks, completed, failed, reason)) ::
              RetryId(failed) !in TaskMap(Replanned(tasks, completed, failed, reason))[t].deps
  {
    ReplannedMap(tasks, completed, failed, reason);
  }

  /** Replanning with a new fallback id lengthens the critical path exactly if the fallback task alone takes longer than that. */
  lemma ReplanLengthensIff(tasks: seq<PlanTask>, completed: set<string>, failed: string, reason: string)
    requires Acyclic(TaskMap(tasks)) && Acyclic(TaskMap(Replanned(tasks, completed, failed, reason)))
    requires FreshRetry(tasks, failed)
    ensures var retry := Retry(tasks, completed, failed, reason);
            CriticalMinutes(Replanned(tasks, completed, failed, reason)) > CriticalMinutes(tasks)
            <==> retry.Some? && retry.value.duration > CriticalMinutes(tasks)
  {
    var n := TaskMap(Replanned(tasks, completed, failed, reason));
    var retry := Retry(tasks, completed, failed, reason);
    var p := LongestChain(Replanned(tasks, completed, failed, reason));
    if retry.Some? {
      ReplannedMap(tasks, completed, failed, reason);
      LoneChain(n, RetryId(failed));
      NoChainIsLonger(Replanned(tasks, completed, failed, reason), [RetryId(failed)]);
    }
    if retry.Some? && RetryId(failed) in p {
      ReplanKeepsAcyclicity(tasks, completed, failed, reason);
      var i :| 0 <= i < |p| && p[i] == RetryId(failed);
      FreshRetryStandsAlone(tasks, completed, failed, reason, p, i);
    } else {
      KeptChain(tasks, completed, failed, reason, p);
      NoChainIsLonger(tasks, p);
    }
  }

  /** The fallback task takes as long as the first task of the failed id, and so never longer than the critical path, whatever has
      been completed and whatever the minutes, unless a later task has that id too. */
  lemma ReplanNeverLengthens(tasks: seq<PlanTask>, completed: set<string>, failed: string, reason: string)
    requires Acyclic(TaskMap(tasks)) && Acyclic(TaskMap(Replanned(tasks, completed, failed, reason)))
    requires FreshRetry(tasks, failed)
    requires failed in TaskMap(tasks) ==> FirstWithId(tasks, failed) == Some(TaskMap(tasks)[failed])
    ensures CriticalMinutes(Replanned(tasks, completed, failed, reason)) <= CriticalMinutes(tasks)
  {
    ReplanLengthensIff(tasks, completed, failed, reason);
    if Retry(tasks, completed, failed, reason).Some? {
      FailedIsKnown(tasks, failed);
      LoneChain(TaskMap(tasks), failed);
      NoChainIsLonger(tasks, [failed]);
    }
  }

  // ---------- With any minutes ----------

  function WithDurations(tasks: seq<PlanTask>, d: Durations): (r: seq<PlanTask>)
    ensures |r| == |tasks|
  {
    if tasks == [] then []
    else WithDurations(tasks[..|tasks| - 1], d) + [tasks[|tasks| - 1].(duration := d(tasks[|tasks| - 1].id))]
  }

  lemma TimedUpdate(m: map<string, PlanTask>, d: Durations, t: PlanTask)
    ensures Timed(m[t.id := t], d) == Timed(m, d)[t.id := t.(duration := d(t.id))]
  {
  }

  lemma {:induction false} TimedMap(tasks: seq<PlanTask>, d: Durations)
    ensures TaskMap(WithDurations(tasks, d)) == Timed(TaskMap(tasks), d)
  {
    if tasks != [] {
      var front, last := tasks[..|tasks| - 1], tasks[|tasks| - 1];
      TimedMap(front, d);
      TimedUpdate(TaskMap(front), d, last);
      TaskMapSnoc(WithDurations(front, d), last.(duration := d(last.id)));
    }
  }

  lemma {:induction false} TimedFirst(tasks: seq<PlanTask>, d: Durations, id: string)
    ensures FirstWithId(WithDurations(tasks, d), id)
            == if FirstWithId(tasks, id) == None then None
               else Some(FirstWithId(tasks, id).value.(duration := d(id)))
  {
    if tasks != [] {
      var front, last := tasks[..|tasks| - 1], tasks[|tasks| - 1];
      TimedFirst(front, d, id);
      FirstSnoc(front, last, id);
      FirstSnoc(WithDurations(front, d), last.(duration := d(last.id)), id);
      assert front + [last] == tasks;
      if FirstWithId(front, id).Some? { FirstIsThere(front, id); }
    }
  }

  lemma {:induction false} FirstSnoc(tasks: seq<PlanTask>, t: PlanTask, id: string)
    ensures FirstWithId(tasks + [t], id)
            == if FirstWithId(tasks, id).Some? then FirstWithId(tasks, id) else if t.id == id then Some(t) else None
  {
    if tasks != [] && tasks[0].id != id {
      assert (tasks + [t])[1..] == tasks[1..] + [t];
      FirstSnoc(tasks[1..], t, id);
    } else if tasks == [] {
      assert (tasks + [t])[1..] == [];
    }
  }

  lemma TimedRetry(tasks: seq<PlanTask>, completed: set<string>, failed: string, reason: string, d: Durations)
    ensures var retry := Retry(tasks, completed, failed, reason);
            Retry(WithDurations(tasks, d), completed, failed, reason)
            == if retry == None then None else Some(retry.value.(duration := d(failed)))
    ensures SelfRetry(WithDurations(tasks, d), completed, failed, reason) <==> SelfRetry(tasks, completed, failed, reason)
  {
    TimedFirst(tasks, d, failed);
  }

  lemma TimedNewMap(tasks: seq<PlanTask>, completed: set<string>, failed: string, reason: string, d: Durations)
    requires Retry(tasks, completed, failed, reason).Some?
    ensures TaskMap(Replanned(WithDurations(tasks, d), completed, failed, reason))
            == TimedNew(TaskMap(Replanned(tasks, completed, failed, reason)), RetryId(failed), failed, d)
  {
    TimedMap(tasks, d);
    TimedRetry(tasks, completed, failed, reason, d);
    ReplannedMap(tasks, completed, failed, reason);
    ReplannedMap(WithDurations(tasks, d), completed, failed, reason);
    TimedReplacement(TaskMap(tasks), completed, RetryId(failed), failed, Retry(tasks, completed, failed, reason).value, d);
  }

  lemma TimedReplacement(m: map<string, PlanTask>, completed: set<string>, r: string, failed: string, t: PlanTask, d: Durations)
    ensures (Timed(m, d) - completed)[r := t.(duration := d(failed))] == TimedNew((m - completed)[r := t], r, failed, d)
  {
  }

  /** The plan and its replanned form have no cycle. */
  ghost predicate BothAcyclic(tasks: seq<PlanTask>, completed: set<string>, failed: string, reason: string) {
    Acyclic(TaskMap(tasks)) && Acyclic(TaskMap(Replanned(tasks, completed, failed, reason)))
  }

  lemma TimedAcyclic(m: map<string, PlanTask>, d: Durations)
    requires Acyclic(m)
    ensures Acyclic(Timed(m, d))
  {
    var rank :| Ranked(m, rank);
    assert Ranked(Timed(m, d), rank);
  }

  lemma TimedNewAcyclic(n: map<string, PlanTask>, r: string, failed: string, d: Durations)
    requires Acyclic(n)
    ensures Acyclic(TimedNew(n, r, failed, d))
  {
    var rank :| Ranked(n, rank);
    assert Ranked(TimedNew(n, r, failed, d), rank);
  }

  lemma BothTimedAcyclic(tasks: seq<PlanTask>, completed: set<string>, failed: string, reason: string, d: Durations)
    requires BothAcyclic(tasks, completed, failed, reason) && Retry(tasks, completed, failed, reason).Some?
    ensures BothAcyclic(WithDurations(tasks, d), completed, failed, reason)
  {
    TimedMap(tasks, d);
    TimedAcyclic(TaskMap(tasks), d);
    TimedNewMap(tasks, completed, failed, reason, d);
    TimedNewAcyclic(TaskMap(Replanned(tasks, completed, failed, reason)), RetryId(failed), failed, d);
  }

  /** With these durations, replanning makes the critical path longer. */
  ghost predicate Lengthens(tasks: seq<PlanTask>, completed: set<string>, failed: string, reason: string, d: Durations)
    requires BothAcyclic(tasks, completed, failed, reason) && Retry(tasks, completed, failed, reason).Some?
  {
    BothTimedAcyclic(tasks, completed, failed, reason, d);
    CriticalMinutes(Replanned(WithDurations(tasks, d), completed, failed, reason))
    > CriticalMinutes(WithDurations(tasks, d))
  }

  lemma TimedMinutes(tasks: seq<PlanTask>, completed: set<string>, failed: string, reason: string, d: Durations)
    requires BothAcyclic(tasks, completed, failed, reason) && Retry(tasks, completed, failed, reason).Some?
    ensures BothAcyclic(WithDurations(tasks, d), completed, failed, reason)
    ensures LongestTotal(Timed(TaskMap(tasks), d), CriticalMinutes(WithDurations(tasks, d)))
    ensures LongestTotal(TimedNew(TaskMap(Replanned(tasks, completed, failed, reason)), RetryId(failed), failed, d),
                         CriticalMinutes(Replanned(WithDurations(tasks, d), completed, failed, reason)))
  {
    BothTimedAcyclic(tasks, completed, failed, reason, d);
    TimedMap(tasks, d);
    TimedNewMap(tasks, completed, failed, reason, d);
    CriticalIsLongest(WithDurations(tasks, d));
    CriticalIsLongest(Replanned(WithDurations(tasks, d), completed, failed, reason));
  }

  lemma ReplannedReplans(tasks: seq<PlanTask>, completed: set<string>, failed: string, reason: string)
    requires Retry(tasks, completed, failed, reason).Some? && !SelfRetry(tasks, completed, failed, reason)
    ensures Replans(TaskMap(tasks), TaskMap(Replanned(tasks, completed, failed, reason)), RetryId(failed), failed)
  {
    FailedIsKnown(tasks, failed);
    ReplannedMap(tasks, completed, failed, reason);
  }

  /** With the fallback task, `bs` is a chain of the new plan. */
  ghost predicate Tail(tasks: seq<PlanTask>, completed: set<string>, failed: string, reason: string, bs: seq<string>) {
    Chain(TaskMap(Replanned(tasks, completed, failed, reason)), [RetryId(failed)] + bs)
  }

  /** Every tail has its tasks, none of them the failed one, together with the failed task on one chain of the old plan. */
  ghost predicate TailsCovered(tasks: seq<PlanTask>, completed: set<string>, failed: string, reason: string) {
    forall bs | Tail(tasks, completed, failed, reason, bs) :: Covered(TaskMap(tasks), failed, bs)
  }

  lemma TailsCoveredNeverLengthens(tasks: seq<PlanTask>, completed: set<string>, failed: string, reason: string, d: Durations)
    requires BothAcyclic(tasks, completed, failed, reason) && Retry(tasks, completed, failed, reason).Some?
    requires TailsCovered(tasks, completed, failed, reason)
    ensures !Lengthens(tasks, completed, failed, reason, d)
  {
    var m, n := TaskMap(tasks), TaskMap(Replanned(tasks, completed, failed, reason));
    ReplanKeepsAcyclicity(tasks, completed, failed, reason);
    ReplannedReplans(tasks, completed, failed, reason);
    forall bs | Chain(n, [RetryId(failed)] + bs) ensures Covered(m, failed, bs) {
      assert Tail(tasks, completed, failed, reason, bs);
    }
    CoveredIsNotLonger(m, n, RetryId(failed), failed, d);
    TimedMinutes(tasks, completed, failed, reason, d);
  }

  lemma UncoveredTailLengthens(tasks: seq<PlanTask>, completed: set<string>, failed: string, reason: string, bs: seq<string>)
    requires BothAcyclic(tasks, completed, failed, reason) && Retry(tasks, completed, failed, reason).Some?
    requires Tail(tasks, completed, failed, reason, bs) && !Covered(TaskMap(tasks), failed, bs)
    ensures Lengthens(tasks, completed, failed, reason, Unit(Elements(bs) + {failed}))
  {
    var d := Unit(Elements(bs) + {failed});
    TimedMinutes(tasks, completed, failed, reason, d);
    UncoveredIsLonger(TaskMap(tasks), TaskMap(Replanned(tasks, completed, failed, reason)), RetryId(failed), failed, bs,
                      CriticalMinutes(Replanned(WithDurations(tasks, d), completed, failed, reason)),
                      CriticalMinutes(WithDurations(tasks, d)));
  }

  /** Replanning lengthens the critical path under no durations exactly when every chain of the new plan that begins with
      the fallback task has its other tasks, none of them the failed one, together with the failed task on one chain of
      the old plan. */
  lemma NeverLengthensIff(tasks: seq<PlanTask>, completed: set<string>, failed: string, reason: string)
    requires BothAcyclic(tasks, completed, failed, reason) && Retry(tasks, completed, failed, reason).Some?
    ensures (forall d: Durations :: !Lengthens(tasks, completed, failed, reason, d))
            <==> TailsCovered(tasks, completed, failed, reason)
  {
    if TailsCovered(tasks, completed, failed, reason) {
      forall d: Durations ensures !Lengthens(tasks, completed, failed, reason, d) {
        TailsCoveredNeverLengthens(tasks, completed, failed, reason, d);
      }
    } else {
      var bs :| Tail(tasks, completed, failed, reason, bs) && !Covered(TaskMap(tasks), failed, bs);
      UncoveredTailLengthens(tasks, completed, failed, reason, bs);
    }
  }

  // ---------- The same for the dependencies that name the fallback task ----------

  /** `b` is a task that is left and names the fallback task's id, which therefore stood in the plan before. */
  ghost predicate NamesRetry(tasks: seq<PlanTask>, completed: set<string>, failed: string, b: string) {
    var m := TaskMap(tasks);
    b in m && b !in completed && b != RetryId(failed) && RetryId(failed) in m[b].deps
  }

  lemma RetryIdDiffers(failed: string)
    ensures RetryId(failed) != failed
  {
    assert |RetryId(failed)| == |failed| + 6;
  }

  /** If the failed task is not completed and completed tasks have completed dependencies: replanning lengthens the
      critical path under no durations exactly when a chain leads from the failed task to every task that is left and
      names the fallback task. */
  lemma NeverLengthensIffLed(tasks: seq<PlanTask>, completed: set<string>, failed: string, reason: string)
    requires BothAcyclic(tasks, completed, failed, reason) && Retry(tasks, completed, failed, reason).Some?
    requires CompletedFirst(TaskMap(tasks), completed) && failed !in completed
    ensures (forall d: Durations :: !Lengthens(tasks, completed, failed, reason, d))
            <==> forall b | NamesRetry(tasks, completed, failed, b) :: Leads(TaskMap(tasks), failed, b)
  {
    var m, n, r := TaskMap(tasks), TaskMap(Replanned(tasks, completed, failed, reason)), RetryId(failed);
    NeverLengthensIff(tasks, completed, failed, reason);
    ReplanKeepsAcyclicity(tasks, completed, failed, reason);
    ReplannedReplans(tasks, completed, failed, reason);
    RetryIdDiffers(failed);
    NamersMatch(tasks, completed, failed, reason);
    CoveredIffLed(m, n, r, failed, completed);
    TailsAreChains(tasks, completed, failed, reason);
  }

  lemma TailsAreChains(tasks: seq<PlanTask>, completed: set<string>, failed: string, reason: string)
    ensures TailsCovered(tasks, completed, failed, reason)
            <==> forall bs | Chain(TaskMap(Replanned(tasks, completed, failed, reason)), [RetryId(failed)] + bs) ::
                   Covered(TaskMap(tasks), failed, bs)
  {
    if TailsCovered(tasks, completed, failed, reason) {
      forall bs | Chain(TaskMap(Replanned(tasks, completed, failed, reason)), [RetryId(failed)] + bs)
        ensures Covered(TaskMap(tasks), failed, bs)
      {
        assert Tail(tasks, completed, failed, reason, bs);
      }
    }
  }

  lemma NamersMatch(tasks: seq<PlanTask>, completed: set<string>, failed: string, reason: string)
    requires Retry(tasks, completed, failed, reason).Some?
    ensures forall t | t in TaskMap(tasks) && t !in completed :: t in TaskMap(Replanned(tasks, completed, failed, reason))
    ensures forall b :: Namer(TaskMap(tasks), TaskMap(Replanned(tasks, completed, failed, reason)), RetryId(failed), b)
                        <==> NamesRetry(tasks, completed, failed, b)
  {
    ReplannedMap(tasks, completed, failed, reason);
  }

  // ---------- A plan that gets longer ----------

  /** A task of a minute, and another of a minute that names the id the first one's fallback task would get. */
  const Stale := [PlanTask("f", [], 1, 0, "again"), PlanTask("ab", ["f_retry"], 1, 0, "")]

  lemma StaleMap()
    ensures TaskMap(Stale) == map["f" := Stale[0], "ab" := Stale[1]]
    ensures FirstWithId(Stale, "f") == Some(Stale[0]) && RetryId("f") == "f_retry"
  {
    assert Stale[..1] == [Stale[0]] && [Stale[0]][..0] == [];
    assert TaskMap([Stale[0]]) == map["f" := Stale[0]];
  }

  lemma StaleRetry()
    ensures Retry(Stale, {}, "f", "error") == Some(PlanTask("f_retry", [], 1, 1, ""))
  {
    StaleMap();
  }

  lemma StaleReplanned()
    ensures Retry(Stale, {}, "f", "error") == Some(PlanTask("f_retry", [], 1, 1, ""))
    ensures TaskMap(Replanned(Stale, {}, "f", "error"))
            == map["f" := Stale[0], "ab" := Stale[1], "f_retry" := PlanTask("f_retry", [], 1, 1, "")]
  {
    StaleMap();
    StaleRetry();
    ReplannedMap(Stale, {}, "f", "error");
    assert TaskMap(Stale) - {} == TaskMap(Stale);
  }

  lemma RankTwo(m: map<string, PlanTask>, a: string, b: string)
    requires m.Keys == {a, b} && a != b && m[a].deps == [] && forall d | d in m[b].deps :: d !in m
    ensures Acyclic(m)
  {
    assert Ranked(m, map[a := 0, b := 0]);
  }

  lemma RankThree(m: map<string, PlanTask>, r: string, a: string, b: string)
    requires m.Keys == {r, a, b} && b != r && b != a && m[r].deps == [] && m[a].deps == []
    requires forall d | d in m[b].deps :: d == r
    ensures Acyclic(m)
  {
    assert Ranked(m, map[r := 0, a := 0, b := 1]);
  }

  lemma StaleIsAcyclic()
    ensures Acyclic(TaskMap(Stale))
  {
    StaleMap();
    RankTwo(TaskMap(Stale), "f", "ab");
  }

  lemma ReplannedIsAcyclic()
    ensures Acyclic(TaskMap(Replanned(Stale, {}, "f", "error")))
  {
    StaleReplanned();
    RankThree(TaskMap(Replanned(Stale, {}, "f", "error")), "f_retry", "f", "ab");
  }

  lemma StaleAcyclic()
    ensures BothAcyclic(Stale, {}, "f", "error")
  {
    StaleIsAcyclic();
    ReplannedIsAcyclic();
  }

  lemma TwoInAChain(m: map<string, PlanTask>, a: string, b: string)
    requires a in m && b in m && m[b].deps == [a]
    ensures Chain(m, [a, b]) && Total(m, [a, b]) == m[a].duration + m[b].duration
  {
    var c := [a, b];
    LoneChain(m, a);
    assert c[0] == a && c[1] == b && c[..1] == [a] && m[b].deps[0] == a;
  }

  /** The id is not in the plan when the plan is made, so the second task has a dependency that is missing; replanning
      supplies it, and the critical path of one minute becomes one of two. */
  lemma StaleRetryIdLengthens()
    ensures BothAcyclic(Stale, {}, "f", "error")
    ensures CriticalMinutes(Stale) <= 1 && CriticalMinutes(Replanned(Stale, {}, "f", "error")) >= 2
  {
    StaleAcyclic();
    StaleBefore();
    StaleAfter();
  }

  lemma StaleBefore()
    requires Acyclic(TaskMap(Stale))
    ensures CriticalMinutes(Stale) <= 1
  {
    StaleMap();
    var p := LongestChain(Stale);
    if |p| > 1 { ChainStep(TaskMap(Stale), p, 1); }
    if |p| == 1 {
      LoneChain(TaskMap(Stale), p[0]);
      assert p == [p[0]];
    }
  }

  lemma StaleAfter()
    requires Acyclic(TaskMap(Replanned(Stale, {}, "f", "error")))
    ensures CriticalMinutes(Replanned(Stale, {}, "f", "error")) >= 2
  {
    StaleReplanned();
    TwoInAChain(TaskMap(Replanned(Stale, {}, "f", "error")), "f_retry", "ab");
    NoChainIsLonger(Replanned(Stale, {}, "f", "error"), ["f_retry", "ab"]);
  }
}
