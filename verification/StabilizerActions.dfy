/** What the stabiliser says in every state, told by the limits themselves: which of its eight checks decides, and on what. */
module StabilizerActions {
  import opened Prelude
  import opened LoopStabilizer

  // ---------- The checks told by the records ----------

  /** The places among the last ten that hold `h`. */
  ghost function PlacesOf(hashes: seq<StepHash>, h: StepHash): set<nat> {
    PlacesFrom(hashes, Max(0, |hashes| - 10), h)
  }

  /** The same step stands at eight of the last ten places. */
  ghost predicate Repeats(s: LoopState) {
    exists h :: |PlacesOf(s.stepHashes, h)| >= 8
  }

  /** The last five steps made less than a tenth of progress together. */
  predicate Stalls(s: LoopState) {
    var p, n := s.progressHistory, |s.progressHistory|;
    n >= 5 && p[n - 5] + p[n - 4] + p[n - 3] + p[n - 2] + p[n - 1] < 2
  }

  /** The last three actions are the three before them. */
  predicate Oscillates(s: LoopState) {
    var a, n := s.actionSequence, |s.actionSequence|;
    n >= 6 && a[n - 6] == a[n - 3] && a[n - 5] == a[n - 2] && a[n - 4] == a[n - 1]
  }

  lemma RecentCount(hashes: seq<StepHash>, h: StepHash)
    ensures multiset(LastN(hashes, 10))[h] == |PlacesOf(hashes, h)|
  {
    CountIsPlaces(hashes, Max(0, |hashes| - 10), h);
    assert LastN(hashes, 10) == hashes[Max(0, |hashes| - 10)..];
  }

  lemma RepeatsIff(s: LoopState)
    ensures CheckLoops(Standard, s) == if Repeats(s) then Some(Report(Critical, Rollback)) else None
  {
    var recent := LastN(s.stepHashes, 10);
    forall h ensures multiset(recent)[h] == |PlacesOf(s.stepHashes, h)| && multiset(recent)[h] <= |recent| {
      RecentCount(s.stepHashes, h);
      assert multiset(recent)[h] <= |multiset(recent)|;
    }
  }

  lemma StallsIff(s: LoopState)
    ensures CheckStagnation(Standard, s) == if Stalls(s) then Some(Report(Unstable, Action.Replan)) else None
  {
    var p := s.progressHistory;
    if |p| >= 5 { SumOfFive(LastN(p, 5)); }
  }

  lemma OscillatesIff(s: LoopState)
    ensures CheckOscillation(Standard, s) == if Oscillates(s) then Some(Report(Unstable, Action.Replan)) else None
  {
    if |s.actionSequence| >= 6 { PeriodThreeIsSeen(s); }
  }

  // ---------- Which of them decides ----------

  /** Nothing critical: neither out of turns, errors, revisions and time nor repeating itself. */
  ghost predicate Endurable(s: LoopState, elapsed: int) {
    s.iteration < 250 && s.consecutiveErrors < 3 && s.planRevisions < 5 && !Repeats(s) && elapsed <= 3600
  }

  /** The second error in a row makes for a new plan, as long as fewer than 200 turns are taken. */
  predicate CallsForPlan(s: LoopState) {
    Stalls(s) || Oscillates(s) || (s.consecutiveErrors == 2 && s.iteration < 200)
  }

  lemma ChecksAre(s: LoopState, confidence: int, elapsed: int)
    ensures var c := Checks(Standard, s, confidence, elapsed);
            && |c| == 8
            && c[3] == (if Stalls(s) then Some(Report(Unstable, Action.Replan)) else None)
            && c[4] == (if Oscillates(s) then Some(Report(Unstable, Action.Replan)) else None)
            && c[5] == (if Repeats(s) then Some(Report(Critical, Rollback)) else None)
  {
    RepeatsIff(s);
    StallsIff(s);
    OscillatesIff(s);
  }

  lemma CriticalIs(s: LoopState, confidence: int, elapsed: int)
    requires !Endurable(s, elapsed)
    ensures Assess(Standard, s, confidence, elapsed)
            == Report(Critical, if s.iteration >= 250 then Abort else if s.consecutiveErrors >= 3 then Rollback
                                else if s.planRevisions >= 5 then Escalate else if Repeats(s) then Rollback else Abort)
  {
    var checks := Checks(Standard, s, confidence, elapsed);
    ChecksAre(s, confidence, elapsed);
    var r := WorstOf(checks);
    assert SeverityOf(checks[0]) <= Severity(r.status) && SeverityOf(checks[1]) <= Severity(r.status);
    assert SeverityOf(checks[2]) <= Severity(r.status) && SeverityOf(checks[5]) <= Severity(r.status);
    assert SeverityOf(checks[7]) <= Severity(r.status);
    var i :| 0 <= i < |checks| && checks[i] == Some(r) && forall j | 0 <= j < i :: SeverityOf(checks[j]) < Severity(r.status);
    assert r.status == Critical;
    assert i > 0 ==> SeverityOf(checks[0]) < 3;
    assert i > 1 ==> SeverityOf(checks[1]) < 3;
    assert i > 2 ==> SeverityOf(checks[2]) < 3;
    assert i > 5 ==> SeverityOf(checks[5]) < 3;
  }

  lemma UnstableIs(s: LoopState, confidence: int, elapsed: int)
    requires Endurable(s, elapsed) && (Stalls(s) || Oscillates(s))
    ensures Assess(Standard, s, confidence, elapsed) == Report(Unstable, Action.Replan)
  {
    var checks := Checks(Standard, s, confidence, elapsed);
    ChecksAre(s, confidence, elapsed);
    var r := WorstOf(checks);
    assert SeverityOf(checks[3]) <= Severity(r.status) && SeverityOf(checks[4]) <= Severity(r.status);
    var i :| 0 <= i < |checks| && checks[i] == Some(r);
    assert i == 3 || i == 4;
  }

  lemma MildIs(s: LoopState, confidence: int, elapsed: int)
    requires Endurable(s, elapsed) && !Stalls(s) && !Oscillates(s)
    ensures Assess(Standard, s, confidence, elapsed)
            == if s.iteration >= 200 then Report(Warning, SlowDown)
               else if s.consecutiveErrors == 2 then Report(Warning, Action.Replan)
               else if confidence < 60 || elapsed > 2880 then Report(Warning, SlowDown)
               else Report(Stable, Continue)
  {
    var checks := Checks(Standard, s, confidence, elapsed);
    ChecksAre(s, confidence, elapsed);
    var r := WorstOf(checks);
    assert checks[2] == checks[3] == checks[4] == checks[5] == None;
    assert SeverityOf(checks[0]) <= Severity(r.status) && SeverityOf(checks[1]) <= Severity(r.status);
    assert SeverityOf(checks[6]) <= Severity(r.status) && SeverityOf(checks[7]) <= Severity(r.status);
    if r != Report(Stable, Continue) {
      var i :| 0 <= i < |checks| && checks[i] == Some(r) && forall j | 0 <= j < i :: SeverityOf(checks[j]) < Severity(r.status);
      assert r.status == Warning;
      assert i > 0 ==> SeverityOf(checks[0]) < 1;
      assert i > 1 ==> SeverityOf(checks[1]) < 1;
    }
  }

  /** What the stabiliser has the loop do: to end at 250 turns, or out of time unless errors, revisions or repetitions come before
      that; to roll back from the third error in a row, or at eight equal steps among ten; to make a new plan where nothing is
      critical and progress stalls, actions go round in threes, or a second error comes within the first 199 turns; and to slow
      down, where not even that holds, from turn 200 on, without confidence, or at four fifths of the time. */
  lemma ActionIff(s: LoopState, confidence: int, elapsed: int)
    ensures var action := Assess(Standard, s, confidence, elapsed).action;
            && (action == Abort <==>
                  s.iteration >= 250 || (s.consecutiveErrors < 3 && s.planRevisions < 5 && !Repeats(s) && elapsed > 3600))
            && (action == Rollback <==> s.iteration < 250 && (s.consecutiveErrors >= 3 || (s.planRevisions < 5 && Repeats(s))))
            && (action == Escalate <==> s.iteration < 250 && s.consecutiveErrors < 3 && s.planRevisions >= 5)
            && (action == Action.Replan <==> Endurable(s, elapsed) && CallsForPlan(s))
            && (action == SlowDown <==>
                  Endurable(s, elapsed) && !CallsForPlan(s) && (s.iteration >= 200 || confidence < 60 || elapsed > 2880))
  {
    if !Endurable(s, elapsed) {
      CriticalIs(s, confidence, elapsed);
    } else if Stalls(s) || Oscillates(s) {
      UnstableIs(s, confidence, elapsed);
    } else {
      MildIs(s, confidence, elapsed);
    }
  }

  /** Eight equal steps at the end are reported, whatever was before them. */
  lemma EightInARowAreSeen(s: LoopState, h: StepHash)
    requires |s.stepHashes| >= 8 && forall i | |s.stepHashes| - 8 <= i < |s.stepHashes| :: s.stepHashes[i] == h
    ensures CheckLoops(Standard, s) == Some(Report(Critical, Rollback))
  {
    var n := |s.stepHashes|;
    var places: set<nat> := {n - 8, n - 7, n - 6, n - 5, n - 4, n - 3, n - 2, n - 1};
    assert places <= PlacesOf(s.stepHashes, h);
    SmallerOrEqual(places, PlacesOf(s.stepHashes, h));
    RepeatsIff(s);
  }

  lemma SmallerOrEqual(a: set<nat>, b: set<nat>)
    requires a <= b
    ensures |a| <= |b|
  {
    assert b == a + (b - a);
  }

  /** A checkpoint is due five turns after the last one, and after more than a fifth of progress in one step. */
  lemma CheckpointIff(s: LoopState)
    ensures var n := |s.progressHistory|;
            ShouldCheckpoint(s) <==> s.iteration >= s.lastCheckpointIteration + 5 || (n > 0 && 5 * s.progressHistory[n - 1] > 20)
  {
  }
}
