/** When the run loop is told that it stagnates: which turns the verifier must reject for that, and which calls can get
    so far with the verifier as it is. */
module Stagnation {
  import opened Prelude
  import opened LoopStabilizer
  import opened StepResults
  import opened Verifier
  import opened RunLoop
  import opened RunTrace
  import opened RunLoopTheorems

  /** The stabiliser finds stagnation in turn `t`, and that is what it reports. */
  ghost predicate Stagnates(v: LoopVars, t: Turn, limits: Limits) {
    && TokensLeft(v, t, limits) && CheckStagnation(Standard, Record(v.course.stab, RecordOf(t.step))).Some?
    && ReportOf(v.course, t) == Report(Unstable, Replan)
  }

  ghost predicate StagnatesAt(r: Run, env: nat -> Turn, limits: Limits, j: nat) {
    j < |r.before| && Stagnates(r.before[j], env(j), limits)
  }

  // ---------- When stagnation decides the report ----------

  /** No check that outranks stagnation fires. */
  predicate NothingCritical(s: LoopState, elapsed: int) {
    && s.iteration < Standard.maxIterations && s.consecutiveErrors < 3 && s.planRevisions < 5
    && CheckLoops(Standard, s) == None && elapsed <= 3600
  }

  lemma UnstableIsNotCritical(s: LoopState, confidence: int, elapsed: int)
    requires Assess(Standard, s, confidence, elapsed).status == Unstable
    ensures NothingCritical(s, elapsed)
  {
    var checks := Checks(Standard, s, confidence, elapsed);
    assert SeverityOf(checks[0]) <= 2 && SeverityOf(checks[1]) <= 2 && SeverityOf(checks[2]) <= 2;
    assert SeverityOf(checks[5]) <= 2 && SeverityOf(checks[7]) <= 2;
  }

  lemma StagnationDecides(s: LoopState, confidence: int, elapsed: int)
    requires CheckStagnation(Standard, s).Some? && NothingCritical(s, elapsed)
    ensures Assess(Standard, s, confidence, elapsed) == Report(Unstable, Replan)
  {
    var checks := Checks(Standard, s, confidence, elapsed);
    var r := WorstOf(checks);
    assert checks[3] == Some(Report(Unstable, Replan)) && SeverityOf(checks[3]) <= Severity(r.status);
    var i :| 0 <= i < |checks| && checks[i] == Some(r);
    assert i == 3 || i == 4;
  }

  // ---------- The last five turns ----------

  predicate FailsIn(env: nat -> Turn, n: nat) {
    Fails(env(n).step)
  }

  function ProgressIn(env: nat -> Turn, n: nat): int {
    ProgressOf(env(n).step)
  }

  /** The progress of the five turns up to `j`. */
  function LastFive(env: nat -> Turn, j: nat): int
    requires j >= 4
  {
    ProgressIn(env, j - 4) + ProgressIn(env, j - 3) + ProgressIn(env, j - 2) + ProgressIn(env, j - 1) + ProgressIn(env, j)
  }

  lemma StagnationIff(s: LoopState, env: nat -> Turn, j: nat)
    requires Mirrors(s, env, j)
    ensures CheckStagnation(Standard, Record(s, RecordOf(env(j).step))).Some? <==> j >= 4 && LastFive(env, j) < 2
  {
    var p := s.progressHistory + [ProgressIn(env, j)];
    if j >= 4 {
      var w := LastN(p, 5);
      assert |w| == 5 && w[0] == p[j - 4] && w[1] == p[j - 3] && w[2] == p[j - 2] && w[3] == p[j - 1] && w[4] == p[j];
      SumOfFive(w);
    }
  }

  /** Four of the last five turns failed, but not the last three, and the one that did not fail made little progress. */
  ghost predicate FailingFive(env: nat -> Turn, j: nat) {
    && j >= 4 && FailsIn(env, j - 4) && FailsIn(env, j - 3) && LastFive(env, j) == 1
  }

  lemma ErrorsInFive(env: nat -> Turn, j: nat)
    requires j >= 4
    ensures LastFive(env, j) < 2 && Trailing(env, j + 1) < 3 <==> FailingFive(env, j)
  {
    assert Trailing(env, j - 1) == if FailsIn(env, j - 2) then Trailing(env, j - 2) + 1 else 0;
    assert Trailing(env, j) == if FailsIn(env, j - 1) then Trailing(env, j - 1) + 1 else 0;
    assert Trailing(env, j + 1) == if FailsIn(env, j) then Trailing(env, j) + 1 else 0;
  }

  // ---------- Which turns the verifier must reject ----------

  /** Failed turns are rejected by the verifier only where `may` allows it. */
  ghost predicate RejectsOnly(env: nat -> Turn, may: nat -> bool) {
    forall n: nat | FailsIn(env, n) && env(n).verdict == Rejected :: may(n)
  }

  /** A failed turn `n` of a call entered at `k` can be survived. */
  predicate MayFail(k: nat, may: nat -> bool, n: nat) {
    may(n) || k + n < 2
  }

  /** Turn `j` is within the call's limits, and the failures it takes for a stagnation there can be survived. */
  predicate Room(k: nat, limits: Limits, may: nat -> bool, j: nat) {
    && 4 <= j && j + 1 < Standard.maxIterations && k + j < limits.maxLoops
    && MayFail(k, may, j - 4) && MayFail(k, may, j - 3) && (MayFail(k, may, j - 2) || MayFail(k, may, j - 1))
  }

  lemma StagnatingState(r: Run, entry: LoopVars, env: nat -> Turn, limits: Limits, j: nat)
    requires Call(r, entry, env, limits) && j < |r.before|
    ensures var s := Record(r.before[j].course.stab, RecordOf(env(j).step));
            && s.iteration == j + 1 && s.planRevisions == 0 && s.consecutiveErrors == Trailing(env, j + 1)
            && |s.stepHashes| == j + 1
            && (CheckStagnation(Standard, s).Some? <==> j >= 4 && LastFive(env, j) < 2)
  {
    HeadAt(r, entry, env, limits, j);
    MirrorsAt(r, entry, env, limits, j);
    StagnationIff(r.before[j].course.stab, env, j);
  }

  lemma StagnatingFails(r: Run, entry: LoopVars, env: nat -> Turn, limits: Limits, j: nat)
    requires Call(r, entry, env, limits) && StagnatesAt(r, env, limits, j)
    ensures FailingFive(env, j) && j + 1 < Standard.maxIterations
  {
    StagnatingState(r, entry, env, limits, j);
    var s := Record(r.before[j].course.stab, RecordOf(env(j).step));
    UnstableIsNotCritical(s, Confidence(env(j).verdict), env(j).elapsed);
    ErrorsInFive(env, j);
  }

  lemma SurvivedFailure(k: nat, env: nat -> Turn, may: nat -> bool, j: nat, n: nat)
    requires AllSurvive(k, env, j) && RejectsOnly(env, may) && n < j && FailsIn(env, n)
    ensures MayFail(k, may, n)
  {
    assert Survives(k, env(n), n);
  }

  lemma FailureNeedsRoom(k: nat, env: nat -> Turn, may: nat -> bool, limits: Limits, j: nat)
    requires AllSurvive(k, env, j) && RejectsOnly(env, may) && FailingFive(env, j)
    requires j + 1 < Standard.maxIterations && k + j < limits.maxLoops
    ensures Room(k, limits, may, j)
  {
    SurvivedFailure(k, env, may, j, j - 4);
    SurvivedFailure(k, env, may, j, j - 3);
    if FailsIn(env, j - 2) {
      SurvivedFailure(k, env, may, j, j - 2);
    } else {
      SurvivedFailure(k, env, may, j, j - 1);
    }
  }

  lemma StagnationNeedsRoom(r: Run, entry: LoopVars, env: nat -> Turn, limits: Limits, may: nat -> bool, j: nat)
    requires Call(r, entry, env, limits) && RejectsOnly(env, may) && StagnatesAt(r, env, limits, j)
    ensures Room(entry.loopCount, limits, may, j) && entry.tokens < limits.maxTokens
  {
    StagnatingFails(r, entry, env, limits, j);
    HeadAt(r, entry, env, limits, j);
    SurvivedAt(r, entry, env, limits, j);
    FailureNeedsRoom(entry.loopCount, env, may, limits, j);
    TokensGrow(r, entry, env, limits, j);
  }

  lemma {:induction false} TokensGrow(r: Run, entry: LoopVars, env: nat -> Turn, limits: Limits, j: nat)
    requires Call(r, entry, env, limits) && j < |r.before|
    ensures r.before[j].tokens >= entry.tokens
  {
    if j > 0 {
      TokensGrow(r, entry, env, limits, j - 1);
      CallAdds(r, entry, env, limits, j);
    }
  }

  // ---------- A call that stagnates ----------

  /** The last ten hashes hold none eight times. */
  ghost predicate HashesVary(env: nat -> Turn, j: nat) {
    forall s: LoopState | Mirrors(s, env, j) :: CheckLoops(Standard, Record(s, RecordOf(env(j).step))) == None
  }

  lemma FailingFiveStagnates(r: Run, entry: LoopVars, env: nat -> Turn, limits: Limits, j: nat)
    requires Call(r, entry, env, limits) && entry.tokens < limits.maxTokens && entry.loopCount + j < limits.maxLoops
    requires FailingFive(env, j) && HashesVary(env, j) && j + 1 < Standard.maxIterations
    requires BenignUntil(entry.loopCount, env, j) && !env(j).cancelled && env(j).tokens == 0 && env(j).elapsed <= 3600
    ensures StagnatesAt(r, env, limits, j)
  {
    BenignReaches(r, entry, env, limits, j);
    NoTokensAt(r, entry, env, limits, j);
    StagnatingState(r, entry, env, limits, j);
    MirrorsAt(r, entry, env, limits, j);
    ErrorsInFive(env, j);
    StagnationDecides(Record(r.before[j].course.stab, RecordOf(env(j).step)), Confidence(env(j).verdict), env(j).elapsed);
  }

  function Failing(v: Verdict): Turn {
    Turn(false, Errored("error"), 0, 0, v, 0, 0, false, 0, 0, false)
  }

  /** Four failures up to turn `j` among successes that all differ. */
  predicate Stumbles(j: nat, late: bool, n: nat) {
    n + 4 == j || n + 3 == j || n == j || n + (if late then 1 else 2) == j
  }

  function Stumbling(j: nat, late: bool, may: nat -> bool): nat -> Turn {
    (n: nat) => if Stumbles(j, late, n) then Failing(if may(n) then Rejected else NoLoop) else Quiet(n)
  }

  lemma QuietStep(n: nat)
    ensures !Fails(Quiet(n).step) && !Achieves(Quiet(n).step) && !Waits(Quiet(n).step)
    ensures ProgressOf(Quiet(n).step) == 1 && HashOf(Quiet(n).step) == StepHash("think", n)
    ensures DigestOf(Quiet(n).step) == Digest(n, n)
  {
    var s := Quiet(n).step;
    assert Get(s, KGoalAchieved) == Some(Flag(false)) && Get(s, KWaitingApproval) == None && Get(s, KError) == None;
  }

  lemma FailingStep(v: Verdict)
    ensures Fails(Failing(v).step) && !Achieves(Failing(v).step) && !Waits(Failing(v).step)
    ensures ProgressOf(Failing(v).step) == 0 && DigestOf(Failing(v).step) == Digest(0, 0)
  {
  }

  lemma StumblingTurn(may: nat -> bool, j: nat, late: bool, n: nat)
    ensures var env := Stumbling(j, late, may);
            && (FailsIn(env, n) <==> Stumbles(j, late, n)) && ProgressIn(env, n) == (if FailsIn(env, n) then 0 else 1)
            && env(n).verdict == (if FailsIn(env, n) && may(n) then Rejected else NoLoop)
            && (!FailsIn(env, n) ==> HashOf(env(n).step) == StepHash("think", n))
            && !Achieves(env(n).step) && !Waits(env(n).step)
            && env(n) == (if FailsIn(env, n) then Failing(env(n).verdict) else Quiet(n))
  {
    QuietStep(n);
    FailingStep(NoLoop);
    FailingStep(Rejected);
  }

  lemma StumblingIsBenign(k: nat, limits: Limits, may: nat -> bool, j: nat, late: bool)
    requires Room(k, limits, may, j) && MayFail(k, may, if late then j - 1 else j - 2)
    ensures BenignUntil(k, Stumbling(j, late, may), j) && RejectsOnly(Stumbling(j, late, may), may)
  {
    var env := Stumbling(j, late, may);
    forall n: nat | n < j ensures Benign(k, env(n), n) {
      StumblingTurn(may, j, late, n);
      if Stumbles(j, late, n) { assert MayFail(k, may, n); }
    }
    forall n: nat | FailsIn(env, n) && env(n).verdict == Rejected ensures may(n) { StumblingTurn(may, j, late, n); }
  }

  lemma StumblingFails(may: nat -> bool, j: nat, late: bool)
    requires j >= 4
    ensures FailingFive(Stumbling(j, late, may), j)
  {
    StumblingTurn(may, j, late, j - 4);
    StumblingTurn(may, j, late, j - 3);
    StumblingTurn(may, j, late, j - 2);
    StumblingTurn(may, j, late, j - 1);
    StumblingTurn(may, j, late, j);
  }

  // ---------- Their hashes vary ----------

  lemma {:induction false} DistinctCount<T>(s: seq<T>, x: T)
    requires Distinct(s)
    ensures multiset(s)[x] <= 1
  {
    if s != [] {
      var front, last := s[..|s| - 1], s[|s| - 1];
      assert s == front + [last];
      DistinctCount(front, x);
      if x == last { assert x !in front; }
    }
  }

  /** A list whose all but the last five elements are distinct holds nothing more than six times. */
  lemma MostlyDistinctCount<T>(s: seq<T>, x: T)
    requires |s| >= 5 && Distinct(s[..|s| - 5])
    ensures multiset(s)[x] <= 6
  {
    var a, b := s[..|s| - 5], s[|s| - 5..];
    assert s == a + b;
    DistinctCount(a, x);
    assert multiset(b)[x] <= |multiset(b)|;
  }

  lemma StumblingHashes(may: nat -> bool, j: nat, late: bool, hashes: seq<StepHash>)
    requires |hashes| == j + 1 && forall n: nat | n <= j :: hashes[n] == HashOf(Stumbling(j, late, may)(n).step)
    ensures forall n: nat | n + 4 < j :: hashes[n] == StepHash("think", n)
  {
    forall n: nat | n + 4 < j ensures hashes[n] == StepHash("think", n) { StumblingTurn(may, j, late, n); }
  }

  lemma NothingEightTimes(hashes: seq<StepHash>, h: StepHash)
    requires forall n: nat | n + 5 < |hashes| :: hashes[n] == StepHash("think", n)
    ensures multiset(LastN(hashes, 10))[h] < 8
  {
    var recent := LastN(hashes, 10);
    var from := |hashes| - |recent|;
    if |recent| >= 5 {
      var front := recent[..|recent| - 5];
      forall n: nat | n < |front| ensures front[n] == StepHash("think", from + n) { assert front[n] == hashes[from + n]; }
      MostlyDistinctCount(recent, h);
    } else {
      assert multiset(recent)[h] <= |multiset(recent)|;
    }
  }

  lemma StumblingVaries(may: nat -> bool, j: nat, late: bool)
    requires j >= 4
    ensures HashesVary(Stumbling(j, late, may), j)
  {
    var env := Stumbling(j, late, may);
    forall s: LoopState | Mirrors(s, env, j) ensures CheckLoops(Standard, Record(s, RecordOf(env(j).step))) == None {
      var hashes := s.stepHashes + [HashOf(env(j).step)];
      StumblingHashes(may, j, late, hashes);
      forall h ensures multiset(LastN(hashes, 10))[h] < 8 { NothingEightTimes(hashes, h); }
    }
  }

  // ---------- The condition ----------

  /** Some call whose failed turns are rejected only where `may` allows it is told that it stagnates. */
  ghost predicate CanStagnate(entry: LoopVars, limits: Limits, may: nat -> bool) {
    exists env: nat -> Turn, j: nat ::
      RejectsOnly(env, may) && StagnatesAt(RunFrom(entry, env, 0, limits), env, limits, j)
  }

  lemma StumblingStagnates(entry: LoopVars, limits: Limits, may: nat -> bool, j: nat, late: bool)
    requires IsEntry(entry) && entry.tokens < limits.maxTokens && Room(entry.loopCount, limits, may, j)
    requires MayFail(entry.loopCount, may, if late then j - 1 else j - 2)
    ensures RejectsOnly(Stumbling(j, late, may), may)
    ensures StagnatesAt(RunFrom(entry, Stumbling(j, late, may), 0, limits), Stumbling(j, late, may), limits, j)
  {
    var env := Stumbling(j, late, may);
    StumblingIsBenign(entry.loopCount, limits, may, j, late);
    StumblingFails(may, j, late);
    StumblingVaries(may, j, late);
    RunIsACall(entry, env, limits);
    StumblingTurn(may, j, late, j);
    FailingFiveStagnates(RunFrom(entry, env, 0, limits), entry, env, limits, j);
  }

  /** A call can be told that it stagnates exactly if its limits leave room for some turn `j` before which the verifier
      may reject failures: in turns `j - 4` and `j - 3` and in one of the two that follow, where a failure does not
      come within the first two loops. */
  lemma CanStagnateIff(entry: LoopVars, limits: Limits, may: nat -> bool)
    requires IsEntry(entry)
    ensures CanStagnate(entry, limits, may)
            <==> entry.tokens < limits.maxTokens && exists j: nat :: Room(entry.loopCount, limits, may, j)
  {
    if CanStagnate(entry, limits, may) {
      var env: nat -> Turn, j: nat :| RejectsOnly(env, may) && StagnatesAt(RunFrom(entry, env, 0, limits), env, limits, j);
      RunIsACall(entry, env, limits);
      StagnationNeedsRoom(RunFrom(entry, env, 0, limits), entry, env, limits, may, j);
    }
    if j: nat :| entry.tokens < limits.maxTokens && Room(entry.loopCount, limits, may, j) {
      StumblingStagnates(entry, limits, may, j, MayFail(entry.loopCount, may, j - 1));
    }
  }

  // ---------- Without rejections ----------

  /** While the verifier rejects no failed step, no step sees more than three errors in a row, and stagnation is never
      found. */
  lemma ErrorsAndStagnation(entry: LoopVars, env: nat -> Turn, limits: Limits, j: nat)
    requires IsEntry(entry) && forall n: nat | FailsIn(env, n) :: env(n).verdict != Rejected
    requires j < |RunFrom(entry, env, 0, limits).before|
    ensures var s := Record(RunFrom(entry, env, 0, limits).before[j].course.stab, RecordOf(env(j).step));
            s.consecutiveErrors <= 3 && CheckStagnation(Standard, s) == None
  {
    var r := RunFrom(entry, env, 0, limits);
    RunIsACall(entry, env, limits);
    SurvivedAt(r, entry, env, limits, j);
    StagnatingState(r, entry, env, limits, j);
    FewErrors(entry.loopCount, env, j);
  }

  lemma FewErrors(k: nat, env: nat -> Turn, j: nat)
    requires AllSurvive(k, env, j) && forall n: nat | FailsIn(env, n) :: env(n).verdict != Rejected
    ensures Trailing(env, j + 1) <= 3 && (j >= 4 ==> LastFive(env, j) >= 2)
  {
    forall n: nat | n < j && FailsIn(env, n) ensures n < 2 { assert Survives(k, env(n), n); }
    assert Trailing(env, j + 1) == if FailsIn(env, j) then Trailing(env, j) + 1 else 0;
    if j > 2 {
      assert !FailsIn(env, j - 1);
      assert Trailing(env, j) == 0;
    }
  }
}
