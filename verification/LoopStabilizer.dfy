/** The loop stabiliser: eight checks of the run so far, the most severe of which decides. Progress is counted in
    twentieths, confidence in percent, time in seconds. */
module LoopStabilizer {
  import opened Prelude

  datatype Status = Stable | Warning | Unstable | Critical

  datatype Action = Continue | SlowDown | Replan | Rollback | Escalate | Abort

  datatype Report = Report(status: Status, action: Action)

  datatype Config = Config(maxIterations: nat, maxConsecutiveErrors: nat, maxPlanRevisions: nat, stagnationWindow: nat,
                           minProgress: int, confidenceThreshold: int, oscillationWindow: nat, maxSimilarSteps: nat)

  /** The defaults, with the global limit of 250 loop iterations. */
  const Standard := Config(250, 3, 5, 5, 2, 60, 6, 8)

  /** What a step is hashed by: its action and its input. */
  datatype StepHash = StepHash(action: string, input: int)

  /** What the loop records of one step. */
  datatype StepRecord = StepRecord(hash: StepHash, success: bool, progress: int)

  datatype CheckpointId = CheckpointId(iteration: nat, time: int)

  datatype LoopState = LoopState(iteration: nat, consecutiveErrors: nat, planRevisions: nat, progressHistory: seq<int>,
                                 stepHashes: seq<StepHash>, actionSequence: seq<string>,
                                 lastCheckpoint: Option<CheckpointId>, lastCheckpointIteration: nat)

  const Initial := LoopState(0, 0, 0, [], [], [], None, 0)

  function Record(s: LoopState, r: StepRecord): LoopState {
    s.(iteration := s.iteration + 1,
       consecutiveErrors := if r.success then 0 else s.consecutiveErrors + 1,
       progressHistory := s.progressHistory + [r.progress],
       stepHashes := s.stepHashes + [r.hash],
       actionSequence := s.actionSequence + [r.hash.action])
  }

  // ---------- The eight checks ----------

  function LastN<T>(s: seq<T>, n: nat): seq<T> {
    if |s| <= n then s else s[|s| - n..]
  }

  function Sum(s: seq<int>): int {
    if s == [] then 0 else Sum(s[..|s| - 1]) + s[|s| - 1]
  }

  function CheckMaxIterations(c: Config, s: LoopState): Option<Report> {
    if s.iteration >= c.maxIterations then Some(Report(Critical, Abort))
    else if 10 * s.iteration >= 8 * c.maxIterations then Some(Report(Warning, SlowDown))
    else None
  }

  function CheckConsecutiveErrors(c: Config, s: LoopState): Option<Report> {
    if s.consecutiveErrors >= c.maxConsecutiveErrors then Some(Report(Critical, Rollback))
    else if s.consecutiveErrors >= 2 then Some(Report(Warning, Replan))
    else None
  }

  function CheckPlanRevisions(c: Config, s: LoopState): Option<Report> {
    if s.planRevisions >= c.maxPlanRevisions then Some(Report(Critical, Escalate)) else None
  }

  function CheckStagnation(c: Config, s: LoopState): Option<Report> {
    if |s.progressHistory| >= c.stagnationWindow && Sum(LastN(s.progressHistory, c.stagnationWindow)) < c.minProgress
    then Some(Report(Unstable, Replan)) else None
  }

  function CheckOscillation(c: Config, s: LoopState): Option<Report> {
    var w, half := c.oscillationWindow, c.oscillationWindow / 2;
    if |s.actionSequence| < w || w < 4 then None
    else
      var recent := LastN(s.actionSequence, w);
      if recent[..half] == recent[half..2 * half] then Some(Report(Unstable, Replan)) else None
  }

  function CheckLoops(c: Config, s: LoopState): Option<Report> {
    var recent := LastN(s.stepHashes, 10);
    if |s.stepHashes| >= c.maxSimilarSteps && exists h :: h in recent && multiset(recent)[h] >= c.maxSimilarSteps
    then Some(Report(Critical, Rollback)) else None
  }

  function CheckConfidence(c: Config, confidence: int): Option<Report> {
    if confidence < c.confidenceThreshold then Some(Report(Warning, SlowDown)) else None
  }

  function CheckTimeout(elapsed: int): Option<Report> {
    if elapsed > 3600 then Some(Report(Critical, Abort))
    else if elapsed > 2880 then Some(Report(Warning, SlowDown))
    else None
  }

  function Checks(c: Config, s: LoopState, confidence: int, elapsed: int): seq<Option<Report>> {
    [CheckMaxIterations(c, s), CheckConsecutiveErrors(c, s), CheckPlanRevisions(c, s), CheckStagnation(c, s),
     CheckOscillation(c, s), CheckLoops(c, s), CheckConfidence(c, confidence), CheckTimeout(elapsed)]
  }

  // ---------- The most severe check decides ----------

  function Severity(s: Status): nat {
    match s case Stable => 0 case Warning => 1 case Unstable => 2 case Critical => 3
  }

  function SeverityOf(check: Option<Report>): nat {
    if check.Some? then Severity(check.value.status) else 0
  }

  /** `r` is the first check of highest severity, or Stable when every check passes. */
  ghost predicate FirstWorst(checks: seq<Option<Report>>, r: Report) {
    && (forall i | 0 <= i < |checks| :: SeverityOf(checks[i]) <= Severity(r.status))
    && (r == Report(Stable, Continue)
        || exists i :: 0 <= i < |checks| && checks[i] == Some(r)
                       && forall j | 0 <= j < i :: SeverityOf(checks[j]) < Severity(r.status))
  }

  /** At most one report is the first worst one, for checks that never report Stable. */
  lemma FirstWorstIsUnique(checks: seq<Option<Report>>, r: Report, q: Report)
    requires forall i | 0 <= i < |checks| && checks[i].Some? :: checks[i].value.status != Stable
    requires FirstWorst(checks, r) && FirstWorst(checks, q)
    ensures r == q
  {
    if r != Report(Stable, Continue) && q != Report(Stable, Continue) {
      var i :| 0 <= i < |checks| && checks[i] == Some(r) && forall j | 0 <= j < i :: SeverityOf(checks[j]) < Severity(r.status);
      var k :| 0 <= k < |checks| && checks[k] == Some(q) && forall j | 0 <= j < k :: SeverityOf(checks[j]) < Severity(q.status);
      assert SeverityOf(checks[i]) <= Severity(q.status) && SeverityOf(checks[k]) <= Severity(r.status);
    }
  }

  lemma FirstWorstSnoc(front: seq<Option<Report>>, last: Option<Report>, r: Report)
    requires FirstWorst(front, r)
    ensures FirstWorst(front + [last], if SeverityOf(last) > Severity(r.status) then last.value else r)
  {
    var checks := front + [last];
    if SeverityOf(last) > Severity(r.status) {
      assert checks[|front|] == Some(last.value);
    } else if r != Report(Stable, Continue) {
      var i :| 0 <= i < |front| && front[i] == Some(r) && forall j | 0 <= j < i :: SeverityOf(front[j]) < Severity(r.status);
      assert checks[i] == Some(r);
    }
  }

  function WorstOf(checks: seq<Option<Report>>): (r: Report)
    ensures FirstWorst(checks, r)
  {
    if checks == [] then Report(Stable, Continue)
    else
      var front, last := WorstOf(checks[..|checks| - 1]), checks[|checks| - 1];
      FirstWorstSnoc(checks[..|checks| - 1], last, front);
      assert checks == checks[..|checks| - 1] + [last];
      if SeverityOf(last) > Severity(front.status) then last.value else front
  }

  /** `_check_stability`, as the report's status and action. */
  function Assess(c: Config, s: LoopState, confidence: int, elapsed: int): Report {
    WorstOf(Checks(c, s, confidence, elapsed))
  }

  /** ABORT comes from the iteration limit or the time limit only. */
  lemma AbortIsALimit(c: Config, s: LoopState, confidence: int, elapsed: int)
    requires Assess(c, s, confidence, elapsed).action == Abort
    ensures s.iteration >= c.maxIterations || elapsed > 3600
  {
    var checks := Checks(c, s, confidence, elapsed);
    var r := WorstOf(checks);
    var i :| 0 <= i < |checks| && checks[i] == Some(r);
    assert i == 0 || i == 7;
  }

  /** The iteration limit aborts whatever the other checks say: it comes first, and nothing is more severe. */
  lemma LimitAborts(c: Config, s: LoopState, confidence: int, elapsed: int)
    requires s.iteration >= c.maxIterations
    ensures Assess(c, s, confidence, elapsed) == Report(Critical, Abort)
  {
    var checks := Checks(c, s, confidence, elapsed);
    var r := WorstOf(checks);
    assert checks[0] == Some(Report(Critical, Abort));
    assert SeverityOf(checks[0]) <= Severity(r.status);
  }

  /** Escalation happens only after enough recorded plan revisions, and not even then if the error limit, checked
      first, is reached too. */
  lemma EscalationNeedsRevisions(c: Config, s: LoopState, confidence: int, elapsed: int)
    requires Assess(c, s, confidence, elapsed).action == Escalate
    ensures s.planRevisions >= c.maxPlanRevisions && s.consecutiveErrors < c.maxConsecutiveErrors
  {
    var checks := Checks(c, s, confidence, elapsed);
    var r := WorstOf(checks);
    var i :| 0 <= i < |checks| && checks[i] == Some(r) && forall j | 0 <= j < i :: SeverityOf(checks[j]) < Severity(r.status);
    assert i == 2;
    assert SeverityOf(checks[1]) < 3;
  }

  // ---------- Stagnation ----------

  lemma SumOfFive(w: seq<int>)
    requires |w| == 5
    ensures Sum(w) == w[0] + w[1] + w[2] + w[3] + w[4]
  {
    var w4, w3, w2, w1 := w[..4], w[..3], w[..2], w[..1];
    assert w4[..3] == w3 && w3[..2] == w2 && w2[..1] == w1 && w1[..0] == [];
    assert Sum(w1) == w[0];
    assert Sum(w2) == Sum(w1) + w[1];
    assert Sum(w3) == Sum(w2) + w[2];
    assert Sum(w4) == Sum(w3) + w[3];
  }

  // ---------- Oscillation ----------

  /** The oscillation window of six compares two halves of three, so steady alternation is not seen ... */
  lemma AlternationIsNotSeen(s: LoopState, a: string, b: string)
    requires a != b && LastN(s.actionSequence, 6) == [a, b, a, b, a, b]
    ensures CheckOscillation(Standard, s) == None
  {
    var recent := [a, b, a, b, a, b];
    assert recent[..3][1] == b && recent[3..6][1] == a;
  }

  /** ... while it is reported exactly when the last six actions repeat with period three. */
  lemma PeriodThreeIsSeen(s: LoopState)
    requires |s.actionSequence| >= 6
    ensures var r := LastN(s.actionSequence, 6);
            CheckOscillation(Standard, s) == Some(Report(Unstable, Replan))
            <==> r[0] == r[3] && r[1] == r[4] && r[2] == r[5]
  {
    var r := LastN(s.actionSequence, 6);
    assert r[..3] == r[3..6] <==> r[0] == r[3] && r[1] == r[4] && r[2] == r[5] by {
      assert r[..3][0] == r[0] && r[..3][1] == r[1] && r[..3][2] == r[2];
      assert r[3..6][0] == r[3] && r[3..6][1] == r[4] && r[3..6][2] == r[5];
    }
  }

  // ---------- Checkpoints and the stabiliser object ----------

  datatype Checkpoint = Checkpoint(iteration: nat, context: int, history: seq<int>, plan: int)

  /** Every fifth step, or after progress of more than a fifth. */
  predicate ShouldCheckpoint(s: LoopState) {
    s.iteration - s.lastCheckpointIteration >= 5
    || (s.progressHistory != [] && s.progressHistory[|s.progressHistory| - 1] > 4)
  }

  class Stabilizer {
    const config: Config
    var state: LoopState
    var checkpoints: map<CheckpointId, Checkpoint>

    constructor (config: Config)
      ensures this.config == config && state == Initial && checkpoints == map[]
    {
      this.config, state, checkpoints := config, Initial, map[];
    }

    method RecordStep(step: StepRecord, confidence: int, elapsed: int) returns (r: Report)
      modifies this`state
      ensures state == Record(old(state), step) && r == Assess(config, state, confidence, elapsed)
    {
      state := Record(state, step);
      r := CheckStability(confidence, elapsed);
    }

    method CheckStability(confidence: int, elapsed: int) returns (worst: Report)
      ensures worst == Assess(config, state, confidence, elapsed)
    {
      var checks := Checks(config, state, confidence, elapsed);
      worst := Report(Stable, Continue);
      for i := 0 to |checks|
        invariant worst == WorstOf(checks[..i])
      {
        assert checks[..i + 1][..i] == checks[..i];
        if checks[i].Some? && Severity(checks[i].value.status) > Severity(worst.status) {
          worst := checks[i].value;
        }
      }
      assert checks[..|checks|] == checks;
    }

    method CreateCheckpoint(context: int, history: seq<int>, plan: int, time: int)
      modifies this`state, this`checkpoints
      ensures var id := CheckpointId(old(state).iteration, time);
              && state == old(state).(lastCheckpoint := Some(id), lastCheckpointIteration := old(state).iteration)
              && checkpoints == old(checkpoints)[id := Checkpoint(old(state).iteration, context, history, plan)]
    {
      var id := CheckpointId(state.iteration, time);
      checkpoints := checkpoints[id := Checkpoint(state.iteration, context, history, plan)];
      state := state.(lastCheckpoint := Some(id), lastCheckpointIteration := state.iteration);
    }

    function LatestCheckpoint(): Option<Checkpoint>
      reads this
    {
      Latest(state, checkpoints)
    }
  }

  function Latest(s: LoopState, checkpoints: map<CheckpointId, Checkpoint>): Option<Checkpoint> {
    if s.lastCheckpoint.Some? && s.lastCheckpoint.value in checkpoints then Some(checkpoints[s.lastCheckpoint.value]) else None
  }
}
