/** Calls whose errors repeat, judged by the verifier as it is: all errors look the same to it, so it rejects the third. */
module RepeatedErrors {
  import opened Prelude
  import opened LoopStabilizer
  import opened StepResults
  import opened Verifier
  import opened RunLoop
  import opened RunTrace
  import opened RunLoopTheorems
  import opened Stagnation

  /** What errors, responses and waits are compared by. */
  const Blank := Digest(0, 0)

  lemma ErrorsLookAlike(r: StepResult)
    requires !r.Performed?
    ensures DigestOf(r) == Blank
  {
  }

  predicate BlankIn(env: nat -> Turn, n: nat) {
    DigestOf(env(n).step) == Blank
  }

  /** Of steps that look the same, only the first two are noted. */
  function Blanks(n: nat): seq<Digest> {
    if n == 0 then [] else if n == 1 then [Blank] else [Blank, Blank]
  }

  lemma JudgeBlank(n: nat)
    ensures Judge(Blanks(n), Blank) == if n < 2 then NoLoop else Rejected
    ensures Noted(Blanks(n), Blank) == Blanks(n + 1)
  {
    assert multiset(Blanks(n))[Blank] == Min(n, 2);
  }

  lemma {:induction false} SeenBlanks(env: nat -> Turn, n: nat)
    requires forall m: nat | m < n :: BlankIn(env, m)
    ensures Seen(env, n) == Blanks(n)
  {
    if n > 0 {
      SeenBlanks(env, n - 1);
      assert BlankIn(env, n - 1);
      JudgeBlank(n - 1);
    }
  }

  /** The first two turns of a call are never rejected. */
  predicate AfterTwo(n: nat) {
    n >= 2
  }

  lemma FewNoLoop(seen: seq<Digest>, d: Digest)
    requires |seen| < 2
    ensures Judge(seen, d) == NoLoop && |Noted(seen, d)| == |seen| + 1
  {
    assert LastN(seen, 10) == seen;
    assert multiset(seen)[d] <= |multiset(seen)|;
  }

  lemma OnlyLaterRejected(env: nat -> Turn)
    ensures RejectsOnly(Checked(env), AfterTwo)
  {
    FewNoLoop([], DigestOf(env(0).step));
    assert Seen(env, 1) == Noted([], DigestOf(env(0).step));
    FewNoLoop(Seen(env, 1), DigestOf(env(1).step));
    assert Checked(env)(0).verdict == NoLoop && Checked(env)(1).verdict == NoLoop;
    forall n: nat | FailsIn(Checked(env), n) && Checked(env)(n).verdict == Rejected ensures AfterTwo(n) {
      assert n != 0 && n != 1;
    }
  }

  // ---------- When a call can really stagnate ----------

  function Responding(): Turn {
    Turn(false, Responded("", false), 0, 0, NoLoop, 0, 0, false, 0, 0, false)
  }

  /** Two blank steps, then failures but for one success; in a call that begins anew the two are failures too. */
  function Faltering(anew: bool): nat -> Turn {
    (n: nat) => if n == (if anew then 2 else 4) then Quiet(n)
                else if !anew && n < 2 then Responding()
                else Failing(NoLoop)
  }

  /** The turn of the success. */
  function Pause(anew: bool): nat {
    if anew then 2 else 4
  }

  lemma FalteringTurn(anew: bool, n: nat)
    ensures var env := Checked(Faltering(anew));
            && (FailsIn(env, n) <==> n != Pause(anew) && (anew || n >= 2))
            && ProgressIn(env, n) == (if FailsIn(env, n) then 0 else 1)
            && !Achieves(env(n).step) && !Waits(env(n).step)
            && (BlankIn(env, n) <==> n != Pause(anew)) && Untroubled(env(n))
  {
    QuietStep(n);
    FailingStep(NoLoop);
    var s := Responding().step;
    assert Get(s, KGoalAchieved) == Some(Flag(false)) && Get(s, KWaitingApproval) == None && Get(s, KError) == None;
  }

  lemma JudgeAfterPause(d: Digest)
    requires d != Blank
    ensures Judge(Blanks(2), d) == NoLoop && Judge(Noted(Blanks(2), d), Blank) == Rejected
  {
    assert multiset(Blanks(2))[d] == 0;
    assert Noted(Blanks(2), d) == [Blank, Blank, d];
    assert multiset([Blank, Blank, d])[Blank] == 2;
  }

  lemma SeenBeforePause(anew: bool, n: nat)
    requires n <= Pause(anew)
    ensures Seen(Faltering(anew), n) == Blanks(n)
  {
    forall m: nat | m < n ensures BlankIn(Faltering(anew), m) { FalteringTurn(anew, m); }
    SeenBlanks(Faltering(anew), n);
  }

  lemma VerdictBeforePause(anew: bool, n: nat)
    requires n < Pause(anew)
    ensures Checked(Faltering(anew))(n).verdict == if n < 2 then NoLoop else Rejected
  {
    SeenBeforePause(anew, n);
    FalteringTurn(anew, n);
    JudgeBlank(n);
  }

  lemma VerdictsAtPause(anew: bool)
    ensures Checked(Faltering(anew))(Pause(anew)).verdict == NoLoop
    ensures Checked(Faltering(anew))(Pause(anew) + 1).verdict == Rejected
  {
    var env, p := Faltering(anew), Pause(anew);
    SeenBeforePause(anew, p);
    FalteringTurn(anew, p);
    FalteringTurn(anew, p + 1);
    JudgeAfterPause(DigestOf(env(p).step));
    assert Seen(env, p + 1) == Noted(Blanks(2), DigestOf(env(p).step));
  }

  lemma FalteringVerdict(anew: bool, n: nat)
    requires n < Pause(anew) + 2
    ensures Checked(Faltering(anew))(n).verdict == if n < 2 || n == Pause(anew) then NoLoop else Rejected
  {
    if n < Pause(anew) { VerdictBeforePause(anew, n); } else { VerdictsAtPause(anew); }
  }

  lemma FalteringIsBenign(k: nat, anew: bool, n: nat)
    requires n < Pause(anew) + 2 && (anew ==> k == 0)
    ensures Benign(k, Checked(Faltering(anew))(n), n)
  {
    FalteringTurn(anew, n);
    FalteringVerdict(anew, n);
    RejectedOrEarly(k, Checked(Faltering(anew)), n);
  }

  lemma RejectedOrEarly(k: nat, env: nat -> Turn, n: nat)
    requires Untroubled(env(n)) && !Achieves(env(n).step) && !Waits(env(n).step) && env(n).verdict != LoopFound
    requires FailsIn(env, n) && env(n).verdict == NoLoop ==> k + n < 2
    ensures Benign(k, env(n), n)
  {
  }

  lemma FalteringUntil(k: nat, anew: bool)
    requires anew ==> k == 0
    ensures BenignUntil(k, Checked(Faltering(anew)), Pause(anew) + 2)
  {
    var env := Checked(Faltering(anew));
    forall n: nat | n < Pause(anew) + 2 ensures Benign(k, env(n), n) { FalteringIsBenign(k, anew, n); }
  }

  lemma FalteringStagnates(entry: LoopVars, limits: Limits, anew: bool)
    requires IsEntry(entry) && entry.tokens < limits.maxTokens && (anew ==> entry.loopCount == 0)
    requires entry.loopCount + Pause(anew) + 2 < limits.maxLoops
    ensures var env := Checked(Faltering(anew));
            StagnatesAt(RunFrom(entry, env, 0, limits), env, limits, Pause(anew) + 2)
  {
    var env, j := Checked(Faltering(anew)), Pause(anew) + 2;
    FalteringUntil(entry.loopCount, anew);
    FalteringTurn(anew, j);
    FalteringFails(anew);
    RunIsACall(entry, env, limits);
    FailingFiveStagnates(RunFrom(entry, env, 0, limits), entry, env, limits, j);
  }

  lemma FalteringFails(anew: bool)
    ensures FailingFive(Checked(Faltering(anew)), Pause(anew) + 2) && HashesVary(Checked(Faltering(anew)), Pause(anew) + 2)
  {
    var j := Pause(anew) + 2;
    FalteringTurn(anew, j - 4);
    FalteringTurn(anew, j - 3);
    FalteringTurn(anew, j - 2);
    FalteringTurn(anew, j - 1);
    FalteringTurn(anew, j);
  }

  /** Some call is told that it stagnates, the verdicts being the verifier's own. */
  ghost predicate CanReallyStagnate(entry: LoopVars, limits: Limits) {
    exists env: nat -> Turn, j: nat :: StagnatesAt(RunFrom(entry, Checked(env), 0, limits), Checked(env), limits, j)
  }

  lemma RealStagnationTakes(entry: LoopVars, env: nat -> Turn, limits: Limits, j: nat)
    requires IsEntry(entry) && StagnatesAt(RunFrom(entry, Checked(env), 0, limits), Checked(env), limits, j)
    ensures entry.tokens < limits.maxTokens
    ensures limits.maxLoops >= entry.loopCount + if entry.loopCount == 0 then 5 else 7
  {
    RunIsACall(entry, Checked(env), limits);
    OnlyLaterRejected(env);
    StagnationNeedsRoom(RunFrom(entry, Checked(env), 0, limits), entry, Checked(env), limits, AfterTwo, j);
  }

  /** That can happen exactly if the loop limit leaves five steps to a call that begins at zero, and seven to one that
      is resumed later. */
  lemma CanReallyStagnateIff(entry: LoopVars, limits: Limits)
    requires IsEntry(entry)
    ensures CanReallyStagnate(entry, limits)
            <==> entry.tokens < limits.maxTokens
                 && limits.maxLoops >= entry.loopCount + if entry.loopCount == 0 then 5 else 7
  {
    if CanReallyStagnate(entry, limits) {
      var env: nat -> Turn, j: nat :| StagnatesAt(RunFrom(entry, Checked(env), 0, limits), Checked(env), limits, j);
      RealStagnationTakes(entry, env, limits, j);
    }
    var anew := entry.loopCount == 0;
    if entry.tokens < limits.maxTokens && limits.maxLoops >= entry.loopCount + if anew then 5 else 7 {
      FalteringStagnates(entry, limits, anew);
    }
  }
}
