/** What `_execute_step` returns, key by key, and what the loop keeps of it. */
module StepResults {
  import opened Prelude
  import opened LoopStabilizer

  /** The keys that are read from a step's result. */
  datatype ResultKey = KError | KAction | KStepType | KToolName | KToolInput | KReasoning | KResult | KGoalAchieved
                     | KResponse | KWaitingApproval | KStepId

  /** A dictionary is known by its digest, 0 for the empty one, and by whether it says `success`. */
  datatype Value = Text(text: string) | Flag(on: bool) | Dict(digest: int, success: bool)

  /** The four shapes of a result: an error, a wait for approval, a response, and an action carried out. */
  datatype StepResult =
    | Errored(message: string)
    | Waiting(stepId: string)
    | Responded(response: string, goalAchieved: bool)
    | Performed(action: string, toolName: string, input: int, output: int, success: bool, goalAchieved: bool)

  /** Python's `result.get(key)`. */
  function Get(r: StepResult, k: ResultKey): Option<Value> {
    match r
    case Errored(message) => if k == KError then Some(Text(message)) else None
    case Waiting(id) => if k == KWaitingApproval then Some(Flag(true)) else if k == KStepId then Some(Text(id)) else None
    case Responded(response, goal) =>
      if k == KResponse then Some(Text(response)) else if k == KGoalAchieved then Some(Flag(goal)) else None
    case Performed(action, toolName, input, output, success, goal) =>
      match k
      case KAction => Some(Text(action))
      case KToolName => Some(Text(toolName))
      case KToolInput => Some(Dict(input, false))
      case KReasoning => Some(Text(""))
      case KResult => Some(Dict(output, success))
      case KGoalAchieved => Some(Flag(goal))
      case _ => None
  }

  function TextAt(r: StepResult, k: ResultKey, default: string): string {
    match Get(r, k) case Some(Text(s)) => s case _ => default
  }

  function DigestAt(r: StepResult, k: ResultKey): int {
    match Get(r, k) case Some(Dict(d, _)) => d case _ => 0
  }

  predicate FlagAt(r: StepResult, k: ResultKey) {
    Get(r, k) == Some(Flag(true))
  }

  /** An error without a message is falsy, and counts as none. */
  predicate Fails(r: StepResult) { TextAt(r, KError, "") != "" }

  predicate Achieves(r: StepResult) { FlagAt(r, KGoalAchieved) }

  predicate Waits(r: StepResult) { FlagAt(r, KWaitingApproval) }

  function HashOf(r: StepResult): StepHash {
    StepHash(TextAt(r, KAction, "unknown"), DigestAt(r, KToolInput))
  }

  /** In twentieths. */
  function ProgressOf(r: StepResult): int {
    if Achieves(r) then 20 else if Fails(r) then 0 else 1
  }

  function RecordOf(r: StepResult): StepRecord {
    StepRecord(HashOf(r), !Fails(r), ProgressOf(r))
  }

  // ---------- What is kept for a recovery ----------

  datatype KeptStep = KeptStep(action: string, toolName: string, goalAchieved: bool, result: Option<Value>, response: string)

  /** The action is read under `step_type`. */
  function Keep(r: StepResult): KeptStep {
    KeptStep(TextAt(r, KStepType, "unknown"), TextAt(r, KToolName, "?"), Achieves(r), Get(r, KResult), TextAt(r, KResponse, ""))
  }

  predicate IsDeliverable(s: KeptStep) {
    && s.action == "tool_call" && s.toolName == "finalize_audio_podcast"
    && s.result.Some? && s.result.value.Dict? && s.result.value.success
  }

  /** `_synthesize_recovery_output` finds something to deliver. */
  predicate HasDeliverable(kept: seq<KeptStep>) {
    exists i | 0 <= i < |kept| :: IsDeliverable(kept[i])
  }

  /** The step finished the podcast. */
  predicate FinishedPodcast(r: StepResult) {
    r.Performed? && r.action == "tool_call" && r.toolName == "finalize_audio_podcast" && r.success
  }

  /** No step result has the key that the action is read under. */
  lemma KeptIsUnknown(r: StepResult)
    ensures Get(r, KStepType) == None && Keep(r).action == "unknown" && !IsDeliverable(Keep(r))
  {
    assert "unknown"[0] != "tool_call"[0];
  }

  /** Read under `action`, the key that results do have, the deliverable would be found exactly in the steps that finished
      the podcast. */
  lemma ReadUnderActionIff(r: StepResult)
    ensures IsDeliverable(Keep(r).(action := TextAt(r, KAction, "unknown"))) <==> FinishedPodcast(r)
  {
    assert "unknown"[0] != "tool_call"[0];
  }
}
