/** The gates an action passes before it is carried out, and the spending that follows. Costs are in thousandths of a
    token. The verdicts of the safety envelope, the execution gate, the policy engine and the other services are given. */
module StepGates {
  import opened Prelude
  import opened WalletLedger
  import StepResults

  /** The model's chosen action; an empty tool name is none. */
  datatype AgentAction = AgentAction(kind: string, toolName: string, hasApproval: bool, targetsAgent: bool)

  datatype Policy = PAllow | PAbort | PRequireApproval

  datatype Verdicts = Verdicts(
    creditsExhausted: bool, safetyAllows: bool, safetyWantsApproval: bool,
    gateAvailable: bool, gateAllows: bool, gateWantsApproval: bool,
    trustAvailable: bool, trust: int, tenantAllows: bool, policy: Policy)

  datatype Reason = NoCredits | NoToolName | Unsafe | GateClosed | LowTrust | OtherTenant | Pillar(name: string)
                  | NoFunds | PolicyAbort

  datatype Decision = Blocked(reason: Reason) | AwaitApproval | CarryOut

  // ---------- Keyword tests on names ----------

  function LowerChar(c: char): char {
    if 'A' <= c <= 'Z' then (c as int + 32) as char else c
  }

  function Lower(s: string): (r: string)
    ensures |r| == |s| && forall i | 0 <= i < |s| :: r[i] == LowerChar(s[i])
  {
    seq(|s|, i requires 0 <= i < |s| => LowerChar(s[i]))
  }

  predicate At(s: string, word: string, i: nat) {
    i + |word| <= |s| && s[i..i + |word|] == word
  }

  predicate Contains(s: string, word: string) {
    exists i | 0 <= i <= |s| :: At(s, word, i)
  }

  predicate ContainsAny(s: string, words: seq<string>) {
    exists w | w in words :: Contains(s, w)
  }

  const CriticalWords := ["medical", "legal", "compliance", "governance", "admin", "sudo", "root"]
  const HighRiskWords := ["finance", "payment", "transfer", "execute", "deploy", "delete", "modify"]
  const OversightWords := ["autonomous_deploy", "self_modify_governance", "bypass_approval"]
  const PrivacyWords := ["exfiltrate", "leak_data", "share_pii"]

  /** `_get_action_risk_level`: SRR-1 to SRR-5. */
  function RiskLevel(a: AgentAction): nat {
    var tool := Lower(a.toolName);
    if ContainsAny(tool, CriticalWords) then 5
    else if ContainsAny(tool, HighRiskWords) then 4
    else if a.kind == "tool_call" then 3
    else if a.kind == "respond" then 2
    else 1
  }

  /** `_check_ethical_pillars`: the pillar violated, if any. */
  function ViolatedPillar(a: AgentAction): Option<string> {
    var tool := Lower(a.toolName);
    if a.kind in OversightWords || ContainsAny(tool, OversightWords) then Some("Human Oversight & Accountability")
    else if ContainsAny(tool, PrivacyWords) then Some("Privacy & Agency Protection")
    else if RiskLevel(a) > 4 && !a.hasApproval then Some("Safety & Robustness (SRR-5 requires approval)")
    else None
  }

  /** `_estimate_action_cost`. */
  function Cost(a: AgentAction): (r: int)
    ensures 10 <= r <= 5000
  {
    var tool := Lower(a.toolName);
    var base := if a.kind == "tool_call" then 100 else if a.kind == "respond" then 50 else if a.kind == "api_call" then 500
                else if a.kind == "blockchain" then 1000 else 10;
    if Contains(tool, "llm") || Contains(tool, "gpt") then base * 5
    else if Contains(tool, "search") then base * 2
    else if Contains(tool, "execute") then base * 3
    else base
  }

  // ---------- The gate chain ----------

  /** The gates on trust, tenants and the ethical pillars. */
  function EthicsDecide(a: AgentAction, v: Verdicts): Decision {
    var risk, pillar := RiskLevel(a), ViolatedPillar(a);
    if v.trustAvailable && v.trust < 40 && risk >= 4 then Blocked(LowTrust)
    else if v.trustAvailable && v.trust < 60 && risk >= 5 then Blocked(LowTrust)
    else if a.targetsAgent && !v.tenantAllows then Blocked(OtherTenant)
    else if pillar.Some? then Blocked(Pillar(pillar.value))
    else CarryOut
  }

  /** The gates behind the balance check. */
  function PolicyDecides(v: Verdicts, unbounded: bool): Decision {
    if v.policy == PAbort then Blocked(PolicyAbort)
    else if v.policy == PRequireApproval && !unbounded then AwaitApproval
    else if v.safetyWantsApproval && !unbounded then AwaitApproval
    else CarryOut
  }

  /** `_execute_step` up to the execution: `funds` is the agent's balance, if it has a wallet. */
  function Decide(a: AgentAction, v: Verdicts, unbounded: bool, funds: Option<int>): Decision {
    if v.creditsExhausted then Blocked(NoCredits)
    else if a.kind == "tool_call" && a.toolName == "" then Blocked(NoToolName)
    else if !v.safetyAllows then Blocked(Unsafe)
    else if v.gateAvailable && !unbounded && !v.gateAllows then Blocked(GateClosed)
    else if v.gateAvailable && !unbounded && v.gateWantsApproval then AwaitApproval
    else
      var ethics := EthicsDecide(a, v);
      if ethics != CarryOut then ethics
      else if funds.Some? && funds.value < Cost(a) then Blocked(NoFunds)
      else PolicyDecides(v, unbounded)
  }

  /** No critical action is carried out without its approval, in either mode, whatever the services answer. */
  lemma CriticalNeedsApproval(a: AgentAction, v: Verdicts, unbounded: bool, funds: Option<int>)
    requires Decide(a, v, unbounded, funds) == CarryOut && ContainsAny(Lower(a.toolName), CriticalWords)
    ensures a.hasApproval && v.safetyAllows && v.policy != PAbort && (v.trustAvailable ==> v.trust >= 60)
    ensures !ContainsAny(Lower(a.toolName), OversightWords) && !ContainsAny(Lower(a.toolName), PrivacyWords)
  {
    assert RiskLevel(a) == 5;
    assert ViolatedPillar(a) == None;
  }

  /** The checks that unbounded mode lifts. */
  predicate ApprovalsPass(v: Verdicts) {
    (v.gateAvailable ==> v.gateAllows && !v.gateWantsApproval) && v.policy != PRequireApproval && !v.safetyWantsApproval
  }

  /** Unbounded mode lifts the execution gate and the approvals, and nothing else: a governed agent may do exactly what
      an unbounded one may and what those let through. */
  lemma UnboundedLiftsOnlyApprovals(a: AgentAction, v: Verdicts, funds: Option<int>)
    ensures Decide(a, v, false, funds) == CarryOut <==> Decide(a, v, true, funds) == CarryOut && ApprovalsPass(v)
    ensures Decide(a, v, true, funds) != AwaitApproval
    ensures Decide(a, v, true, funds).Blocked? && ApprovalsPass(v) ==> Decide(a, v, false, funds) == Decide(a, v, true, funds)
  {
  }

  // ---------- The gates told by the words themselves ----------

  /** A name contains a word if it is the word with something before it and something behind. */
  lemma ContainsIff(s: string, word: string)
    ensures Contains(s, word) <==> exists before, behind :: s == before + word + behind
  {
    if i :| 0 <= i <= |s| && At(s, word, i) {
      assert s == s[..i] + word + s[i + |word|..];
    }
    if before, behind :| s == before + word + behind {
      assert At(s, word, |before|);
    }
  }

  /** Names are compared in lower case. */
  lemma LowerIs(s: string, i: nat)
    requires i < |s|
    ensures 'A' <= s[i] <= 'Z' ==> 'a' <= Lower(s)[i] <= 'z' && Lower(s)[i] - 'a' == s[i] - 'A'
    ensures !('A' <= s[i] <= 'Z') ==> Lower(s)[i] == s[i]
  {
    assert Lower(s)[i] == LowerChar(s[i]);
  }

  /** The agent is trusted with the tool: below 40 with none of fourteen words in its name, below 60 with none of the seven critical
      ones; where trust is not known, with all. */
  predicate Trusted(v: Verdicts, tool: string) {
    v.trustAvailable ==>
      && (v.trust < 60 ==> !ContainsAny(tool, ["medical", "legal", "compliance", "governance", "admin", "sudo", "root"]))
      && (v.trust < 40 ==> !ContainsAny(tool, ["finance", "payment", "transfer", "execute", "deploy", "delete", "modify"]))
  }

  /** No ethical pillar speaks against the action: it is no change of governance, it gives no data away, and with a critical tool it
      has its approval. */
  predicate Ethical(a: AgentAction, tool: string) {
    && a.kind != "autonomous_deploy" && a.kind != "self_modify_governance" && a.kind != "bypass_approval"
    && !ContainsAny(tool, ["autonomous_deploy", "self_modify_governance", "bypass_approval"])
    && !ContainsAny(tool, ["exfiltrate", "leak_data", "share_pii"])
    && (ContainsAny(tool, ["medical", "legal", "compliance", "governance", "admin", "sudo", "root"]) ==> a.hasApproval)
  }

  lemma EthicsIff(a: AgentAction, v: Verdicts)
    ensures EthicsDecide(a, v) == CarryOut <==>
              Trusted(v, Lower(a.toolName)) && (a.targetsAgent ==> v.tenantAllows) && Ethical(a, Lower(a.toolName))
    ensures EthicsDecide(a, v) != AwaitApproval
  {
    assert a.kind in OversightWords <==>
             a.kind == OversightWords[0] || a.kind == OversightWords[1] || a.kind == OversightWords[2];
    assert RiskLevel(a) <= 5;
  }

  /** Up to the execution gate nothing is in the way. */
  predicate Admitted(a: AgentAction, v: Verdicts) {
    !v.creditsExhausted && (a.kind == "tool_call" ==> a.toolName != "") && v.safetyAllows
  }

  /** Nor from there to the policy. */
  predicate Permitted(a: AgentAction, v: Verdicts, funds: Option<int>) {
    && Trusted(v, Lower(a.toolName)) && (a.targetsAgent ==> v.tenantAllows) && Ethical(a, Lower(a.toolName))
    && (funds.Some? ==> funds.value >= Cost(a)) && v.policy != PAbort
  }

  /** An action is carried out exactly if every gate, in whatever order, lets it through. */
  lemma CarriedOutIff(a: AgentAction, v: Verdicts, unbounded: bool, funds: Option<int>)
    ensures Decide(a, v, unbounded, funds) == CarryOut <==>
              Admitted(a, v) && Permitted(a, v, funds) && (unbounded || ApprovalsPass(v))
  {
    EthicsIff(a, v);
  }

  /** It awaits an approval exactly if the agent is governed and, the gates before it being passed, the execution gate asks for one;
      or, all gates being passed, the policy or the safety envelope does. */
  lemma AwaitsIff(a: AgentAction, v: Verdicts, unbounded: bool, funds: Option<int>)
    ensures Decide(a, v, unbounded, funds) == AwaitApproval <==>
              && !unbounded && Admitted(a, v) && (v.gateAvailable ==> v.gateAllows)
              && ((v.gateAvailable && v.gateWantsApproval)
                  || (Permitted(a, v, funds) && (v.policy == PRequireApproval || v.safetyWantsApproval)))
  {
    EthicsIff(a, v);
  }

  /** All gates up to the execution gate are passed. */
  predicate PastTheGate(a: AgentAction, v: Verdicts, unbounded: bool) {
    Admitted(a, v) && (unbounded || (v.gateAvailable ==> v.gateAllows && !v.gateWantsApproval))
  }

  /** Why an action is blocked: the first gate of nine that is closed. */
  lemma BlockedBecause(a: AgentAction, v: Verdicts, unbounded: bool, funds: Option<int>)
    ensures var d, tool := Decide(a, v, unbounded, funds), Lower(a.toolName);
            var named, past := a.kind == "tool_call" ==> a.toolName != "", PastTheGate(a, v, unbounded);
            var trusted, tenant := past && Trusted(v, tool), a.targetsAgent ==> v.tenantAllows;
            var good, paid := trusted && tenant && Ethical(a, tool), funds.Some? ==> funds.value >= Cost(a);
            && (d == Blocked(NoCredits) <==> v.creditsExhausted)
            && (d == Blocked(NoToolName) <==> !v.creditsExhausted && !named)
            && (d == Blocked(Unsafe) <==> !v.creditsExhausted && named && !v.safetyAllows)
            && (d == Blocked(GateClosed) <==> Admitted(a, v) && v.gateAvailable && !unbounded && !v.gateAllows)
            && (d == Blocked(LowTrust) <==> past && !trusted)
            && (d == Blocked(OtherTenant) <==> trusted && !tenant)
            && (d.Blocked? && d.reason.Pillar? <==> trusted && tenant && !good)
            && (d == Blocked(NoFunds) <==> good && !paid)
            && (d == Blocked(PolicyAbort) <==> good && paid && v.policy == PAbort)
  {
    EthicsReason(a, v);
  }

  lemma EthicsReason(a: AgentAction, v: Verdicts)
    ensures var d, tool, tenant := EthicsDecide(a, v), Lower(a.toolName), a.targetsAgent ==> v.tenantAllows;
            && d != AwaitApproval
            && (d == Blocked(LowTrust) <==> !Trusted(v, tool))
            && (d == Blocked(OtherTenant) <==> Trusted(v, tool) && !tenant)
            && (d.Blocked? && d.reason.Pillar? <==> Trusted(v, tool) && tenant && !Ethical(a, tool))
            && (d == CarryOut <==> Trusted(v, tool) && tenant && Ethical(a, tool))
            && (d.Blocked? ==> d.reason in {LowTrust, OtherTenant} || d.reason.Pillar?)
  {
    EthicsIff(a, v);
    RiskIs(a);
    PillarIs(a);
  }

  /** Which pillar speaks against an action: oversight before privacy, and privacy before safety. */
  lemma PillarIs(a: AgentAction)
    ensures var p, tool := ViolatedPillar(a), Lower(a.toolName);
            var oversight := a.kind == "autonomous_deploy" || a.kind == "self_modify_governance" || a.kind == "bypass_approval"
                             || ContainsAny(tool, ["autonomous_deploy", "self_modify_governance", "bypass_approval"]);
            var privacy := ContainsAny(tool, ["exfiltrate", "leak_data", "share_pii"]);
            && (oversight ==> p == Some("Human Oversight & Accountability"))
            && (!oversight && privacy ==> p == Some("Privacy & Agency Protection"))
            && (!oversight && !privacy && !Ethical(a, tool) ==> p == Some("Safety & Robustness (SRR-5 requires approval)"))
            && (p == None <==> Ethical(a, tool))
  {
    assert a.kind in OversightWords <==>
             a.kind == OversightWords[0] || a.kind == OversightWords[1] || a.kind == OversightWords[2];
    RiskIs(a);
  }

  /** The five risk ratings: critical words, other high-risk words, other tools, responses, and the rest. */
  lemma RiskIs(a: AgentAction)
    ensures var risk, tool := RiskLevel(a), Lower(a.toolName);
            var critical := ContainsAny(tool, ["medical", "legal", "compliance", "governance", "admin", "sudo", "root"]);
            var high := ContainsAny(tool, ["finance", "payment", "transfer", "execute", "deploy", "delete", "modify"]);
            && (risk == 5 <==> critical) && (risk == 4 <==> !critical && high)
            && (risk == 3 <==> !critical && !high && a.kind == "tool_call")
            && (risk == 2 <==> !critical && !high && a.kind == "respond") && 1 <= risk <= 5
  {
  }

  /** What each kind of action costs, in thousandths, and what its tool makes of that: the first of the words that fits counts. */
  lemma CostIs(a: AgentAction)
    ensures var tool, prices := Lower(a.toolName), map["tool_call" := 100, "respond" := 50, "api_call" := 500, "blockchain" := 1000];
            var price := if a.kind in prices then prices[a.kind] else 10;
            && (Contains(tool, "llm") || Contains(tool, "gpt") ==> Cost(a) == 5 * price)
            && (!Contains(tool, "llm") && !Contains(tool, "gpt") ==>
                  && (Contains(tool, "search") ==> Cost(a) == 2 * price)
                  && (!Contains(tool, "search") && Contains(tool, "execute") ==> Cost(a) == 3 * price)
                  && (!Contains(tool, "search") && !Contains(tool, "execute") ==> Cost(a) == price))
  {
  }

  // ---------- A step and its result ----------

  /** Where an exception is raised: before the decision is carried out, in the tool if there is one, or after the charge. */
  datatype Stage = Deciding | Acting | Reporting

  datatype Failure = Failure(stage: Stage, message: string)

  /** One step: what was chosen, what the services said, what the tool gives back, and what raised an exception. */
  datatype StepInput = StepInput(action: AgentAction, verdicts: Verdicts, failure: Option<Failure>, stepId: string,
                                 input: int, output: int, success: bool, goalAchieved: bool, response: string)

  predicate FailsAt(s: StepInput, stage: Stage) {
    s.failure.Some? && s.failure.value.stage == stage
  }

  function Funds(b: Book, agent: AgentId): Option<int> {
    if agent in b.wallets then Some(Get(b.wallets[agent].balances, "RGT")) else None
  }

  /** What becomes of the action, if deciding that raises nothing. */
  function DecisionOn(b: Book, agent: AgentId, s: StepInput, unbounded: bool): Decision {
    Decide(s.action, s.verdicts, unbounded, Funds(b, agent))
  }

  predicate CarriedOut(b: Book, agent: AgentId, s: StepInput, unbounded: bool) {
    !FailsAt(s, Deciding) && DecisionOn(b, agent, s, unbounded) == CarryOut
  }

  predicate Awaits(b: Book, agent: AgentId, s: StepInput, unbounded: bool) {
    !FailsAt(s, Deciding) && DecisionOn(b, agent, s, unbounded) == AwaitApproval
  }

  /** A step that ran to its end and is not a response is the kind that is charged. */
  predicate Charged(b: Book, agent: AgentId, s: StepInput, unbounded: bool) {
    CarriedOut(b, agent, s, unbounded) && s.action.kind != "respond" && !(s.action.kind == "tool_call" && FailsAt(s, Acting))
  }

  function BlockedText(r: Reason): string {
    match r
    case NoCredits => "credits_exhausted"
    case NoToolName => "tool_call missing tool_name"
    case GateClosed => "Execution gate blocked"
    case LowTrust => "Trust score too low"
    case OtherTenant => "Cross-tenant action blocked by federation policy"
    case Pillar(name) => "Action blocked by ethical pillar: " + name
    case NoFunds => "Insufficient funds"
    case PolicyAbort => "Policy blocked"
    case Unsafe => "Action blocked"
  }

  /** What a step gives back that was carried out. */
  function ResultOfAction(s: StepInput): StepResults.StepResult {
    if s.action.kind == "respond" then StepResults.Responded(s.response, s.goalAchieved)
    else if FailsAt(s, Reporting) || (s.action.kind == "tool_call" && FailsAt(s, Acting))
    then StepResults.Errored(s.failure.value.message)
    else StepResults.Performed(s.action.kind, s.action.toolName, s.input, s.output, s.success, s.goalAchieved)
  }

  /** What a step gives back. */
  function ResultOf(b: Book, agent: AgentId, s: StepInput, unbounded: bool): StepResults.StepResult {
    if FailsAt(s, Deciding) then StepResults.Errored(s.failure.value.message)
    else match DecisionOn(b, agent, s, unbounded)
      case Blocked(reason) => StepResults.Errored(BlockedText(reason))
      case AwaitApproval => StepResults.Waiting(s.stepId)
      case CarryOut => ResultOfAction(s)
  }

  /** The book after a step. */
  function ExecuteStep(b: Book, agent: AgentId, s: StepInput, unbounded: bool): Book {
    if Charged(b, agent, s, unbounded) then Apply(b, Spend(agent, Cost(s.action), "RGT")).0 else b
  }

  /** What a step shows: it waits exactly if it awaits an approval, and it is charged exactly if it was performed, or if
      its result could not be reported, which makes it an error that was paid for. */
  lemma ResultTells(b: Book, agent: AgentId, s: StepInput, unbounded: bool)
    ensures var r := ResultOf(b, agent, s, unbounded);
            && (StepResults.Waits(r) <==> Awaits(b, agent, s, unbounded))
            && (Charged(b, agent, s, unbounded)
                <==> r.Performed? || (CarriedOut(b, agent, s, unbounded) && s.action.kind != "respond" && FailsAt(s, Reporting)))
    ensures var r, act := ResultOf(b, agent, s, unbounded), s.action;
            && (r.Performed? ==> r == StepResults.Performed(act.kind, act.toolName, s.input, s.output, s.success, s.goalAchieved))
            && (r.Responded? <==> CarriedOut(b, agent, s, unbounded) && act.kind == "respond")
            && (r.Responded? ==> r == StepResults.Responded(s.response, s.goalAchieved))
            && (r.Waiting? ==> r.stepId == s.stepId)
            && (r.Errored? ==> if CarriedOut(b, agent, s, unbounded) || FailsAt(s, Deciding)
                               then s.failure.Some? && r.message == s.failure.value.message
                               else DecisionOn(b, agent, s, unbounded).Blocked?)
  {
  }

  /** With a wallet, the balance check makes the later spend succeed. */
  lemma SpendSucceeds(b: Book, agent: AgentId, s: StepInput, unbounded: bool)
    requires agent in b.wallets && Charged(b, agent, s, unbounded)
    ensures Apply(b, Spend(agent, Cost(s.action), "RGT")).1 == Done
    ensures var n := ExecuteStep(b, agent, s, unbounded);
            agent in n.wallets
            && Get(n.wallets[agent].balances, "RGT") == Get(b.wallets[agent].balances, "RGT") - Cost(s.action)
            && Get(n.wallets[agent].balances, "RGT") >= 0
  {
    assert "RGT" in b.wallets[agent].balances;
  }
}
