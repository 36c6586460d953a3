/** One step as it is executed: the gates in their order, each of which may end it, and the charge to the wallet. */
module StepExecution {
  import opened Prelude
  import opened WalletLedger
  import opened WalletManager
  import opened StepGates
  import StepResults

  /** `_execute_step`: what the step gives back, and whether it was paid for. */
  method ExecuteAction(wallets: Manager, agent: AgentId, s: StepInput, unbounded: bool)
      returns (r: StepResults.StepResult, paid: bool)
    modifies wallets
    ensures r == ResultOf(old(wallets.View()), agent, s, unbounded)
    ensures wallets.View() == ExecuteStep(old(wallets.View()), agent, s, unbounded)
    ensures paid <==> agent in old(wallets.wallets) && Charged(old(wallets.View()), agent, s, unbounded)
  {
    paid := false;
    if FailsAt(s, Deciding) {
      return StepResults.Errored(s.failure.value.message), false;
    }
    var d := PassGates(wallets, agent, s, unbounded);
    if d.Blocked? {
      return StepResults.Errored(BlockedText(d.reason)), false;
    }
    if d == AwaitApproval {
      return StepResults.Waiting(s.stepId), false;
    }
    r := ResultOfAction(s);
    if s.action.kind == "respond" || (s.action.kind == "tool_call" && FailsAt(s, Acting)) {
      return;
    }
    ghost var before := wallets.View();
    if agent in wallets.wallets { SpendSucceeds(before, agent, s, unbounded); }
    var v := wallets.SpendFrom(agent, Cost(s.action), "RGT");
    paid := v == Done;
  }

  method PassGates(wallets: Manager, agent: AgentId, s: StepInput, unbounded: bool) returns (d: Decision)
    ensures d == DecisionOn(wallets.View(), agent, s, unbounded)
  {
    d := BeforeFunds(s.action, s.verdicts, unbounded);
    if d != CarryOut {
      return;
    }
    if agent in wallets.wallets {
      var balance := wallets.GetBalance(agent, "RGT");
      if balance < Cost(s.action) {
        return Blocked(NoFunds);
      }
    }
    d := AfterFunds(s.verdicts, unbounded);
  }

  /** The gates up to the ethical pillars. */
  method BeforeFunds(a: AgentAction, v: Verdicts, unbounded: bool) returns (d: Decision)
    ensures d == CarryOut ==>
              forall funds :: Decide(a, v, unbounded, funds)
                              == if funds.Some? && funds.value < Cost(a) then Blocked(NoFunds) else PolicyDecides(v, unbounded)
    ensures d != CarryOut ==> forall funds :: Decide(a, v, unbounded, funds) == d
  {
    if v.creditsExhausted { return Blocked(NoCredits); }
    if a.kind == "tool_call" && a.toolName == "" { return Blocked(NoToolName); }
    if !v.safetyAllows { return Blocked(Unsafe); }
    if v.gateAvailable && !unbounded {
      if !v.gateAllows { return Blocked(GateClosed); }
      if v.gateWantsApproval { return AwaitApproval; }
    }
    d := TrustAndPillars(a, v);
  }

  method TrustAndPillars(a: AgentAction, v: Verdicts) returns (d: Decision)
    ensures d == EthicsDecide(a, v)
  {
    if v.trustAvailable {
      var risk := RiskLevel(a);
      if v.trust < 40 && risk >= 4 { return Blocked(LowTrust); }
      if v.trust < 60 && risk >= 5 { return Blocked(LowTrust); }
    }
    if a.targetsAgent && !v.tenantAllows { return Blocked(OtherTenant); }
    var pillar := ViolatedPillar(a);
    if pillar.Some? { return Blocked(Pillar(pillar.value)); }
    d := CarryOut;
  }

  method AfterFunds(v: Verdicts, unbounded: bool) returns (d: Decision)
    ensures d == PolicyDecides(v, unbounded)
  {
    if v.policy == PAbort { return Blocked(PolicyAbort); }
    if v.policy == PRequireApproval && !unbounded { return AwaitApproval; }
    if v.safetyWantsApproval && !unbounded { return AwaitApproval; }
    d := CarryOut;
  }
}
