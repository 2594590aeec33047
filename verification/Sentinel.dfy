/** The services together: anomaly detection issues suspend calls to the identity API, operators
    suspend and reinstate, and the agents' PEPs read the suspended set. */
module Sentinel {
  import opened AuditSchema
  import opened AgentRuns
  import Anomaly
  import IdentityApi
  import RateLimit
  import Pep
  import RegoPolicy
  import ScopeCheck
  import HashChain
  import AuditStore

  datatype System = System(anomaly: Anomaly.Service, ledger: IdentityApi.Ledger)

  const START := System(Anomaly.START, IdentityApi.EMPTY)

  /** Each call of the identity API may lose Redis at its first or second command; a suspend call of
      the anomaly service that never arrives counts as one that failed at its first. Such a call is
      logged and not repeated. */
  datatype Op =
    | Observe(event: AuditEvent, raw: real, fault: IdentityApi.Fault)
    | Probe(id: string)
    | OperatorSuspend(id: string, fault: IdentityApi.Fault)
    | OperatorReinstate(id: string, fault: IdentityApi.Fault)

  function Step(w: System, op: Op): System {
    match op
    case Observe(e, raw, fault) =>
      var next := Anomaly.Process(w.anomaly, e, raw);
      var called := e.fields.agentId !in w.anomaly.suspended && e.fields.agentId in next.suspended;
      System(next, if called then IdentityApi.Suspend(w.ledger, e.fields.agentId, "anomaly", fault) else w.ledger)
    case Probe(id) => w.(anomaly := Anomaly.Score(w.anomaly, id))
    case OperatorSuspend(id, fault) => w.(ledger := IdentityApi.Suspend(w.ledger, id, "operator", fault))
    case OperatorReinstate(id, fault) => w.(ledger := IdentityApi.Unsuspend(w.ledger, id, fault))
  }

  function Run(w: System, ops: seq<Op>): System {
    if ops == [] then w else Step(Run(w, ops[..|ops| - 1]), ops[|ops| - 1])
  }

  /** What the anomaly service has seen. */
  function Seen(op: Op): seq<Anomaly.Op> {
    match op
    case Observe(e, raw, _) => [Anomaly.Event(e, raw)]
    case Probe(id) => [Anomaly.Probe(id)]
    case _ => []
  }

  function Observed(ops: seq<Op>): seq<Anomaly.Op> {
    if ops == [] then [] else Observed(ops[..|ops| - 1]) + Seen(ops[|ops| - 1])
  }

  // ----------------------------------------------------- what suspends and reinstates

  /** A reinstatement takes effect when its first command does, even if it is answered 503. */
  predicate Clears(op: Op, id: string) {
    op.OperatorReinstate? && op.id == id && op.fault != IdentityApi.AtFirst
  }

  predicate OperatorSets(op: Op, id: string) {
    op.OperatorSuspend? && op.id == id && op.fault != IdentityApi.AtFirst
  }

  /** The step is an event of the agent on which it has burst or breached the threshold. */
  predicate Breach(ops: seq<Op>, i: nat, id: string)
    requires i < |ops|
  {
    var seen := Observed(ops[..i + 1]);
    ops[i].Observe? && seen != [] && Anomaly.Triggers(seen, |seen| - 1, id)
  }

  ghost predicate FirstBreach(ops: seq<Op>, i: nat, id: string)
    requires i < |ops|
  {
    Breach(ops, i, id) && forall k: nat | k < i :: !Breach(ops, k, id)
  }

  /** The step puts the agent into the suspended set: an operator, or its first breach. */
  ghost predicate Sets(ops: seq<Op>, i: nat, id: string)
    requires i < |ops|
  {
    OperatorSets(ops[i], id) || (FirstBreach(ops, i, id) && ops[i].fault != IdentityApi.AtFirst)
  }

  lemma StepSeen(w: System, op: Op)
    ensures Step(w, op).anomaly ==
      if Seen(op) == [] then w.anomaly else Anomaly.Step(w.anomaly, Seen(op)[0])
    ensures |Seen(op)| <= 1
  {
  }

  lemma {:induction false} AnomalySeesObserved(ops: seq<Op>)
    ensures Run(START, ops).anomaly == Anomaly.Run(Observed(ops))
  {
    if ops != [] {
      var before, op := ops[..|ops| - 1], ops[|ops| - 1];
      AnomalySeesObserved(before);
      StepSeen(Run(START, before), op);
      if Seen(op) == [] {
        assert Observed(ops) == Observed(before);
      } else {
        Anomaly.RunSnoc(Observed(before), Seen(op)[0]);
        assert Observed(ops) == Observed(before) + [Seen(op)[0]];
      }
    }
  }

  lemma AnomalyStep(ops: seq<Op>, id: string)
    requires ops != []
    ensures id in Run(START, ops).anomaly.suspended <==>
      id in Run(START, ops[..|ops| - 1]).anomaly.suspended || Breach(ops, |ops| - 1, id)
  {
    var n := |ops| - 1;
    AnomalySeesObserved(ops);
    AnomalySeesObserved(ops[..n]);
    assert ops[..n + 1] == ops;
    if Seen(ops[n]) == [] {
      assert Observed(ops) == Observed(ops[..n]);
    } else {
      assert Observed(ops) == Observed(ops[..n]) + [Seen(ops[n])[0]];
      Anomaly.StepSuspends(Observed(ops[..n]), Seen(ops[n])[0], id);
    }
  }

  lemma BreachInPrefix(ops: seq<Op>, n: nat, i: nat, id: string)
    requires i < n <= |ops|
    ensures Breach(ops[..n], i, id) <==> Breach(ops, i, id)
  {
    assert ops[..n][..i + 1] == ops[..i + 1];
  }

  /** The anomaly service counts an agent as suspended exactly from its first breach on. */
  lemma {:induction false} BreachedIff(ops: seq<Op>, id: string)
    ensures id in Run(START, ops).anomaly.suspended <==> exists i: nat :: i < |ops| && Breach(ops, i, id)
  {
    if ops != [] {
      var n := |ops| - 1;
      BreachedIff(ops[..n], id);
      AnomalyStep(ops, id);
      forall i: nat | i < n ensures Breach(ops[..n], i, id) <==> Breach(ops, i, id) {
        BreachInPrefix(ops, n, i, id);
      }
    }
  }

  lemma LedgerStep(ops: seq<Op>, id: string)
    requires ops != []
    ensures var n := |ops| - 1;
      id in Run(START, ops).ledger.suspended <==>
        Sets(ops, n, id) || (id in Run(START, ops[..n]).ledger.suspended && !Clears(ops[n], id))
  {
    var n := |ops| - 1;
    BreachedIff(ops[..n], id);
    AnomalyStep(ops, id);
    forall i: nat | i < n ensures Breach(ops[..n], i, id) <==> Breach(ops, i, id) {
      BreachInPrefix(ops, n, i, id);
    }
    StepOfOne(Run(START, ops[..n]), ops[n], id);
  }

  /** This step makes the anomaly service suspend the agent. */
  predicate NewlySuspended(w: System, op: Op, id: string) {
    id !in w.anomaly.suspended && id in Step(w, op).anomaly.suspended
  }

  /** One step against one identity. */
  lemma StepOfOne(w: System, op: Op, id: string)
    ensures w.anomaly.suspended <= Step(w, op).anomaly.suspended
    ensures NewlySuspended(w, op, id) ==> op.Observe?
    ensures id in Step(w, op).ledger.suspended <==>
      || OperatorSets(op, id)
      || (NewlySuspended(w, op, id) && op.fault != IdentityApi.AtFirst)
      || (id in w.ledger.suspended && !Clears(op, id))
  {
  }

  /** The step sets the agent and no later step clears it. */
  ghost predicate InForce(ops: seq<Op>, i: nat, id: string)
    requires i < |ops|
  {
    Sets(ops, i, id) && forall j | i < j < |ops| :: !Clears(ops[j], id)
  }

  lemma InForceStep(ops: seq<Op>, n: nat, i: nat, id: string)
    requires i < n == |ops| - 1
    ensures InForce(ops, i, id) <==> InForce(ops[..n], i, id) && !Clears(ops[n], id)
  {
    forall k: nat | k <= i ensures Breach(ops[..n], k, id) <==> Breach(ops, k, id) {
      BreachInPrefix(ops, n, k, id);
    }
    assert Sets(ops[..n], i, id) <==> Sets(ops, i, id);
    assert forall j | i < j < n :: ops[..n][j] == ops[j];
  }

  /** Over every run, failures included: an identity is suspended exactly when some step suspended it
      and no later one reinstated it, and the only steps that suspend are an operator's and the
      agent's first breach. */
  lemma {:induction false} SuspendedIffInForce(ops: seq<Op>, id: string)
    ensures id in Run(START, ops).ledger.suspended <==> exists i: nat :: i < |ops| && InForce(ops, i, id)
  {
    if ops != [] {
      var n := |ops| - 1;
      SuspendedIffInForce(ops[..n], id);
      LedgerStep(ops, id);
      forall i: nat | i < n ensures InForce(ops, i, id) <==> InForce(ops[..n], i, id) && !Clears(ops[n], id) {
        InForceStep(ops, n, i, id);
      }
      assert InForce(ops, n, id) <==> Sets(ops, n, id);
    }
  }

  /** A suspended identity stays suspended until a reinstatement takes effect. */
  lemma {:induction false} SuspensionHolds(w: System, ops: seq<Op>, id: string)
    requires id in w.ledger.suspended && forall op | op in ops :: !Clears(op, id)
    ensures id in Run(w, ops).ledger.suspended
  {
    if ops != [] {
      var n := |ops| - 1;
      SuspensionHolds(w, ops[..n], id);
      StepOfOne(Run(w, ops[..n]), ops[n], id);
    }
  }

  // ------------------------------------------------- suspension after a reinstatement

  /** The service's test on this event: a burst, or a score at the threshold. */
  predicate Breaches(s: Anomaly.Service, e: AuditEvent, raw: real) {
    var a := Anomaly.AgentOf(s, e.fields.agentId);
    a.burst + 1 > 10 || (Anomaly.Learn(a, e).trained.Some? && raw >= 0.95)
  }

  /** The next breach suspends an identity that is not suspended exactly when the service has never
      suspended it before and the call gets through. */
  lemma BreachSuspendsIff(w: System, e: AuditEvent, raw: real, fault: IdentityApi.Fault)
    requires Breaches(w.anomaly, e, raw)
    ensures var id := e.fields.agentId;
      id in Step(w, Observe(e, raw, fault)).ledger.suspended <==>
        id in w.ledger.suspended || (id !in w.anomaly.suspended && fault != IdentityApi.AtFirst)
  {
    Anomaly.StepSuspended(w.anomaly, e, raw, e.fields.agentId);
  }

  /** An identity that the anomaly service has suspended once, and that is not suspended now, is never
      suspended by the service again, whatever it does: only an operator can. */
  lemma {:induction false} ReinstatedIsNeverResuspended(w: System, ops: seq<Op>, id: string)
    requires id in w.anomaly.suspended && id !in w.ledger.suspended
    requires forall op | op in ops :: !OperatorSets(op, id)
    ensures id in Run(w, ops).anomaly.suspended && id !in Run(w, ops).ledger.suspended
  {
    if ops != [] {
      var n := |ops| - 1;
      ReinstatedIsNeverResuspended(w, ops[..n], id);
      StepOfOne(Run(w, ops[..n]), ops[n], id);
    }
  }

  function Repeat(e: AuditEvent, n: nat): (ops: seq<Op>)
    ensures forall op | op in ops :: op == Observe(e, 0.0, IdentityApi.NoFault)
  {
    if n == 0 then [] else Repeat(e, n - 1) + [Observe(e, 0.0, IdentityApi.NoFault)]
  }

  /** An event that scores nothing and is no burst only moves the counter. */
  lemma QuietStep(w: System, e: AuditEvent)
    requires Anomaly.AgentOf(w.anomaly, e.fields.agentId).burst < 10
    ensures var id, t := e.fields.agentId, Step(w, Observe(e, 0.0, IdentityApi.NoFault));
      && Anomaly.AgentOf(t.anomaly, id).burst == Anomaly.AgentOf(w.anomaly, id).burst + 1
      && (id in t.anomaly.suspended <==> id in w.anomaly.suspended)
  {
    Anomaly.StepBurst(w.anomaly, e, 0.0, e.fields.agentId);
    Anomaly.StepSuspended(w.anomaly, e, 0.0, e.fields.agentId);
  }

  lemma OneMoreStep(w: System, ops: seq<Op>, op: Op)
    ensures Run(w, ops + [op]) == Step(Run(w, ops), op)
  {
    assert (ops + [op])[..|ops|] == ops;
  }

  lemma {:induction false} QuietRepeat(w: System, e: AuditEvent, n: nat)
    requires Anomaly.AgentOf(w.anomaly, e.fields.agentId).burst == 0 && n <= 10
    ensures var id, t := e.fields.agentId, Run(w, Repeat(e, n));
      && Anomaly.AgentOf(t.anomaly, id).burst == n
      && (id in t.anomaly.suspended <==> id in w.anomaly.suspended)
  {
    if n > 0 {
      var before := Repeat(e, n - 1);
      QuietRepeat(w, e, n - 1);
      QuietStep(Run(w, before), e);
      OneMoreStep(w, before, Observe(e, 0.0, IdentityApi.NoFault));
    }
  }

  lemma EleventhBursts(w: System, e: AuditEvent)
    requires Anomaly.AgentOf(w.anomaly, e.fields.agentId).burst == 0
    ensures var before, id := Run(w, Repeat(e, 10)), e.fields.agentId;
      var after := Step(before, Observe(e, 0.0, IdentityApi.NoFault));
      && Run(w, Repeat(e, 11)) == after && Breaches(before.anomaly, e, 0.0)
      && id in after.anomaly.suspended && Anomaly.AgentOf(after.anomaly, id).burst == 0
  {
    var before := Run(w, Repeat(e, 10));
    QuietRepeat(w, e, 10);
    assert Repeat(e, 11)[..|Repeat(e, 10)|] == Repeat(e, 10);
    Anomaly.StepBurst(before.anomaly, e, 0.0, e.fields.agentId);
    Anomaly.StepSuspended(before.anomaly, e, 0.0, e.fields.agentId);
  }

  /** The fallback "re-suspended on the next breach" fails on a run that happens: eleven events of an
      agent suspend it, an operator reinstates it, eleven more events are a breach again, and it
      stays free. */
  lemma FallbackFails(e: AuditEvent)
    ensures var id, burst := e.fields.agentId, Repeat(e, 10);
      var suspended := Run(START, Repeat(e, 11));
      var free := Step(suspended, OperatorReinstate(id, IdentityApi.NoFault));
      var again := Run(free, burst);
      && id in suspended.ledger.suspended && id !in free.ledger.suspended
      && Breaches(again.anomaly, e, 0.0)
      && id !in Step(again, Observe(e, 0.0, IdentityApi.NoFault)).ledger.suspended
  {
    var id := e.fields.agentId;
    EleventhBursts(START, e);
    QuietRepeat(START, e, 10);
    BreachSuspendsIff(Run(START, Repeat(e, 10)), e, 0.0, IdentityApi.NoFault);
    var free := Step(Run(START, Repeat(e, 11)), OperatorReinstate(id, IdentityApi.NoFault));
    EleventhBursts(free, e);
    ReinstatedIsNeverResuspended(free, Repeat(e, 11), id);
  }

  // ------------------------------------------------------------------ the whole loop

  /** After a breach of an agent whose suspend call got through, with nobody reinstating it, none of
      its runs reaches a tool handler while the PEP can see Redis. */
  lemma BreachStopsTheAgent(
    ops: seq<Op>, i: nat, cfg: AgentConfig, task: Task, w: AgentRuns.World, counters: RateLimit.Counters)
    requires i < |ops| && FirstBreach(ops, i, cfg.agentId) && ops[i].fault != IdentityApi.AtFirst
    requires (forall j | i < j < |ops| :: !Clears(ops[j], cfg.agentId)) && w.suspensionUp
    ensures var suspended := Run(START, ops).ledger.suspended;
      && cfg.agentId in suspended
      && forall a | a in RunTrace(cfg, task, w, VerdictIn(cfg, task, w, suspended, counters)) :: !a.Call?
  {
    assert InForce(ops, i, cfg.agentId);
    SuspendedIffInForce(ops, cfg.agentId);
    HandlerRunsIff(cfg, task, w, Run(START, ops).ledger.suspended, counters);
  }

  lemma {:induction false} SomeBreach(ops: seq<Op>, id: string) returns (i: nat)
    requires |Anomaly.Own(Observed(ops), id)| >= 11
    ensures i < |ops| && Breach(ops, i, id)
  {
    var n := |ops| - 1;
    var before := Observed(ops[..n]);
    if |Anomaly.Own(before, id)| >= 11 {
      i := SomeBreach(ops[..n], id);
      BreachInPrefix(ops, n, i, id);
    } else {
      i := n;
      LastIsBreach(ops, id);
    }
  }

  lemma LastIsBreach(ops: seq<Op>, id: string)
    requires ops != [] && |Anomaly.Own(Observed(ops), id)| >= 11
    requires |Anomaly.Own(Observed(ops[..|ops| - 1]), id)| < 11
    ensures Breach(ops, |ops| - 1, id)
  {
    var n := |ops| - 1;
    var before := Observed(ops[..n]);
    assert ops[..n + 1] == ops;
    assert Seen(ops[n]) == [] ==> Observed(ops) == before;
    if Seen(ops[n]) != [] {
      assert Observed(ops)[..|before|] == before;
      assert Observed(ops)[..|before| + 1] == Observed(ops);
    }
  }

  lemma {:induction false} FirstOf(ops: seq<Op>, id: string, i: nat) returns (first: nat)
    requires i < |ops| && Breach(ops, i, id)
    ensures first < |ops| && FirstBreach(ops, first, id)
  {
    if k: nat :| k < i && Breach(ops, k, id) {
      first := FirstOf(ops, id, k);
    } else {
      first := i;
    }
  }

  /** Eleven observed events of an agent are enough, with any `/score` calls among them, if its
      suspend call gets through and nobody reinstates it. */
  lemma ElevenEventsStopTheAgent(
    ops: seq<Op>, cfg: AgentConfig, task: Task, w: AgentRuns.World, counters: RateLimit.Counters)
    requires |Anomaly.Own(Observed(ops), cfg.agentId)| >= 11
    requires forall i: nat | i < |ops| && FirstBreach(ops, i, cfg.agentId) :: ops[i].fault != IdentityApi.AtFirst
    requires (forall op | op in ops :: !Clears(op, cfg.agentId)) && w.suspensionUp
    ensures var suspended := Run(START, ops).ledger.suspended;
      && cfg.agentId in suspended
      && forall a | a in RunTrace(cfg, task, w, VerdictIn(cfg, task, w, suspended, counters)) :: !a.Call?
  {
    var some := SomeBreach(ops, cfg.agentId);
    var i := FirstOf(ops, cfg.agentId, some);
    BreachStopsTheAgent(ops, i, cfg, task, w, counters);
  }

  // ---------------------------------------------------------- policy, agent and log

  /** OPA answers, when it answers, with the effect of the policy at the given hour. */
  ghost predicate FollowsPolicy(w: AgentRuns.World, hour: int) {
    forall r :: w.oracles.opa(r).Answer? ==> w.oracles.opa(r).effect == RegoPolicy.Effect(r, hour)
  }

  /** With the registry built from the granted scopes and OPA evaluating the policy: a handler runs only
      for a tool whose scope was granted and stands in the claims, with a token that is this agent's
      own and used from its own address, for a task, from an allowed environment, within the allowed
      hours, below the rate limit on the count Redis gave, and for a destructive tool or a
      ProvisionerAgent only with prior approval. */
  lemma HandlerRunsOnlyUnderPolicy(
    cfg: AgentConfig, granted: seq<string>, task: Task, w: AgentRuns.World, hour: int,
    suspended: set<string>, counters: RateLimit.Counters)
    requires cfg.available == ScopeCheck.Registry(granted) && FollowsPolicy(w, hour)
    requires exists a :: a in RunTrace(cfg, task, w, VerdictIn(cfg, task, w, suspended, counters)) && a.Call?
    ensures ScopeCheck.Available(granted, task.toolKey) && w.token.Granted?
    ensures var claims, context, spec := w.token.claims, task.context, ScopeCheck.TOOL_CATALOG[task.toolKey];
      var seen := CountSeen(cfg, w, counters);
      var count := if seen.Some? then seen else context.count;
      && spec.requiredScope in granted && RegoPolicy.Carries(claims, spec.requiredScope)
      && RegoPolicy.ClaimsServe(claims, cfg.agentId) && Pep.AddressAgrees(claims, cfg.sourceIp)
      && task.taskId != ""
      && (context.allowedEnvironments.Some? ==> task.environment in context.allowedEnvironments.value)
      && (context.window.Some? ==>
            || (cfg.agentType == "SecOpsAgent" && context.incident)
            || context.window.value.0 <= hour < context.window.value.1)
      && (w.counterFault.NoFault? ==> seen.Some?)
      && (count.Some? ==> count.value < if context.limit.Some? then context.limit.value else 30)
      && (spec.destructive || cfg.agentType == "ProvisionerAgent" ==> context.preApproved)
  {
    var asked := AllowedRequest(cfg, task, w, hour, suspended, counters);
    RegoPolicy.DeniedIff(asked, hour);
    RegoPolicy.ApprovalIsNeededIff(asked, hour);
    GrantedTool(granted, task.toolKey);
  }

  /** What OPA was asked about when a handler runs. */
  lemma AllowedRequest(
    cfg: AgentConfig, task: Task, w: AgentRuns.World, hour: int, suspended: set<string>, counters: RateLimit.Counters)
    returns (asked: RegoPolicy.ActionRequest)
    requires FollowsPolicy(w, hour)
    requires exists a :: a in RunTrace(cfg, task, w, VerdictIn(cfg, task, w, suspended, counters)) && a.Call?
    ensures w.token.Granted? && task.toolKey in cfg.available && Pep.AddressAgrees(w.token.claims, cfg.sourceIp)
    ensures RegoPolicy.Effect(asked, hour) == RegoPolicy.ALLOW
    ensures asked.agentId == cfg.agentId && asked.agentType == cfg.agentType && asked.claims == w.token.claims
    ensures asked.action == cfg.available[task.toolKey].action
    ensures asked.taskId == task.taskId && asked.environment == task.environment
    ensures var seen := CountSeen(cfg, w, counters);
      asked.context == if seen.Some? then task.context.(count := seen) else task.context
  {
    HandlerRunsIff(cfg, task, w, suspended, counters);
    var count := CountSeen(cfg, w, counters);
    asked := RegoPolicy.ActionRequest(
      cfg.agentId, cfg.agentType, w.token.claims, cfg.available[task.toolKey].action, task.resourceArn, task.taskId,
      task.environment, cfg.sourceIp, if count.Some? then task.context.(count := count) else task.context);
  }

  lemma GrantedTool(granted: seq<string>, tool: string)
    requires tool in ScopeCheck.Registry(granted)
    ensures ScopeCheck.Available(granted, tool) && tool in ScopeCheck.TOOL_CATALOG
    ensures var spec := ScopeCheck.TOOL_CATALOG[tool];
      && ScopeCheck.Registry(granted)[tool] == spec && spec.requiredScope in granted
      && spec.action in ScopeCheck.ACTION_SCOPE_MAP
      && ScopeCheck.ACTION_SCOPE_MAP[spec.action] == spec.requiredScope
      && (spec.destructive ==> RegoPolicy.Sensitive(spec.action))
  {
    ScopeCheck.CatalogueAgreesWithPolicy(tool);
    RegoPolicy.DestructiveToolsAreSensitive(tool);
  }

  /** From runs to the operator's screen: whatever the agent's runs met, once each of their events
      has been stored, the chain query returns exactly what was published, two events for every
      finished run and one for every blocked or broken-off one, and verifies it. */
  lemma RunsAreRecovered(
    hash: HashChain.Hasher, cfg: AgentConfig, runs: seq<RunInput>, ms: seq<AuditStore.Message>, result: seq<AuditEvent>)
    requires AuditStore.AgentLog(cfg.agentId, Drafts(Trace(cfg, runs)))
    requires var log := HashChain.Published(hash, Drafts(Trace(cfg, runs)));
      AuditStore.OnlyFrom(cfg.agentId, log, ms) && forall e | e in log :: AuditStore.Stored(ms, e)
    requires AuditStore.QueryResult(AuditStore.Ingest(map[], ms), cfg.agentId, result)
    ensures result == HashChain.Published(hash, Drafts(Trace(cfg, runs))) && HashChain.Verified(hash, result)
    ensures |result| ==
      CountRuns(cfg, runs, Blocked) + CountRuns(cfg, runs, BrokenOff) + 2 * CountRuns(cfg, runs, Finished)
  {
    AuditStore.EndToEnd(hash, cfg.agentId, Drafts(Trace(cfg, runs)), ms, result);
    EveryLogVerifies(hash, cfg, runs);
  }
}
