/** agents/base/agent.py: one run of the agent graph
    fetch_token, load_task, policy_check, audit_decision, then execute_tool and audit_result or
    error_handler; and the log that any sequence of runs leaves. */
module AgentRuns {
  import opened Text
  import opened AuditSchema
  import opened HashChain
  import opened AuditProducer
  import opened RegoPolicy
  import opened RateLimit
  import opened Pep
  import ScopeCheck

  /** `available` is the registry's view of the catalogue. */
  datatype AgentConfig = AgentConfig(
    agentId: string, agentType: string, sourceIp: string, available: map<string, ScopeCheck.ToolSpec>)

  /** A dictionary key or value: text, or anything that Pydantic does not take as text, a string with
      a lone surrogate among others. */
  datatype Value = Text(s: string) | NotText

  /** Arguments of `run`. `textual` tells whether tool key, resource, task and environment are text
      to Pydantic. The caller may put anything into the tags and the context; `contextKeys` are the
      keys of the latter. */
  datatype Task = Task(
    toolKey: string, resourceArn: string, taskId: string, environment: string, textual: bool,
    tags: seq<(Value, Value)>, contextKeys: seq<Value>, context: Context)

  /** Token acquisition and introspection: an exception, an answer that is not a JSON object with
      text keys, or claims. */
  datatype TokenReply = TokenRaised | NotAnObject | Granted(claims: Claims)

  datatype Dictionary = Dictionary(keys: seq<Value>, text: string)

  /** The handler of the tool: none registered, a value (kept in the log if it is a dictionary),
      or an exception with its message. */
  datatype HandlerReply = NoHandler | Returned(dictionary: Option<Dictionary>) | HandlerRaised(message: Message)

  datatype Stamp = Stamp(id: Uuid, time: DateTime)

  /** Everything outside the agent that one run meets. */
  datatype World = World(
    token: TokenReply, now: int, suspensionUp: bool, counterFault: CounterFault, oracles: Oracles,
    handler: HandlerReply, decisionStamp: Stamp, resultStamp: Stamp, decisionSend: SendOutcome, resultSend: SendOutcome)

  /** What a run does, in order: hand an event to the producer, or call the tool's handler. */
  datatype Action = Audit(draft: AuditEvent) | Call(tool: string)

  // -------------------------------------------------------------- specification

  /** `ActionRequest(...)` validates: text arguments, text tags, and text keys in the context. */
  predicate RequestBuilds(task: Task) {
    && task.textual
    && (forall t | t in task.tags :: t.0.Text? && t.1.Text?)
    && (forall k | k in task.contextKeys :: k.Text?)
  }

  /** An event of this run validates, as far as its arguments and its error text go. */
  predicate EventBuilds(task: Task, error: Option<Message>) {
    task.textual && (error.Some? ==> error.value.textual)
  }

  function RequestFor(cfg: AgentConfig, task: Task, claims: Claims): ActionRequest
    requires task.toolKey in cfg.available
  {
    ActionRequest(cfg.agentId, cfg.agentType, claims, cfg.available[task.toolKey].action,
                  task.resourceArn, task.taskId, task.environment, cfg.sourceIp, task.context)
  }

  function Draft(cfg: AgentConfig, task: Task, stamp: Stamp, decision: string, reason: Option<string>,
                 result: Option<string>, error: Option<string>): AuditEvent
  {
    AuditEvent(
      Hashed(stamp.id, stamp.time, cfg.agentId, cfg.agentType, task.taskId, task.toolKey, task.resourceArn,
             decision, GENESIS_HASH),
      Details("1.0", reason, None, None, None, Some(cfg.sourceIp), Some(task.environment), result, error, None),
      "")
  }

  datatype Check = Aborted | Decided(decision: string, error: Option<Message>)

  function Unavailable(task: Task): Message {
    Message("Tool '" + task.toolKey + "' is not available to this agent.", task.textual)
  }

  /** What `policy_check` leaves in the state: an unavailable tool is a DENY, a PEP exception is
      recorded under its class name. The node fails when the request cannot be built. */
  function CheckResult(cfg: AgentConfig, task: Task, token: TokenReply, verdict: Verdict): Check {
    if token.TokenRaised? then Aborted
    else if task.toolKey !in cfg.available then Decided("DENY", Some(Unavailable(task)))
    else if token.NotAnObject? || !RequestBuilds(task) then Aborted
    else match verdict
      case Permit => Decided("ALLOW", None)
      case Raised(exception, message) => Decided(exception, Some(message))
  }

  function NoHandlerMessage(task: Task): Message {
    Message("No handler registered for tool '" + task.toolKey + "'", task.textual)
  }

  function ErrorOf(task: Task, h: HandlerReply): Option<Message> {
    match h
    case NoHandler => Some(NoHandlerMessage(task))
    case Returned(_) => None
    case HandlerRaised(message) => Some(message)
  }

  /** `not state.get("error")`: an absent error and an empty text look the same. */
  predicate Falsy(error: Option<Message>) {
    error == None || error.value.text == ""
  }

  function TextOf(error: Option<Message>): Option<string> {
    if error == None then None else Some(error.value.text)
  }

  /** The result event validates; in a dictionary result all keys must be text. */
  predicate ResultBuilds(task: Task, h: HandlerReply) {
    && EventBuilds(task, ErrorOf(task, h))
    && (h.Returned? && h.dictionary.Some? ==> forall k | k in h.dictionary.value.keys :: k.Text?)
  }

  /** What `execution_result` holds. */
  function Kept(h: HandlerReply): Option<string> {
    if h.Returned? && h.dictionary.Some? then Some(h.dictionary.value.text) else None
  }

  function ResultReason(decisionEventId: Uuid): string {
    "post-execution update for " + UuidText(decisionEventId)
  }

  function ResultDraft(cfg: AgentConfig, task: Task, w: World): AuditEvent {
    var error := ErrorOf(task, w.handler);
    Draft(cfg, task, w.resultStamp, if Falsy(error) then "EXECUTED" else "EXECUTION_FAILED",
          Some(ResultReason(w.decisionStamp.id)),
          Kept(w.handler), TextOf(error))
  }

  function DecisionDraft(cfg: AgentConfig, task: Task, w: World, decision: string, error: Option<Message>): AuditEvent {
    Draft(cfg, task, w.decisionStamp, decision, TextOf(error), None, None)
  }

  function ExecutionTrace(cfg: AgentConfig, task: Task, w: World): seq<Action> {
    (if w.handler.NoHandler? then [] else [Call(task.toolKey)]) +
    if ResultBuilds(task, w.handler) then [Audit(ResultDraft(cfg, task, w))] else []
  }

  /** The decision event is published if it validates; otherwise the run ends there. */
  function DecidedTrace(cfg: AgentConfig, task: Task, w: World, decision: string, error: Option<Message>): seq<Action> {
    if !EventBuilds(task, error) then []
    else
      [Audit(DecisionDraft(cfg, task, w, decision, error))] +
      if decision == "ALLOW" then ExecutionTrace(cfg, task, w) else []
  }

  function RunTrace(cfg: AgentConfig, task: Task, w: World, verdict: Verdict): seq<Action> {
    match CheckResult(cfg, task, w.token, verdict)
    case Aborted => []
    case Decided(decision, error) => DecidedTrace(cfg, task, w, decision, error)
  }

  /** No exception leaves the graph. */
  predicate Completes(cfg: AgentConfig, task: Task, w: World, verdict: Verdict) {
    var check := CheckResult(cfg, task, w.token, verdict);
    && check.Decided? && EventBuilds(task, check.error)
    && (check.decision == "ALLOW" ==> ResultBuilds(task, w.handler))
  }

  /** The PEP's verdict in a given state of Redis, for runs that get as far as asking for it. */
  function VerdictIn(cfg: AgentConfig, task: Task, w: World, suspended: set<string>, counters: Counters): Verdict {
    if w.token.Granted? && task.toolKey in cfg.available
    then PolicyEnforcementPoint.Verdict(RequestFor(cfg, task, w.token.claims), w.now, w.suspensionUp, w.counterFault,
                                        w.oracles, suspended, counters)
    else Permit
  }

  /** The run gets as far as asking the PEP. */
  predicate Asking(cfg: AgentConfig, task: Task, w: World) {
    w.token.Granted? && task.toolKey in cfg.available && RequestBuilds(task)
  }

  /** The rate counters after a run: only a request that gets past address and suspension counts. */
  function CountersAfter(cfg: AgentConfig, task: Task, w: World, suspended: set<string>, counters: Counters): Counters {
    if Asking(cfg, task, w)
    then Counted(counters, EnforceCall(
      RequestFor(cfg, task, w.token.claims), w.now, w.suspensionUp, w.counterFault, suspended))
    else counters
  }

  function Drafts(trace: seq<Action>): seq<AuditEvent> {
    if trace == [] then []
    else
      var n := |trace| - 1;
      Drafts(trace[..n]) + if trace[n].Audit? then [trace[n].draft] else []
  }

  // ------------------------------------------------------------------ the agent

  class AgentState {
    const task: Task
    var claims: Option<Claims>
    var decision: string
    var error: Option<Message>
    var result: Option<Dictionary>
    var decisionEventId: Option<Uuid>

    constructor (task: Task)
      ensures this.task == task && claims == None && error == None && result == None && decisionEventId == None
    {
      this.task := task;
      claims, decision, error, result, decisionEventId := None, "", None, None, None;
    }
  }

  class BaseAgent {
    const cfg: AgentConfig
    const producer: Producer
    const pep: PolicyEnforcementPoint
    ghost var trace: seq<Action>

    ghost predicate Valid()
      reads this, producer
    {
      producer.Valid() && producer.drafts == Drafts(trace)
    }

    constructor (cfg: AgentConfig, producer: Producer, pep: PolicyEnforcementPoint)
      requires producer.Valid() && producer.drafts == []
      ensures Valid() && trace == []
      ensures this.cfg == cfg && this.producer == producer && this.pep == pep
    {
      this.cfg, this.producer, this.pep := cfg, producer, pep;
      trace := [];
    }

    method NodePolicyCheck(state: AgentState, w: World, ghost v: Verdict) returns (ok: bool)
      requires v == VerdictIn(cfg, state.task, w, pep.redis.suspended, pep.redis.counters)
      requires w.token.Granted? ==> state.claims == Some(w.token.claims)
      requires !w.token.TokenRaised? && state.error == None
      modifies state, pep.redis`counters
      ensures var check := CheckResult(cfg, state.task, w.token, v);
        && (ok <==> check.Decided?)
        && (ok ==> state.decision == check.decision && state.error == check.error)
      ensures state.result == old(state.result) && state.decisionEventId == old(state.decisionEventId)
      ensures pep.redis.counters ==
        CountersAfter(cfg, state.task, w, old(pep.redis.suspended), old(pep.redis.counters))
    {
      var task := state.task;
      if task.toolKey !in cfg.available {
        state.decision, state.error := "DENY", Some(Unavailable(task));
        return true;
      }
      if w.token.NotAnObject? || !RequestBuilds(task) {
        return false;
      }
      var request := RequestFor(cfg, task, state.claims.value);
      var verdict, _ := pep.Enforce(request, w.now, w.suspensionUp, w.counterFault, w.oracles);
      match verdict {
        case Permit => state.decision := "ALLOW";
        case Raised(exception, message) => state.decision, state.error := exception, Some(message);
      }
      return true;
    }

    method Publish(draft: AuditEvent, send: SendOutcome)
      requires Valid()
      modifies this, producer
      ensures Valid() && trace == old(trace) + [Audit(draft)]
    {
      var _ := producer.Publish(draft, send);
      DraftsSnoc(trace, Audit(draft));
      trace := trace + [Audit(draft)];
    }

    ghost method RecordCall(tool: string)
      requires Valid()
      modifies this
      ensures Valid() && trace == old(trace) + [Call(tool)]
    {
      DraftsSnoc(trace, Call(tool));
      trace := trace + [Call(tool)];
    }

    method NodeExecuteTool(state: AgentState, handler: HandlerReply)
      requires state.error == None && state.result == None
      modifies state
      ensures state.error == ErrorOf(state.task, handler)
      ensures state.result == if handler.Returned? then handler.dictionary else None
      ensures state.decisionEventId == old(state.decisionEventId)
    {
      match handler {
        case NoHandler => state.error := Some(NoHandlerMessage(state.task));
        case Returned(dictionary) => state.result := dictionary;
        case HandlerRaised(message) => state.error := Some(message);
      }
    }

    /** `ok` is false when the event does not validate; nothing is published then. */
    method NodeAuditResult(state: AgentState, w: World) returns (ok: bool)
      requires Valid() && state.error == ErrorOf(state.task, w.handler)
      requires state.result == if w.handler.Returned? then w.handler.dictionary else None
      requires state.decisionEventId == Some(w.decisionStamp.id)
      modifies this, producer
      ensures Valid() && (ok <==> ResultBuilds(state.task, w.handler))
      ensures trace == old(trace) + if ok then [Audit(ResultDraft(cfg, state.task, w))] else []
    {
      if !EventBuilds(state.task, state.error) {
        return false;
      }
      if state.result.Some? && exists k :: k in state.result.value.keys && k.NotText? {
        return false;
      }
      var outcome := if Falsy(state.error) then "EXECUTED" else "EXECUTION_FAILED";
      var reason := Some(ResultReason(state.decisionEventId.value));
      var result := if state.result.Some? then Some(state.result.value.text) else None;
      Publish(Draft(cfg, state.task, w.resultStamp, outcome, reason, result, TextOf(state.error)), w.resultSend);
      return true;
    }

    /** execute_tool, then audit_result. */
    method Execute(state: AgentState, w: World) returns (ok: bool)
      requires Valid() && state.result == None && state.error == None
      requires state.decisionEventId == Some(w.decisionStamp.id)
      modifies this, producer, state
      ensures Valid() && trace == old(trace) + ExecutionTrace(cfg, state.task, w)
      ensures ok <==> ResultBuilds(state.task, w.handler)
    {
      if !w.handler.NoHandler? {
        RecordCall(state.task.toolKey);
      }
      NodeExecuteTool(state, w.handler);
      ghost var called := trace;
      ok := NodeAuditResult(state, w);
      Associate(old(trace), called[|old(trace)|..], if ok then [Audit(ResultDraft(cfg, state.task, w))] else []);
    }

    /** audit_decision, and on ALLOW the execution. */
    method AfterCheck(state: AgentState, w: World) returns (ok: bool)
      requires Valid() && state.result == None && (state.decision == "ALLOW" ==> state.error == None)
      modifies this, producer, state
      ensures Valid()
      ensures trace == old(trace) + DecidedTrace(cfg, state.task, w, old(state.decision), old(state.error))
      ensures ok <==>
        EventBuilds(state.task, old(state.error))
        && (old(state.decision) == "ALLOW" ==> ResultBuilds(state.task, w.handler))
    {
      if !EventBuilds(state.task, state.error) {
        return false;
      }
      ghost var audit := [Audit(DecisionDraft(cfg, state.task, w, state.decision, state.error))];
      Publish(DecisionDraft(cfg, state.task, w, state.decision, state.error), w.decisionSend);
      state.decisionEventId := Some(w.decisionStamp.id);
      if state.decision == "ALLOW" {
        ok := Execute(state, w);
        Associate(old(trace), audit, ExecutionTrace(cfg, state.task, w));
      } else {
        Associate(old(trace), audit, []);
        return true;
      }
    }

    /** fetch_token, load_task and policy_check on a new state. */
    method UpToCheck(task: Task, w: World, ghost v: Verdict) returns (ok: bool, state: AgentState)
      requires v == VerdictIn(cfg, task, w, pep.redis.suspended, pep.redis.counters)
      modifies pep.redis`counters
      ensures fresh(state) && state.task == task && state.result == None
      ensures var check := CheckResult(cfg, task, w.token, v);
        && (ok <==> check.Decided?)
        && (ok ==> state.decision == check.decision && state.error == check.error)
      ensures pep.redis.counters == CountersAfter(cfg, task, w, old(pep.redis.suspended), old(pep.redis.counters))
    {
      state := new AgentState(task);
      if w.token.TokenRaised? {
        ok := false;
      } else {
        if w.token.Granted? {
          state.claims := Some(w.token.claims);
        }
        ok := NodePolicyCheck(state, w, v);
      }
    }

    /** One run; `ok` is false when an exception left the graph. */
    method Run(task: Task, w: World) returns (ok: bool)
      requires Valid()
      modifies this, producer, pep.redis`counters
      ensures Valid()
      ensures trace == old(trace) +
        RunTrace(cfg, task, w, VerdictIn(cfg, task, w, old(pep.redis.suspended), old(pep.redis.counters)))
      ensures pep.redis.counters == CountersAfter(cfg, task, w, old(pep.redis.suspended), old(pep.redis.counters))
      ensures ok <==>
        Completes(cfg, task, w, VerdictIn(cfg, task, w, old(pep.redis.suspended), old(pep.redis.counters)))
    {
      ghost var v := VerdictIn(cfg, task, w, pep.redis.suspended, pep.redis.counters);
      var state;
      ok, state := UpToCheck(task, w, v);
      if ok {
        ok := AfterCheck(state, w);
      }
    }
  }

  lemma Associate<T>(a: seq<T>, b: seq<T>, c: seq<T>)
    ensures a + b + c == a + (b + c)
  {
  }

  lemma DraftsSnoc(trace: seq<Action>, a: Action)
    ensures Drafts(trace + [a]) == Drafts(trace) + if a.Audit? then [a.draft] else []
  {
    assert (trace + [a])[..|trace|] == trace;
  }

  // ------------------------------------------------------------- one run, from outside

  ghost predicate IsAllow(a: Action) {
    a.Audit? && a.draft.fields.decision == "ALLOW"
  }

  /** `r` is the result event of the decision event `d`: same agent, task, action and resource, an
      execution outcome, and the id of `d` in its reason. */
  ghost predicate IsResultOf(r: Action, d: Action) {
    && r.Audit? && d.Audit? && r.draft.fields.decision in {"EXECUTED", "EXECUTION_FAILED"}
    && r.draft.details.decisionReason == Some(ResultReason(d.draft.fields.eventId))
    && r.draft.fields.agentId == d.draft.fields.agentId && r.draft.fields.taskId == d.draft.fields.taskId
    && r.draft.fields.action == d.draft.fields.action && r.draft.fields.resourceArn == d.draft.fields.resourceArn
  }

  ghost predicate IsCallOf(c: Action, d: Action) {
    c.Call? && d.Audit? && c.tool == d.draft.fields.action
  }

  /** How a run ends: without an event, blocked, finished, or broken off between ALLOW and the result
      event because the latter does not validate. */
  datatype Outcome = Silent | Blocked | Finished | BrokenOff

  function OutcomeOf(cfg: AgentConfig, task: Task, w: World, v: Verdict): Outcome {
    match CheckResult(cfg, task, w.token, v)
    case Aborted => Silent
    case Decided(decision, error) =>
      if !EventBuilds(task, error) then Silent else if decision != "ALLOW" then Blocked
      else if ResultBuilds(task, w.handler) then Finished else BrokenOff
  }

  /** The shape of a run that ends in a given way: nothing; one event that is not ALLOW; ALLOW, at
      most one call of its tool and its result event; or ALLOW and the call alone. */
  ghost predicate IsBlock(o: Outcome, b: seq<Action>) {
    match o
    case Silent => b == []
    case Blocked => |b| == 1 && b[0].Audit? && !IsAllow(b[0])
    case Finished =>
      2 <= |b| <= 3 && IsAllow(b[0]) && IsResultOf(b[|b| - 1], b[0]) && (|b| == 3 ==> IsCallOf(b[1], b[0]))
    case BrokenOff => |b| == 2 && IsAllow(b[0]) && IsCallOf(b[1], b[0])
  }

  lemma RunIsBlock(cfg: AgentConfig, task: Task, w: World, v: Verdict)
    ensures IsBlock(OutcomeOf(cfg, task, w, v), RunTrace(cfg, task, w, v))
  {
    match CheckResult(cfg, task, w.token, v)
    case Aborted =>
    case Decided(decision, error) =>
      var t := DecidedTrace(cfg, task, w, decision, error);
      assert EventBuilds(task, error) ==> t[0] == Audit(DecisionDraft(cfg, task, w, decision, error));
      if decision == "ALLOW" && ResultBuilds(task, w.handler) {
        assert t[|t| - 1] == Audit(ResultDraft(cfg, task, w));
      }
  }

  /** A run leaves no event exactly when the token could not be had, when an argument is not text, or
      when the tool is available and either its request cannot be built or the PEP refuses it with a
      message that is not text: every other path is audited. */
  lemma RunIsSilentIff(cfg: AgentConfig, task: Task, w: World, v: Verdict)
    ensures RunTrace(cfg, task, w, v) == [] <==>
      || w.token.TokenRaised?
      || !task.textual
      || (task.toolKey in cfg.available
          && (|| w.token.NotAnObject?
              || (exists t :: t in task.tags && (t.0.NotText? || t.1.NotText?))
              || (exists k :: k in task.contextKeys && k.NotText?)
              || (v.Raised? && !v.message.textual)))
  {
    RunIsBlock(cfg, task, w, v);
  }

  /** With the verdict of the PEP itself, and oracles that report text, the last case is a token bound
      to an address that is not text. */
  lemma AskedRunIsSilentIff(cfg: AgentConfig, task: Task, w: World, suspended: set<string>, counters: Counters)
    requires Asking(cfg, task, w) && SpeakText(w.oracles)
    ensures var ip := BoundAddress(w.token.claims);
      RunTrace(cfg, task, w, VerdictIn(cfg, task, w, suspended, counters)) == [] <==>
        ip.Odd? && !ip.shown.textual
  {
    MessageIsTextIff(
      RequestFor(cfg, task, w.token.claims), if w.suspensionUp then Some(cfg.agentId in suspended) else None,
      CountSeen(cfg, w, counters), w.oracles);
  }

  function CountSeen(cfg: AgentConfig, w: World, counters: Counters): Option<nat> {
    CountTold(counters, (cfg.agentId, Bucket(w.now)), w.now, w.counterFault)
  }

  /** Every layer lets the run through: the token's address, the suspended set if Redis can be read,
      OPA asked with the count if Redis gave one, and Cedar for s3 and iam actions. */
  ghost predicate LayersAgree(cfg: AgentConfig, task: Task, w: World, suspended: set<string>, counters: Counters)
    requires w.token.Granted? && task.toolKey in cfg.available
  {
    var action, count := cfg.available[task.toolKey].action, CountSeen(cfg, w, counters);
    var asked := ActionRequest(
      cfg.agentId, cfg.agentType, w.token.claims, action, task.resourceArn, task.taskId, task.environment,
      cfg.sourceIp, if count.Some? then task.context.(count := count) else task.context);
    && AddressAgrees(w.token.claims, cfg.sourceIp)
    && !(w.suspensionUp && cfg.agentId in suspended)
    && w.oracles.opa(asked).Answer? && w.oracles.opa(asked).effect == ALLOW
    && ("s3:" <= action || "iam:" <= action ==> w.oracles.cedar(asked) == Permitted)
  }

  lemma PermitIffLayersAgree(cfg: AgentConfig, task: Task, w: World, suspended: set<string>, counters: Counters)
    requires w.token.Granted? && task.toolKey in cfg.available
    ensures VerdictIn(cfg, task, w, suspended, counters) == Permit
       <==> LayersAgree(cfg, task, w, suspended, counters)
  {
    PermitIffEveryLayerAgrees(
      RequestFor(cfg, task, w.token.claims), if w.suspensionUp then Some(cfg.agentId in suspended) else None,
      CountSeen(cfg, w, counters), w.oracles);
  }

  /** Complete mediation: the handler of the tool is called exactly when the token was had, the
      registry offers the tool, the request can be built, every layer of the PEP agreed, and there
      is a handler. */
  lemma HandlerRunsIff(cfg: AgentConfig, task: Task, w: World, suspended: set<string>, counters: Counters)
    ensures (exists a :: a in RunTrace(cfg, task, w, VerdictIn(cfg, task, w, suspended, counters)) && a.Call?) <==>
      && w.token.Granted? && task.toolKey in cfg.available && RequestBuilds(task) && !w.handler.NoHandler?
      && LayersAgree(cfg, task, w, suspended, counters)
  {
    CallIffPermitted(cfg, task, w, VerdictIn(cfg, task, w, suspended, counters));
    if w.token.Granted? && task.toolKey in cfg.available {
      PermitIffLayersAgree(cfg, task, w, suspended, counters);
    }
  }

  lemma CallIffPermitted(cfg: AgentConfig, task: Task, w: World, v: Verdict)
    ensures (exists a :: a in RunTrace(cfg, task, w, v) && a.Call?)
       <==> Asking(cfg, task, w) && v == Permit && !w.handler.NoHandler?
  {
    var t := RunTrace(cfg, task, w, v);
    if Asking(cfg, task, w) && v == Permit && !w.handler.NoHandler? {
      assert t[1] == Call(task.toolKey);
      assert t[1] in t;
    }
  }

  /** What the first event of a run records: who did what for which task, when, and the decision: DENY
      for an unavailable tool, ALLOW, or the class of the PEP's exception with its message. */
  lemma DecisionIsRecorded(cfg: AgentConfig, task: Task, w: World, v: Verdict)
    requires RunTrace(cfg, task, w, v) != []
    ensures var a := RunTrace(cfg, task, w, v)[0];
      && a.Audit?
      && var f, d := a.draft.fields, a.draft.details;
         && f.eventId == w.decisionStamp.id && f.timestamp == w.decisionStamp.time
         && f.agentId == cfg.agentId && f.agentType == cfg.agentType && f.taskId == task.taskId
         && f.action == task.toolKey && f.resourceArn == task.resourceArn
         && d.sourceIp == Some(cfg.sourceIp) && d.environment == Some(task.environment)
         && d.schemaVersion == "1.0" && d.executionResult == None && d.executionError == None
         && (task.toolKey !in cfg.available ==>
               && f.decision == "DENY"
               && d.decisionReason == Some("Tool '" + task.toolKey + "' is not available to this agent."))
         && (task.toolKey in cfg.available && v.Permit? ==> f.decision == "ALLOW" && d.decisionReason == None)
         && (task.toolKey in cfg.available && v.Raised? ==>
               f.decision == v.exception && d.decisionReason == Some(v.message.text))
  {
  }

  /** What the last event of a finished run records: the same about the run, the outcome and the error
      of the handler, and its result if that is a dictionary. */
  lemma ResultIsRecorded(cfg: AgentConfig, task: Task, w: World, v: Verdict)
    requires OutcomeOf(cfg, task, w, v) == Finished
    ensures var t := RunTrace(cfg, task, w, v);
      && t != [] && t[|t| - 1].Audit?
      && var f, d := t[|t| - 1].draft.fields, t[|t| - 1].draft.details;
         && f.eventId == w.resultStamp.id && f.timestamp == w.resultStamp.time
         && f.agentId == cfg.agentId && f.agentType == cfg.agentType && f.taskId == task.taskId
         && f.action == task.toolKey && f.resourceArn == task.resourceArn
         && d.sourceIp == Some(cfg.sourceIp) && d.environment == Some(task.environment)
         && d.decisionReason == Some("post-execution update for " + UuidText(w.decisionStamp.id))
         && match w.handler
            case NoHandler =>
              && f.decision == "EXECUTION_FAILED" && d.executionResult == None
              && d.executionError == Some("No handler registered for tool '" + task.toolKey + "'")
            case HandlerRaised(message) =>
              && f.decision == (if message.text == "" then "EXECUTED" else "EXECUTION_FAILED")
              && d.executionError == Some(message.text) && d.executionResult == None
            case Returned(dictionary) =>
              && f.decision == "EXECUTED" && d.executionError == None
              && d.executionResult == if dictionary.Some? then Some(dictionary.value.text) else None
  {
    var t := RunTrace(cfg, task, w, v);
    assert t[|t| - 1] == Audit(ResultDraft(cfg, task, w));
    ExecutedIff(cfg, task, w);
  }

  /** A run breaks off exactly when the PEP permitted it and the handler returned a dictionary with a
      key, or raised with a message, that is not text. */
  lemma BrokenOffIff(cfg: AgentConfig, task: Task, w: World, v: Verdict)
    ensures OutcomeOf(cfg, task, w, v) == BrokenOff <==>
      && Asking(cfg, task, w) && v == Permit
      && (|| (w.handler.Returned? && w.handler.dictionary.Some?
              && exists k :: k in w.handler.dictionary.value.keys && k.NotText?)
          || (w.handler.HandlerRaised? && !w.handler.message.textual))
  {
  }

  /** No exception leaves the graph exactly when the run is blocked or finished. */
  lemma CompletesIff(cfg: AgentConfig, task: Task, w: World, v: Verdict)
    ensures Completes(cfg, task, w, v) <==> OutcomeOf(cfg, task, w, v) in {Blocked, Finished}
  {
  }

  /** EXECUTED is written exactly when the handler returned, or raised with an empty message. */
  lemma ExecutedIff(cfg: AgentConfig, task: Task, w: World)
    ensures ResultDraft(cfg, task, w).fields.decision == "EXECUTED"
       <==> w.handler.Returned? || (w.handler.HandlerRaised? && w.handler.message.text == "")
  {
    assert NoHandlerMessage(task).text[0] == 'N';
  }

  // ------------------------------------------------------------------- whole logs

  datatype RunInput = RunInput(task: Task, world: World, verdict: Verdict)

  function Trace(cfg: AgentConfig, runs: seq<RunInput>): seq<Action> {
    if runs == [] then []
    else
      var r := runs[|runs| - 1];
      Trace(cfg, runs[..|runs| - 1]) + RunTrace(cfg, r.task, r.world, r.verdict)
  }

  function OutcomeOfRun(cfg: AgentConfig, r: RunInput): Outcome {
    OutcomeOf(cfg, r.task, r.world, r.verdict)
  }

  /** How many runs ended in the given way. */
  function CountRuns(cfg: AgentConfig, runs: seq<RunInput>, o: Outcome): nat {
    if runs == [] then 0
    else CountRuns(cfg, runs[..|runs| - 1], o) + if OutcomeOfRun(cfg, runs[|runs| - 1]) == o then 1 else 0
  }

  function Calls(trace: seq<Action>): nat {
    if trace == [] then 0 else Calls(trace[..|trace| - 1]) + if trace[|trace| - 1].Call? then 1 else 0
  }

  /** Every call comes directly after an ALLOW event for its tool. */
  ghost predicate CallsAreAllowed(t: seq<Action>) {
    forall i | 0 <= i < |t| && t[i].Call? :: i > 0 && IsAllow(t[i - 1]) && IsCallOf(t[i], t[i - 1])
  }

  /** The call at `i` is directly followed by the result event of the decision before it. */
  ghost predicate IsClosed(t: seq<Action>, i: int) {
    0 < i < |t| - 1 && IsResultOf(t[i + 1], t[i - 1])
  }

  ghost predicate CallsAreClosed(t: seq<Action>) {
    forall i | 0 <= i < |t| && t[i].Call? :: IsClosed(t, i)
  }

  lemma {:induction false} DraftsAppend(a: seq<Action>, b: seq<Action>)
    ensures Drafts(a + b) == Drafts(a) + Drafts(b) && Calls(a + b) == Calls(a) + Calls(b)
    decreases |b|
  {
    if b == [] {
      assert a + b == a;
    } else {
      var n := |b| - 1;
      assert (a + b)[..|a| + n] == a + b[..n];
      DraftsAppend(a, b[..n]);
    }
  }

  lemma AllowedConcat(a: seq<Action>, b: seq<Action>, o: Outcome)
    requires CallsAreAllowed(a) && IsBlock(o, b)
    ensures CallsAreAllowed(a + b)
  {
    var t := a + b;
    forall i | 0 <= i < |t| && t[i].Call?
      ensures i > 0 && IsAllow(t[i - 1]) && IsCallOf(t[i], t[i - 1])
    {
      if i < |a| {
        assert a[i].Call? && t[i - 1] == a[i - 1];
      } else {
        assert b[i - |a|].Call? && t[i - 1] == b[i - |a| - 1];
      }
    }
  }

  /** A block closes no call but its own, since no decision is called like an execution outcome. */
  ghost predicate OpensWithDecision(b: seq<Action>) {
    b != [] ==> b[0].Audit? && b[0].draft.fields.decision !in {"EXECUTED", "EXECUTION_FAILED"}
  }

  lemma RunOpensWithDecision(cfg: AgentConfig, task: Task, w: World, v: Verdict)
    ensures OpensWithDecision(RunTrace(cfg, task, w, v))
  {
    match CheckResult(cfg, task, w.token, v)
    case Aborted =>
    case Decided(decision, error) =>
      var t := DecidedTrace(cfg, task, w, decision, error);
      assert EventBuilds(task, error) ==> t[0] == Audit(DecisionDraft(cfg, task, w, decision, error));
  }

  lemma ClosedConcat(a: seq<Action>, b: seq<Action>, o: Outcome)
    requires IsBlock(o, b) && OpensWithDecision(b)
    ensures CallsAreClosed(a + b) <==> CallsAreClosed(a) && o != BrokenOff
  {
    var t := a + b;
    forall i | 0 <= i < |a| && a[i].Call? ensures IsClosed(t, i) <==> IsClosed(a, i) {
      assert t[i] == a[i];
      if 0 < i < |a| - 1 {
        assert t[i - 1] == a[i - 1] && t[i + 1] == a[i + 1];
      } else if i == |a| - 1 && b != [] {
        assert t[i + 1] == b[0];
      }
    }
    forall i | 0 <= i < |b| && b[i].Call? ensures IsClosed(t, |a| + i) <==> o != BrokenOff {
      assert i == 1 && t[|a| + i] == b[i] && t[|a| + i - 1] == b[0];
      assert o != BrokenOff ==> t[|a| + i + 1] == b[2];
    }
    if CallsAreClosed(t) {
      forall i | 0 <= i < |a| && a[i].Call? ensures IsClosed(a, i) {
        assert t[i].Call?;
      }
    }
    if CallsAreClosed(a) && o != BrokenOff {
      forall i | 0 <= i < |t| && t[i].Call? ensures IsClosed(t, i) {
        if i < |a| {
          assert a[i].Call?;
        } else {
          assert b[i - |a|].Call?;
        }
      }
    }
  }

  lemma BlockCounts(cfg: AgentConfig, task: Task, w: World, v: Verdict)
    ensures var t, o := RunTrace(cfg, task, w, v), OutcomeOf(cfg, task, w, v);
      && |Drafts(t)| == (match o case Silent => 0 case Blocked => 1 case Finished => 2 case BrokenOff => 1)
      && (o in {Silent, Blocked} ==> Calls(t) == 0) && (o == BrokenOff ==> Calls(t) == 1) && Calls(t) <= 1
  {
    RunIsBlock(cfg, task, w, v);
    var t := RunTrace(cfg, task, w, v);
    if |t| == 1 {
      assert t == [t[0]];
      CountsOfOne(t[0]);
    } else if |t| == 2 {
      assert t == [t[0]] + [t[1]];
      CountsOfOne(t[0]);
      CountsOfOne(t[1]);
      DraftsAppend([t[0]], [t[1]]);
    } else if |t| == 3 {
      assert t == [t[0]] + [t[1]] + [t[2]];
      CountsOfOne(t[0]);
      CountsOfOne(t[1]);
      CountsOfOne(t[2]);
      DraftsAppend([t[0]], [t[1]]);
      DraftsAppend([t[0]] + [t[1]], [t[2]]);
    }
  }

  lemma CountsOfOne(a: Action)
    ensures |Drafts([a])| == (if a.Audit? then 1 else 0) && Calls([a]) == (if a.Call? then 1 else 0)
  {
    assert [a][..0] == [];
  }

  /** Over any number of runs of one agent, every handler call comes directly after its ALLOW event. */
  lemma {:induction false} EveryCallIsAllowed(cfg: AgentConfig, runs: seq<RunInput>)
    ensures CallsAreAllowed(Trace(cfg, runs))
  {
    if runs != [] {
      var n := |runs| - 1;
      var r := runs[n];
      EveryCallIsAllowed(cfg, runs[..n]);
      RunIsBlock(cfg, r.task, r.world, r.verdict);
      AllowedConcat(Trace(cfg, runs[..n]), RunTrace(cfg, r.task, r.world, r.verdict), OutcomeOfRun(cfg, r));
    }
  }

  /** And every call is directly followed by its result event exactly when no allowed run's handler
      returned a dictionary with a key, or raised with a message, that is not text. */
  lemma {:induction false} EveryCallIsClosedIff(cfg: AgentConfig, runs: seq<RunInput>)
    ensures CallsAreClosed(Trace(cfg, runs)) <==> forall r | r in runs :: OutcomeOfRun(cfg, r) != BrokenOff
  {
    if runs != [] {
      var n := |runs| - 1;
      var r := runs[n];
      EveryCallIsClosedIff(cfg, runs[..n]);
      RunIsBlock(cfg, r.task, r.world, r.verdict);
      RunOpensWithDecision(cfg, r.task, r.world, r.verdict);
      ClosedConcat(Trace(cfg, runs[..n]), RunTrace(cfg, r.task, r.world, r.verdict), OutcomeOfRun(cfg, r));
      assert forall q :: q in runs <==> q in runs[..n] || q == r;
    }
  }

  /** The number of events is exact: one for every blocked or broken-off run, two for every finished
      one; and calls lie between the broken-off runs and all allowed ones. */
  lemma {:induction false} EventCountIsExact(cfg: AgentConfig, runs: seq<RunInput>)
    ensures |Drafts(Trace(cfg, runs))| ==
      CountRuns(cfg, runs, Blocked) + CountRuns(cfg, runs, BrokenOff) + 2 * CountRuns(cfg, runs, Finished)
    ensures CountRuns(cfg, runs, BrokenOff) <= Calls(Trace(cfg, runs))
      <= CountRuns(cfg, runs, BrokenOff) + CountRuns(cfg, runs, Finished)
  {
    if runs != [] {
      var n := |runs| - 1;
      var r := runs[n];
      EventCountIsExact(cfg, runs[..n]);
      BlockCounts(cfg, r.task, r.world, r.verdict);
      DraftsAppend(Trace(cfg, runs[..n]), RunTrace(cfg, r.task, r.world, r.verdict));
    }
  }

  /** And the log those runs publish verifies from GENESIS. */
  lemma EveryLogVerifies(hash: Hasher, cfg: AgentConfig, runs: seq<RunInput>)
    ensures var log := Published(hash, Drafts(Trace(cfg, runs)));
      && Verified(hash, log) && Rooted(GENESIS_HASH, log)
      && |log| ==
        CountRuns(cfg, runs, Blocked) + CountRuns(cfg, runs, BrokenOff) + 2 * CountRuns(cfg, runs, Finished)
  {
    EventCountIsExact(cfg, runs);
    ChainFromVerifies(hash, GENESIS_HASH, Drafts(Trace(cfg, runs)));
  }
}
