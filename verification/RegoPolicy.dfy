/** policy/rego/nhi: the composed `effect` rule of main.rego (policy version 2.0.0) and its parts. */
module RegoPolicy {
  import opened Text
  import ScopeCheck
  import RateLimit

  datatype Decision = ALLOW | DENY | REQUIRE_APPROVAL

  /** The `active` claim: missing, false, true, or any other value. */
  datatype Activity = Missing | Inactive | Active | Unusual

  /** A source address in the claims: text, which is "" when there is none, or whatever else a JSON
      document may hold there, as Python prints it. */
  datatype Address = Plain(text: string) | Odd(shown: Message)

  /** The address in the claim `agent_context`, or the error when that is not an object. */
  datatype AgentContext = Holding(address: Address) | NoObject(error: string)

  /** `others` is the number of claims besides `active`. */
  datatype Claims = Claims(
    others: nat, active: Activity, agentId: Option<string>, scope: Option<string>, scopes: seq<string>,
    sourceIp: Address, agentContext: AgentContext)

  const NO_ADDRESS := Plain("")

  /** Rego reads an undefined or false value as absent. */
  datatype Context = Context(
    count: Option<int>, limit: Option<int>, window: Option<(int, int)>, incident: bool,
    allowedEnvironments: Option<seq<string>>, preApproved: bool)

  datatype ActionRequest = ActionRequest(
    agentId: string, agentType: string, claims: Claims, action: string, resourceArn: string,
    taskId: string, environment: string, sourceIp: string, context: Context)

  const DEFAULT_LIMIT := 30

  const DESTRUCTIVE_ACTIONS: set<string> := {
    "s3:DeleteObject", "s3:DeleteBucket", "ec2:TerminateInstances",
    "iam:DeleteRole", "iam:DeleteUser", "iam:DetachRolePolicy"}

  const IAM_WRITE_ACTIONS: set<string> := {"iam:CreateUser", "iam:AttachRolePolicy"}

  /** `count(input.token_claims)`. */
  function ClaimCount(c: Claims): nat {
    c.others + if c.active == Missing then 0 else 1
  }

  predicate ValidToken(r: ActionRequest) {
    || (r.claims.active == Active && r.claims.agentId == Some(r.agentId))
    || (ClaimCount(r.claims) > 0 && r.claims.active in {Missing, Inactive})
  }

  predicate WithinWindow(r: ActionRequest, hour: int) {
    || r.context.window.None?
    || (r.agentType == "SecOpsAgent" && r.context.incident)
    || (r.context.window.Some? && r.context.window.value.0 <= hour < r.context.window.value.1)
  }

  predicate TaskInScope(r: ActionRequest) {
    && r.taskId != ""
    && (r.context.allowedEnvironments.None? || r.environment in r.context.allowedEnvironments.value)
  }

  function Limit(r: ActionRequest): int {
    if r.context.limit.Some? then r.context.limit.value else DEFAULT_LIMIT
  }

  predicate WithinRateLimit(r: ActionRequest) {
    RateLimit.Passes(r.context.count, Limit(r))
  }

  predicate RequiresApproval(r: ActionRequest) {
    && (r.action in DESTRUCTIVE_ACTIONS || r.action in IAM_WRITE_ACTIONS || r.agentType == "ProvisionerAgent")
    && !r.context.preApproved
  }

  ghost predicate SubPoliciesPass(r: ActionRequest, hour: int) {
    && ValidToken(r)
    && ScopeCheck.ActionInScope(r.action, r.claims.scope, r.claims.scopes)
    && WithinWindow(r, hour) && TaskInScope(r) && WithinRateLimit(r)
  }

  /** The bodies of the two `effect` rules; DENY is the default when neither fires. */
  ghost predicate Fires(r: ActionRequest, hour: int, d: Decision) {
    match d
    case ALLOW => SubPoliciesPass(r, hour) && !RequiresApproval(r)
    case REQUIRE_APPROVAL => SubPoliciesPass(r, hour) && RequiresApproval(r)
    case DENY => false
  }

  ghost function Effect(r: ActionRequest, hour: int): Decision {
    if Fires(r, hour, ALLOW) then ALLOW
    else if Fires(r, hour, REQUIRE_APPROVAL) then REQUIRE_APPROVAL
    else DENY
  }

  /** The complete rule never has two values, so evaluation never fails with a conflict. */
  lemma EffectIsUnambiguous(r: ActionRequest, hour: int, d: Decision)
    ensures Fires(r, hour, d) ==> Effect(r, hour) == d
    ensures d != DENY ==> (Effect(r, hour) == d <==> Fires(r, hour, d))
  {
  }

  // ----------------------------------------------------------- laws of the effect

  /** What claims are good for a request: a live token of this very agent; or, in the fallback, any
      claims without an `active` claim, or with one that is false. */
  predicate ClaimsServe(c: Claims, agentId: string) {
    match c.active
    case Active => c.agentId == Some(agentId)
    case Unusual => false
    case Inactive => true
    case Missing => c.others > 0
  }

  /** The claims carry the scope, as a part of the text or as an element of the list. */
  ghost predicate Carries(c: Claims, scope: string) {
    (c.scope.Some? && ScopeCheck.Contains(c.scope.value, scope)) || scope in c.scopes
  }

  /** An agent's live token is no good for another agent, whatever the rest says; nor is a token whose
      `active` claim is neither true nor false, nor an empty set of claims. */
  lemma OtherTokensAreDenied(r: ActionRequest, hour: int)
    requires !ClaimsServe(r.claims, r.agentId)
    ensures Effect(r, hour) == DENY
  {
  }

  /** An action that the policy does not know is denied, and so is one whose scope the claims do not
      carry. */
  lemma ScopeIsNeeded(r: ActionRequest, hour: int)
    requires r.action in ScopeCheck.ACTION_SCOPE_MAP ==> !Carries(r.claims, ScopeCheck.ACTION_SCOPE_MAP[r.action])
    ensures Effect(r, hour) == DENY
  {
  }

  /** Outside its declared hours, without a SecOps incident, a request is denied. */
  lemma HoursAreKept(r: ActionRequest, hour: int)
    requires r.context.window.Some? && !(r.agentType == "SecOpsAgent" && r.context.incident)
    requires hour < r.context.window.value.0 || r.context.window.value.1 <= hour
    ensures Effect(r, hour) == DENY
  {
  }

  /** A request without a task, or from an environment that is not among those declared, is denied. */
  lemma TaskIsNeeded(r: ActionRequest, hour: int)
    requires r.taskId == ""
      || (r.context.allowedEnvironments.Some? && r.environment !in r.context.allowedEnvironments.value)
    ensures Effect(r, hour) == DENY
  {
  }

  /** A count that has reached the declared limit, or thirty where none is declared, is denied. */
  lemma RateIsKept(r: ActionRequest, hour: int)
    requires r.context.count.Some?
      && r.context.count.value >= (if r.context.limit.Some? then r.context.limit.value else 30)
    ensures Effect(r, hour) == DENY
  {
  }

  /** The actions that need approval whoever asks. */
  predicate Sensitive(action: string) {
    || action in ["s3:DeleteObject", "s3:DeleteBucket", "ec2:TerminateInstances"]
    || action in ["iam:DeleteRole", "iam:DeleteUser", "iam:DetachRolePolicy", "iam:CreateUser", "iam:AttachRolePolicy"]
  }

  /** The catalogue marks a tool destructive exactly when its action is one of them. */
  lemma DestructiveToolsAreSensitive(tool: string)
    requires tool in ScopeCheck.TOOL_CATALOG
    ensures ScopeCheck.TOOL_CATALOG[tool].destructive <==> Sensitive(ScopeCheck.TOOL_CATALOG[tool].action)
  {
  }

  /** Without prior approval a sensitive action, and any action of a ProvisionerAgent, is never allowed;
      with it, or for anything else, approval is never asked. */
  lemma ApprovalIsNeededIff(r: ActionRequest, hour: int)
    ensures var gated := (Sensitive(r.action) || r.agentType == "ProvisionerAgent") && !r.context.preApproved;
      && (gated ==> Effect(r, hour) != ALLOW)
      && (!gated ==> Effect(r, hour) != REQUIRE_APPROVAL)
  {
  }

  /** Nothing else is denied: the laws above are all there are. */
  lemma DeniedIff(r: ActionRequest, hour: int)
    ensures Effect(r, hour) != DENY <==>
      && ClaimsServe(r.claims, r.agentId)
      && r.action in ScopeCheck.ACTION_SCOPE_MAP && Carries(r.claims, ScopeCheck.ACTION_SCOPE_MAP[r.action])
      && (r.context.window.Some? ==>
            || (r.agentType == "SecOpsAgent" && r.context.incident)
            || r.context.window.value.0 <= hour < r.context.window.value.1)
      && r.taskId != ""
      && (r.context.allowedEnvironments.Some? ==> r.environment in r.context.allowedEnvironments.value)
      && (r.context.count.Some? ==>
            r.context.count.value < if r.context.limit.Some? then r.context.limit.value else 30)
  {
  }

  /** The fallback meant for claims without an `active` key also takes claims that say the token is
      inactive: such a request is refused exactly when some other sub-policy refuses it. */
  lemma InactiveEffectIff(r: ActionRequest, hour: int)
    requires r.claims.active == Inactive
    ensures Effect(r, hour) != DENY <==>
      && ScopeCheck.ActionInScope(r.action, r.claims.scope, r.claims.scopes)
      && WithinWindow(r, hour) && TaskInScope(r) && WithinRateLimit(r)
  {
  }

  /** An agent reading an object with a token reported inactive, its scopes still in the reply. */
  const INACTIVE_READ := ActionRequest(
    "agent-1", "DataAgent",
    Claims(1, Inactive, None, Some("cloud:s3:read"), [], NO_ADDRESS, Holding(NO_ADDRESS)),
    "s3:GetObject", "arn:aws:s3:::bucket/key", "task-1", "dev", "10.0.0.1",
    Context(None, None, None, false, None, false))

  /** Such a request is allowed. */
  lemma InactiveReadIsAllowed(hour: int)
    ensures INACTIVE_READ.claims.active == Inactive && Effect(INACTIVE_READ, hour) == ALLOW
  {
    ScopeCheck.S3ReadToolsAgree("s3_get_object");
    ScopeCheck.ContainsItself("cloud:s3:read");
  }

  /** The bare reply for a dead token (section 2.2 of RFC 7662), which carries no scope, is denied. */
  lemma BareInactiveReplyIsDenied(r: ActionRequest, hour: int)
    requires r.claims == Claims(0, Inactive, None, None, [], NO_ADDRESS, Holding(NO_ADDRESS))
    ensures Effect(r, hour) == DENY
  {
  }

  function WithCount(r: ActionRequest, n: nat): ActionRequest {
    r.(context := r.context.(count := Some(n)))
  }

  /** The PEP puts its count into the request's context; without one the context stays as it is. */
  function Inject(r: ActionRequest, count: Option<nat>): ActionRequest {
    match count
    case None => r
    case Some(n) => WithCount(r, n)
  }

  // ------------------------------------------------------ the policy over many requests

  /** A request reaching the rate counter, where Redis may be lost, and then the policy, at some hour
      of the day; `evicted` names counters that Redis may drop just before. */
  datatype Visit = Visit(
    request: ActionRequest, at: int, fault: RateLimit.CounterFault, evicted: set<RateLimit.Key>, hour: int)

  function ArrivalOf(v: Visit): RateLimit.Arrival {
    RateLimit.Arrival(v.request.agentId, v.at, v.fault, v.evicted)
  }

  function Arrivals(visits: seq<Visit>): seq<RateLimit.Arrival> {
    if visits == [] then [] else Arrivals(visits[..|visits| - 1]) + [ArrivalOf(visits[|visits| - 1])]
  }

  /** How many of the visits picked by `where` end with ALLOW. */
  ghost function Allowed(visits: seq<Visit>, where: RateLimit.Arrival -> bool): nat {
    if visits == [] then 0
    else
      var before, v := visits[..|visits| - 1], visits[|visits| - 1];
      var asked := Inject(v.request, RateLimit.Injected(Arrivals(before), ArrivalOf(v)));
      Allowed(before, where) + if where(ArrivalOf(v)) && Effect(asked, v.hour) == ALLOW then 1 else 0
  }

  lemma AllowMeansWithinRate(r: ActionRequest, count: Option<nat>, hour: int)
    requires Effect(Inject(r, count), hour) == ALLOW
    ensures RateLimit.Passes(count, Limit(r))
  {
  }

  lemma {:induction false} AllowedWithinAdmitted(visits: seq<Visit>, limit: int, where: RateLimit.Arrival -> bool)
    requires forall v | v in visits && where(ArrivalOf(v)) :: Limit(v.request) <= limit
    ensures Allowed(visits, where) <= RateLimit.Admitted(Arrivals(visits), limit, where)
  {
    if visits != [] {
      var before, v := visits[..|visits| - 1], visits[|visits| - 1];
      AllowedWithinAdmitted(before, limit, where);
      assert Arrivals(visits)[..|Arrivals(before)|] == Arrivals(before);
      var n := RateLimit.Injected(Arrivals(before), ArrivalOf(v));
      if Effect(Inject(v.request, n), v.hour) == ALLOW {
        AllowMeansWithinRate(v.request, n, v.hour);
      }
    }
  }

  /** An agent none of whose requests carries a limit above `limit` gets at most `2 * (limit - 1)`
      ALLOWs in any sixty seconds, however its requests are spread over PEPs, whatever they ask
      for, and whatever limits other agents have; besides those that slip through without a count. */
  lemma AllowsInAnyMinute(visits: seq<Visit>, limit: int, agent: string, start: int)
    requires RateLimit.InOrder(Arrivals(visits))
    requires forall v | v in visits && v.request.agentId == agent :: Limit(v.request) <= limit
    ensures var window := RateLimit.InWindow(agent, start);
      && Allowed(visits, window)
         <= 2 * RateLimit.Quota(limit) + RateLimit.Slipped(Arrivals(visits), limit, window)
      && ((forall v | v in visits && window(ArrivalOf(v)) :: v.fault == RateLimit.NoFault) ==>
            Allowed(visits, window) <= 2 * RateLimit.Quota(limit))
  {
    var window := RateLimit.InWindow(agent, start);
    AllowedWithinAdmitted(visits, limit, window);
    RateLimit.WindowAdmitsTwiceQuota(Arrivals(visits), limit, agent, start);
    if forall v | v in visits && window(ArrivalOf(v)) :: v.fault == RateLimit.NoFault {
      ArrivalsAreVisits(visits);
      RateLimit.NothingSlips(Arrivals(visits), limit, window);
    }
  }

  lemma {:induction false} ArrivalsAreVisits(visits: seq<Visit>)
    ensures forall a | a in Arrivals(visits) :: exists v :: v in visits && ArrivalOf(v) == a
  {
    if visits != [] {
      ArrivalsAreVisits(visits[..|visits| - 1]);
    }
  }

  /** The term cannot be dropped: while INCR fails, an allowed request is allowed any number of times. */
  lemma {:induction false} LostCountsAreUnlimited(v: Visit, n: nat, where: RateLimit.Arrival -> bool)
    requires v.fault == RateLimit.AtIncr && where(ArrivalOf(v)) && Effect(v.request, v.hour) == ALLOW
    ensures Allowed(seq(n, _ => v), where) == n
  {
    if n > 0 {
      LostCountsAreUnlimited(v, n - 1, where);
      assert seq(n, _ => v)[..n - 1] == seq(n - 1, _ => v);
    }
  }
}
