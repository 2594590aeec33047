/** pep/client.py: the layered gate in front of every tool call. OPA, Cedar and the approval
    queue are oracles; Redis is a shared object that may be unreachable at any command. */
module Pep {
  import opened Text
  import opened RegoPolicy
  import opened RateLimit

  /** Class name of a Python exception. None of them is called like a decision of the log. */
  type Name = s: string | s !in {"ALLOW", "EXECUTED", "EXECUTION_FAILED"} witness "Exception"

  /** `Malformed` is any other exception of sending the request or of reading the answer. */
  datatype OpaReply =
    | Unreachable
    | HttpError(status: string)
    | Malformed(exception: Name, message: Message)
    | Answer(effect: Decision, reason: string, policyRef: string)
  datatype CedarReply = Permitted | Forbidden(reason: Message) | CedarRaised(exception: Name, message: Message)
  datatype QueueReply = Queued(id: string) | QueueRaised(exception: Name, message: Message)

  datatype Oracles = Oracles(opa: ActionRequest -> OpaReply, cedar: ActionRequest -> CedarReply, queue: QueueReply)

  datatype Verdict = Permit | Raised(exception: Name, message: Message)

  /** What the address check finds: nothing to object to, another address, or claims that it cannot
      read. */
  datatype Binding = Unviolated | Violated(bound: Message) | Unreadable(error: string)

  function Shown(a: Address): Message {
    match a
    case Plain(text) => Message(text, true)
    case Odd(shown) => shown
  }

  /** The address of the claims comes first, then the one of the agent context. An address that is
      not text equals none. */
  function IpBinding(r: ActionRequest): Binding {
    var c := r.claims;
    if c.sourceIp == NO_ADDRESS && c.agentContext.NoObject? then Unreadable(c.agentContext.error)
    else
      var ip := if c.sourceIp != NO_ADDRESS then c.sourceIp else c.agentContext.address;
      if ip == NO_ADDRESS || ip == Plain(r.sourceIp) then Unviolated else Violated(Shown(ip))
  }

  predicate IpBound(r: ActionRequest) {
    IpBinding(r).Unviolated?
  }

  /** The token may be used from an address: the one at the top of its claims if there is any, and
      otherwise the one in the agent context, which must be an object, if there is any there. */
  predicate AddressAgrees(c: Claims, ip: string) {
    && (c.sourceIp != Plain("") ==> c.sourceIp == Plain(ip))
    && (c.sourceIp == Plain("") ==> c.agentContext.Holding?)
    && (c.sourceIp == Plain("") && c.agentContext.Holding? && c.agentContext.address != Plain("") ==>
          c.agentContext.address == Plain(ip))
  }

  lemma AddressLayerIff(r: ActionRequest)
    ensures IpBound(r) <==> AddressAgrees(r.claims, r.sourceIp)
  {
  }

  predicate CedarGoverned(action: string) {
    "s3:" <= action || "iam:" <= action
  }

  function Denial(action: string, reason: Message, policyRef: string): Verdict {
    Raised("PolicyDenialError",
           Message("DENY [" + policyRef + "] \U{2014} " + action + ": " + reason.text, reason.textual))
  }

  const UNREACHABLE := "Policy engine unreachable \U{2014} fail-closed default"
  const HTTP_STATUS := "Policy engine returned HTTP "
  const CEDAR_DENIED := "Cedar resource policy denied: "

  function CedarGate(r: ActionRequest, o: Oracles): Verdict {
    if !CedarGoverned(r.action) then Permit
    else match o.cedar(r)
      case Permitted => Permit
      case Forbidden(reason) =>
        Denial(r.action, Message(CEDAR_DENIED + reason.text, reason.textual), "nhi.cedar.resource_policy")
      case CedarRaised(exception, message) => Raised(exception, message)
  }

  function ApprovalRequired(r: ActionRequest, queue: QueueReply): Verdict {
    match queue
    case Queued(id) => Raised("ApprovalRequiredError",
      Message("REQUIRE_APPROVAL \U{2014} " + r.action + " on " + r.resourceArn + " (request_id=" + id + ")", true))
    case QueueRaised(exception, message) => Raised(exception, message)
  }

  function AfterOpa(r: ActionRequest, o: Oracles): Verdict {
    match o.opa(r)
    case Unreachable => Denial(r.action, Message(UNREACHABLE, true), "pep.fail_closed")
    case HttpError(status) => Denial(r.action, Message(HTTP_STATUS + status, true), "pep.fail_closed")
    case Malformed(exception, message) => Raised(exception, message)
    case Answer(DENY, reason, policyRef) => Denial(r.action, Message(reason, true), policyRef)
    case Answer(REQUIRE_APPROVAL, _, _) => ApprovalRequired(r, o.queue)
    case Answer(ALLOW, _, _) => CedarGate(r, o)
  }

  function IpViolation(r: ActionRequest): Verdict
    requires !IpBound(r)
  {
    match IpBinding(r)
    case Violated(bound) =>
      Denial(r.action,
             Message("Token IP binding violation: token bound to " + bound.text + ", request from " + r.sourceIp,
                     bound.textual),
             "pep.ip_binding")
    case Unreadable(error) => Raised("AttributeError", Message(error, true))
  }

  function Suspended(r: ActionRequest): Verdict {
    Denial(r.action, Message("Identity " + r.agentId + " is suspended", true), "pep.identity_suspended")
  }

  /** The outcome of `enforce`: `suspended` and `count` are what Redis said, if it answered. */
  function Decide(r: ActionRequest, suspended: Option<bool>, count: Option<nat>, o: Oracles): Verdict {
    if !IpBound(r) then IpViolation(r)
    else if suspended == Some(true) then Suspended(r)
    else AfterOpa(Inject(r, count), o)
  }

  class Redis {
    var suspended: set<string>
    var counters: Counters

    constructor ()
      ensures suspended == {} && counters == map[]
    {
      suspended, counters := {}, map[];
    }
  }

  class PolicyEnforcementPoint {
    const redis: Redis

    constructor (redis: Redis)
      ensures this.redis == redis
    {
      this.redis := redis;
    }

    method CheckIpBinding(r: ActionRequest) returns (denied: Option<Verdict>)
      ensures denied.Some? <==> !AddressAgrees(r.claims, r.sourceIp)
      ensures forall s, c, o :: denied.Some? ==> denied.value == Decide(r, s, c, o)
    {
      var tokenIp := r.claims.sourceIp;
      if tokenIp == NO_ADDRESS {
        if r.claims.agentContext.NoObject? {
          return Some(Raised("AttributeError", Message(r.claims.agentContext.error, true)));
        }
        tokenIp := r.claims.agentContext.address;
      }
      if tokenIp != NO_ADDRESS && tokenIp != Plain(r.sourceIp) {
        return Some(IpViolation(r));
      }
      return None;
    }

    /** An unreachable Redis lets the request through. */
    method CheckSuspension(r: ActionRequest, up: bool) returns (suspended: Option<bool>)
      ensures suspended == if up then Some(r.agentId in redis.suspended) else None
      ensures forall c, o | IpBound(r) ::
        Decide(r, suspended, c, o) == if suspended == Some(true) then Suspended(r) else AfterOpa(Inject(r, c), o)
    {
      if !up {
        return None;
      }
      return Some(r.agentId in redis.suspended);
    }

    method InjectRateLimitCount(r: ActionRequest, now: int, fault: CounterFault) returns (count: Option<nat>)
      modifies redis`counters
      ensures var k := (r.agentId, Bucket(now));
        && count == CountTold(old(redis.counters), k, now, fault)
        && redis.counters == Incr(old(redis.counters), k, now, fault)
    {
      if fault == AtIncr {
        return None;
      }
      var k := (r.agentId, Bucket(now));
      if k in redis.counters && !Expired(redis.counters[k], now) {
        redis.counters := redis.counters[k := redis.counters[k].(count := redis.counters[k].count + 1)];
      } else {
        redis.counters := redis.counters[k := Counter(1, None)];
      }
      if fault == AtReply {
        return None;
      }
      var n := redis.counters[k].count;
      if n == 1 {
        if fault == AtExpire {
          return None;
        }
        redis.counters := redis.counters[k := Counter(1, Some(now + COUNTER_TTL))];
      }
      return Some(n);
    }

    /** `asked` tells whether OPA was consulted. */
    method Enforce(r: ActionRequest, now: int, suspensionUp: bool, fault: CounterFault, o: Oracles)
      returns (v: Verdict, asked: bool)
      modifies redis`counters
      ensures v == Verdict(r, now, suspensionUp, fault, o, old(redis.suspended), old(redis.counters))
      ensures asked <==> Asks(EnforceCall(r, now, suspensionUp, fault, redis.suspended))
      ensures redis.counters == Counted(old(redis.counters), EnforceCall(r, now, suspensionUp, fault, redis.suspended))
    {
      var denied := CheckIpBinding(r);
      if denied.Some? {
        assert denied.value == Decide(r, None, None, o);
        return denied.value, false;
      }
      var suspended := CheckSuspension(r, suspensionUp);
      if suspended == Some(true) {
        return Suspended(r), false;
      }
      var count := InjectRateLimitCount(r, now, fault);
      return AfterOpa(Inject(r, count), o), true;
    }

    /** The verdict as a function of the request, the clock, the oracles and the state of Redis. */
    static function Verdict(
      r: ActionRequest, now: int, suspensionUp: bool, fault: CounterFault, o: Oracles,
      suspended: set<string>, counters: Counters): Verdict
    {
      Decide(
        r,
        if suspensionUp then Some(r.agentId in suspended) else None,
        CountTold(counters, (r.agentId, Bucket(now)), now, fault),
        o)
    }
  }

  // ------------------------------------------------------------ many calls, one Redis

  /** A call of `enforce`, by any PEP, with the suspended set as it then is. */
  datatype EnforceCall = EnforceCall(
    request: ActionRequest, now: int, suspensionUp: bool, fault: CounterFault, suspended: set<string>)

  /** The call gets past address and suspension. */
  predicate Asks(c: EnforceCall) {
    AddressAgrees(c.request.claims, c.request.sourceIp) && !(c.suspensionUp && c.request.agentId in c.suspended)
  }

  /** Which calls those are; the others are refused, whatever OPA and Cedar would have said. */
  lemma AsksIff(c: EnforceCall, counters: Counters, o: Oracles)
    ensures Asks(c) <==>
      AddressAgrees(c.request.claims, c.request.sourceIp)
      && (c.suspensionUp ==> c.request.agentId !in c.suspended)
    ensures !Asks(c) ==>
      && Counted(counters, c) == counters
      && PolicyEnforcementPoint.Verdict(
           c.request, c.now, c.suspensionUp, c.fault, o, c.suspended, counters).Raised?
  {
  }

  /** The counters after one call that can reach them. */
  function Counted(counters: Counters, c: EnforceCall): Counters {
    if Asks(c) then Incr(counters, (c.request.agentId, Bucket(c.now)), c.now, c.fault) else counters
  }

  function CountersAfterCalls(calls: seq<EnforceCall>): Counters {
    if calls == [] then map[] else Counted(CountersAfterCalls(calls[..|calls| - 1]), calls[|calls| - 1])
  }

  function ArrivalOfCall(c: EnforceCall): Arrival {
    Arrival(c.request.agentId, c.now, c.fault, {})
  }

  function AskedArrivals(calls: seq<EnforceCall>): seq<Arrival> {
    if calls == [] then []
    else
      var c := calls[|calls| - 1];
      AskedArrivals(calls[..|calls| - 1]) + if Asks(c) then [ArrivalOfCall(c)] else []
  }

  lemma {:induction false} CountersAreArrivals(calls: seq<EnforceCall>)
    ensures CountersAfterCalls(calls) == After(AskedArrivals(calls))
  {
    if calls != [] {
      var before, c := calls[..|calls| - 1], calls[|calls| - 1];
      CountersAreArrivals(before);
      if Asks(c) {
        EvictNothing(After(AskedArrivals(before)), c.now);
        assert (AskedArrivals(before) + [ArrivalOfCall(c)])[..|AskedArrivals(before)|] == AskedArrivals(before);
      } else {
        assert AskedArrivals(calls) == AskedArrivals(before);
      }
    }
  }

  /** A run of `enforce` calls from empty counters, losing Redis anywhere, is a run of the rate
      counter over those calls that get past address and suspension, and OPA is asked with the count
      injected there. */
  lemma CallsAreArrivals(calls: seq<EnforceCall>, next: EnforceCall, o: Oracles)
    requires Asks(next)
    ensures CountersAfterCalls(calls) == After(AskedArrivals(calls))
    ensures
      PolicyEnforcementPoint.Verdict(
        next.request, next.now, next.suspensionUp, next.fault, o, next.suspended, CountersAfterCalls(calls))
      == AfterOpa(Inject(next.request, Injected(AskedArrivals(calls), ArrivalOfCall(next))), o)
  {
    CountersAreArrivals(calls);
    EvictNothing(After(AskedArrivals(calls)), next.now);
  }

  lemma EvictNothing(c: Counters, now: int)
    ensures Evict(c, now, {}) == c
  {
  }

  /** `execute_tool`: the tool function is called exactly when `enforce` returned. */
  method ExecuteTool(
    pep: PolicyEnforcementPoint, r: ActionRequest, now: int, suspensionUp: bool, fault: CounterFault, o: Oracles)
    returns (v: Verdict, called: bool)
    modifies pep.redis`counters
    ensures v == PolicyEnforcementPoint.Verdict(
      r, now, suspensionUp, fault, o, old(pep.redis.suspended), old(pep.redis.counters))
    ensures called <==> v == Permit
  {
    var verdict, _ := pep.Enforce(r, now, suspensionUp, fault, o);
    if verdict.Raised? {
      return verdict, false;
    }
    return verdict, true;
  }

  /** `enforce` returns normally exactly when every layer agrees. A failing OPA, a malformed answer
      or a failing Cedar never opens the gate; a silent Redis only takes its own layer away. */
  lemma PermitIffEveryLayerAgrees(r: ActionRequest, suspended: Option<bool>, count: Option<nat>, o: Oracles)
    ensures Decide(r, suspended, count, o) == Permit <==>
      && AddressAgrees(r.claims, r.sourceIp)
      && suspended != Some(true)
      && var asked := if count.Some? then r.(context := r.context.(count := count)) else r;
         && o.opa(asked).Answer? && o.opa(asked).effect == ALLOW
         && ("s3:" <= r.action || "iam:" <= r.action ==> o.cedar(asked) == Permitted)
  {
  }

  /** Which class of exception a refusal has, by the layer that refuses: the PEP's own denial for the
      address, the suspension, OPA's DENY or silence, and Cedar's; its other class for a queued
      approval; and whatever a layer raised by itself. */
  lemma RefusalNamesTheLayer(r: ActionRequest, suspended: Option<bool>, count: Option<nat>, o: Oracles)
    ensures var v, reply := Decide(r, suspended, count, o), o.opa(Inject(r, count));
      if !AddressAgrees(r.claims, r.sourceIp) then
        v.Raised? && v.exception ==
          if r.claims.sourceIp == Plain("") && r.claims.agentContext.NoObject? then "AttributeError"
          else "PolicyDenialError"
      else if suspended == Some(true) then v.Raised? && v.exception == "PolicyDenialError"
      else match reply
        case Unreachable => v.Raised? && v.exception == "PolicyDenialError"
        case HttpError(_) => v.Raised? && v.exception == "PolicyDenialError"
        case Malformed(exception, _) => v.Raised? && v.exception == exception
        case Answer(DENY, _, _) => v.Raised? && v.exception == "PolicyDenialError"
        case Answer(REQUIRE_APPROVAL, _, _) =>
          v.Raised? && v.exception == (if o.queue.Queued? then "ApprovalRequiredError" else o.queue.exception)
        case Answer(ALLOW, _, _) =>
          if !("s3:" <= r.action || "iam:" <= r.action) then v == Permit
          else match o.cedar(Inject(r, count))
            case Permitted => v == Permit
            case Forbidden(_) => v.Raised? && v.exception == "PolicyDenialError"
            case CedarRaised(exception, _) => v.Raised? && v.exception == exception
  {
  }

  /** How a denial reads. */
  function DenialText(policyRef: string, action: string, reason: string): string {
    "DENY [" + policyRef + "] \U{2014} " + action + ": " + reason
  }

  /** What a refusal tells: the policy reference, the action and the reason of the layer that refuses. */
  lemma RefusalTells(r: ActionRequest, suspended: Option<bool>, count: Option<nat>, o: Oracles)
    ensures var v, ip := Decide(r, suspended, count, o), BoundAddress(r.claims);
      if !AddressAgrees(r.claims, r.sourceIp) then
        ip != Plain("") ==> v.Raised? && v.message.text == DenialText("pep.ip_binding", r.action,
          "Token IP binding violation: token bound to " + (if ip.Plain? then ip.text else ip.shown.text)
          + ", request from " + r.sourceIp)
      else if suspended == Some(true) then
        v.Raised? && v.message.text ==
          DenialText("pep.identity_suspended", r.action, "Identity " + r.agentId + " is suspended")
      else match o.opa(Inject(r, count))
        case Unreachable =>
          v.Raised? && v.message.text ==
            DenialText("pep.fail_closed", r.action, "Policy engine unreachable \U{2014} fail-closed default")
        case HttpError(status) =>
          v.Raised? && v.message.text ==
            DenialText("pep.fail_closed", r.action, "Policy engine returned HTTP " + status)
        case Malformed(_, message) => v.Raised? && v.message == message
        case Answer(DENY, reason, policyRef) =>
          v.Raised? && v.message.text == DenialText(policyRef, r.action, reason)
        case Answer(REQUIRE_APPROVAL, _, _) =>
          v.Raised? && v.message.text ==
            if o.queue.QueueRaised? then o.queue.message.text
            else "REQUIRE_APPROVAL \U{2014} " + r.action + " on " + r.resourceArn + " (request_id=" + o.queue.id + ")"
        case Answer(ALLOW, _, _) =>
          v.Raised? ==>
            match o.cedar(Inject(r, count))
            case Permitted => false
            case Forbidden(reason) =>
              v.message.text == DenialText(
                "nhi.cedar.resource_policy", r.action, "Cedar resource policy denied: " + reason.text)
            case CedarRaised(_, message) => v.message == message
  {
  }

  /** What the oracles report is text to Pydantic. */
  ghost predicate SpeakText(o: Oracles) {
    && (forall r :: o.opa(r).Malformed? ==> o.opa(r).message.textual)
    && (forall r :: o.cedar(r).Forbidden? ==> o.cedar(r).reason.textual)
    && (forall r :: o.cedar(r).CedarRaised? ==> o.cedar(r).message.textual)
    && (o.queue.QueueRaised? ==> o.queue.message.textual)
  }

  /** The address of the token that is looked at: the one at the top of the claims, or the one in the
      agent context. */
  function BoundAddress(c: Claims): Address {
    if c.sourceIp != Plain("") then c.sourceIp
    else if c.agentContext.Holding? then c.agentContext.address
    else Plain("")
  }

  /** The message of a refusal is not text exactly when it shows an address of the token that is not. */
  lemma MessageIsTextIff(r: ActionRequest, suspended: Option<bool>, count: Option<nat>, o: Oracles)
    requires SpeakText(o)
    ensures var v, ip := Decide(r, suspended, count, o), BoundAddress(r.claims);
      v.Raised? && !v.message.textual <==> ip.Odd? && !ip.shown.textual
  {
  }

  /** No oracle raises an exception that carries one of the PEP's own two class names. */
  ghost predicate OwnNamesOnly(o: Oracles) {
    && (forall r :: o.opa(r).Malformed? ==> o.opa(r).exception !in {"PolicyDenialError", "ApprovalRequiredError"})
    && (forall r :: o.cedar(r).CedarRaised? ==> o.cedar(r).exception !in {"PolicyDenialError", "ApprovalRequiredError"})
    && (o.queue.QueueRaised? ==> o.queue.exception !in {"PolicyDenialError", "ApprovalRequiredError"})
  }

  /** Approval is asked for exactly when the request got to OPA, the policy required it, and the
      request could be queued. */
  lemma ApprovalAskedIff(r: ActionRequest, suspended: Option<bool>, count: Option<nat>, o: Oracles)
    requires OwnNamesOnly(o)
    ensures var v := Decide(r, suspended, count, o);
      v.Raised? && v.exception == "ApprovalRequiredError" <==>
        && AddressAgrees(r.claims, r.sourceIp) && suspended != Some(true)
        && o.opa(Inject(r, count)).Answer? && o.opa(Inject(r, count)).effect == REQUIRE_APPROVAL && o.queue.Queued?
  {
  }
}
