/** anomaly/service.py and the burst detector of anomaly/scorer.py. A fitted model's score for an
    event is an arbitrary number; before fitting the score is 0. */
module Anomaly {
  import opened Text
  import opened AuditSchema

  const MAX_HISTORY := 500
  const MIN_FIT_SAMPLES := 10
  const ANOMALY_THRESHOLD := 0.95
  const BASELINE_RATE := 2.0
  const THRESHOLD_MULTIPLIER := 5.0

  // ------------------------------------------------------------ the burst detector

  predicate IsBurst(count: nat, threshold: real) {
    count as real > threshold
  }

  /** Recording one event, then testing and resetting on a burst: the counter, and bursts so far. */
  function BurstRun(threshold: real, n: nat): (nat, nat) {
    if n == 0 then (0, 0)
    else
      var (count, bursts) := BurstRun(threshold, n - 1);
      if IsBurst(count + 1, threshold) then (0, bursts + 1) else (count + 1, bursts)
  }

  /** A burst fires on every `Period`-th event. */
  function Period(threshold: real): (p: nat)
    ensures p > 0
  {
    if threshold < 0.0 then 1 else threshold.Floor + 1
  }

  lemma DivModUnique(n: nat, p: nat, q: nat, r: nat)
    requires n == q * p + r && r < p
    ensures n / p == q && n % p == r
  {
    var d := n / p - q;
    assert n == p * (n / p) + n % p;
    assert d * p == r - n % p;
    assert d >= 1 ==> d * p >= p;
    assert d <= -1 ==> d * p <= (-1) * p;
  }

  lemma {:induction false} BurstRunConserves(threshold: real, n: nat)
    ensures var (count, bursts) := BurstRun(threshold, n);
      n == bursts * Period(threshold) + count && count < Period(threshold)
  {
    if n > 0 {
      BurstRunConserves(threshold, n - 1);
    }
  }

  /** Exact burst arithmetic, for every threshold: after `n` events the counter is
      `n mod p` and `n div p` bursts have fired. */
  lemma BurstRunIsExact(threshold: real, n: nat)
    ensures BurstRun(threshold, n) == (n % Period(threshold), n / Period(threshold))
  {
    var (count, bursts) := BurstRun(threshold, n);
    BurstRunConserves(threshold, n);
    DivModUnique(n, Period(threshold), bursts, count);
  }

  // ------------------------------------------------------------------- the service

  /** `trained` is the batch the model was fitted on. */
  datatype Agent = Agent(history: seq<AuditEvent>, trained: Option<seq<AuditEvent>>, burst: nat)

  /** `posts` are the suspend calls issued; `flushed` totals the counts discarded by resets and
      `probes` the `/score` calls. */
  datatype Service = Service(
    agents: map<string, Agent>, suspended: set<string>, posts: seq<string>,
    eventsScored: nat, suspensions: nat, burstDetections: nat, flushed: nat, probes: nat)

  /** `raw` is what a fitted model says about the event. */
  datatype Op = Event(event: AuditEvent, raw: real) | Probe(agent: string)

  const START := Service(map[], {}, [], 0, 0, 0, 0, 0)

  function AgentOf(s: Service, id: string): Agent {
    if id in s.agents then s.agents[id] else Agent([], None, 0)
  }

  function Last<T>(s: seq<T>, n: nat): seq<T> {
    if |s| <= n then s else s[|s| - n..]
  }

  /** `_suspend_identity`: at most one call for each agent, ever. */
  function Suspend(s: Service, id: string): Service {
    if id in s.suspended then s else s.(suspended := s.suspended + {id}, posts := s.posts + [id])
  }

  /** The history and the model after one more event. */
  function Learn(a: Agent, e: AuditEvent): Agent {
    var history := Last(a.history + [e], MAX_HISTORY);
    var trained := if |history| >= MIN_FIT_SAMPLES && a.trained.None? then Some(history) else a.trained;
    a.(history := history, trained := trained)
  }

  function Process(s: Service, e: AuditEvent, raw: real): Service {
    var id := e.fields.agentId;
    var a := Learn(AgentOf(s, id), e);
    var score := if a.trained.Some? then raw else 0.0;
    var count := a.burst + 1;
    var t := s.(eventsScored := s.eventsScored + 1);
    if IsBurst(count, BASELINE_RATE * THRESHOLD_MULTIPLIER) then
      Suspend(t.(agents := s.agents[id := a.(burst := 0)], burstDetections := s.burstDetections + 1,
                 flushed := s.flushed + count), id)
    else
      var u := t.(agents := s.agents[id := a.(burst := count)]);
      if score >= ANOMALY_THRESHOLD then Suspend(u.(suspensions := s.suspensions + 1), id) else u
  }

  /** `POST /score` counts the event but neither tests nor resets. */
  function Score(s: Service, id: string): Service {
    var a := AgentOf(s, id);
    s.(agents := s.agents[id := a.(burst := a.burst + 1)], probes := s.probes + 1)
  }

  function Step(s: Service, op: Op): Service {
    match op
    case Event(e, raw) => Process(s, e, raw)
    case Probe(id) => Score(s, id)
  }

  function Run(ops: seq<Op>): Service {
    if ops == [] then START else Step(Run(ops[..|ops| - 1]), ops[|ops| - 1])
  }

  lemma RunSnoc(ops: seq<Op>, op: Op)
    ensures Run(ops + [op]) == Step(Run(ops), op)
  {
    assert (ops + [op])[..|ops|] == ops;
  }

  /** The module state of the service, updated step by step. */
  class AnomalyService {
    var agents: map<string, Agent>
    var suspended: set<string>
    var posts: seq<string>
    var eventsScored: nat
    var suspensions: nat
    var burstDetections: nat
    ghost var flushed: nat
    ghost var probes: nat

    ghost function State(): Service
      reads this
    {
      Service(agents, suspended, posts, eventsScored, suspensions, burstDetections, flushed, probes)
    }

    constructor ()
      ensures State() == START
    {
      agents, suspended, posts := map[], {}, [];
      eventsScored, suspensions, burstDetections := 0, 0, 0;
      flushed, probes := 0, 0;
    }

    method SuspendIdentity(id: string)
      modifies this`suspended, this`posts
      ensures State() == Suspend(old(State()), id)
    {
      if id in suspended {
        return;
      }
      suspended := suspended + {id};
      posts := posts + [id];
    }

    method ProcessEvent(e: AuditEvent, raw: real)
      modifies this
      ensures State() == Process(old(State()), e, raw)
    {
      var id := e.fields.agentId;
      var a := if id in agents then agents[id] else Agent([], None, 0);
      var history := a.history + [e];
      if |history| > MAX_HISTORY {
        history := history[|history| - MAX_HISTORY..];
      }
      a := a.(history := history);
      if |history| >= MIN_FIT_SAMPLES && a.trained.None? {
        a := a.(trained := Some(history));
      }
      var score := if a.trained.Some? then raw else 0.0;
      eventsScored := eventsScored + 1;
      var count := a.burst + 1;
      if IsBurst(count, BASELINE_RATE * THRESHOLD_MULTIPLIER) {
        burstDetections := burstDetections + 1;
        flushed := flushed + count;
        agents := agents[id := a.(burst := 0)];
        SuspendIdentity(id);
        return;
      }
      agents := agents[id := a.(burst := count)];
      if score >= ANOMALY_THRESHOLD {
        suspensions := suspensions + 1;
        SuspendIdentity(id);
      }
    }

    method ScoreEvent(id: string)
      modifies this
      ensures State() == Score(old(State()), id)
    {
      var a := if id in agents then agents[id] else Agent([], None, 0);
      agents := agents[id := a.(burst := a.burst + 1)];
      probes := probes + 1;
    }
  }

  // -------------------------------------------------------------- one agent's events

  function Own(ops: seq<Op>, id: string): seq<AuditEvent> {
    if ops == [] then []
    else
      var op := ops[|ops| - 1];
      Own(ops[..|ops| - 1], id) + if op.Event? && op.event.fields.agentId == id then [op.event] else []
  }

  predicate NoProbes(ops: seq<Op>) {
    forall i | 0 <= i < |ops| :: ops[i].Event?
  }

  lemma StepAgent(s: Service, op: Op, id: string)
    ensures AgentOf(Step(s, op), id).history ==
      if op.Event? && op.event.fields.agentId == id then Last(AgentOf(s, id).history + [op.event], MAX_HISTORY)
      else AgentOf(s, id).history
    ensures AgentOf(Step(s, op), id).trained ==
      if op.Event? && op.event.fields.agentId == id then Learn(AgentOf(s, id), op.event).trained
      else AgentOf(s, id).trained
  {
  }

  ghost predicate TrainedOn(a: Agent, own: seq<AuditEvent>) {
    && a.history == Last(own, 500)
    && a.trained == if |own| >= 10 then Some(own[..10]) else None
  }

  lemma LearnKeepsTraining(a: Agent, own: seq<AuditEvent>, e: AuditEvent)
    requires TrainedOn(a, own)
    ensures TrainedOn(Learn(a, e), own + [e])
  {
    LastOfLast(own, e, MAX_HISTORY);
    if |own| >= 10 {
      assert (own + [e])[..10] == own[..10];
    } else {
      assert Learn(a, e).history == own + [e];
      assert (own + [e])[..|own| + 1] == own + [e];
    }
  }

  /** In any interleaving, with any `/score` calls, an agent's history is the last 500 of its own
      events, and its model was fitted on exactly its first ten, once there were ten. */
  lemma {:induction false} TrainingWindow(ops: seq<Op>, id: string)
    ensures TrainedOn(AgentOf(Run(ops), id), Own(ops, id))
  {
    if ops != [] {
      var n := |ops| - 1;
      TrainingWindow(ops[..n], id);
      StepAgent(Run(ops[..n]), ops[n], id);
      if ops[n].Event? && ops[n].event.fields.agentId == id {
        LearnKeepsTraining(AgentOf(Run(ops[..n]), id), Own(ops[..n], id), ops[n].event);
      } else {
        assert Own(ops, id) == Own(ops[..n], id);
      }
    }
  }

  lemma LastOfLast<T>(s: seq<T>, x: T, n: nat)
    requires n > 0
    ensures Last(Last(s, n) + [x], n) == Last(s + [x], n)
  {
  }

  lemma StepBurst(s: Service, e: AuditEvent, raw: real, id: string)
    ensures var before := AgentOf(s, id).burst;
      AgentOf(Process(s, e, raw), id).burst ==
        if e.fields.agentId != id then before else if before + 1 > 10 then 0 else before + 1
  {
  }

  lemma StepSuspended(s: Service, e: AuditEvent, raw: real, id: string)
    ensures id in Process(s, e, raw).suspended <==>
      || id in s.suspended
      || (e.fields.agentId == id
          && (AgentOf(s, id).burst + 1 > 10 || (Learn(AgentOf(s, id), e).trained.Some? && raw >= 0.95)))
  {
  }

  /** Without `/score` calls, every eleventh event of an agent is a burst. */
  lemma {:induction false} BurstCounter(ops: seq<Op>, id: string)
    requires NoProbes(ops)
    ensures AgentOf(Run(ops), id).burst == |Own(ops, id)| % 11
    ensures Period(BASELINE_RATE * THRESHOLD_MULTIPLIER) == 11
  {
    if ops != [] {
      var n := |ops| - 1;
      BurstCounter(ops[..n], id);
      StepBurst(Run(ops[..n]), ops[n].event, ops[n].raw, id);
      CycleOfEleven(|Own(ops[..n], id)|);
    }
  }

  lemma CycleOfEleven(m: nat)
    ensures (m + 1) % 11 == if m % 11 + 1 > 10 then 0 else m % 11 + 1
  {
  }

  // ---------------------------------------------------------------- global accounting

  /** The sum of all burst counters. */
  ghost function Total(agents: map<string, Agent>): nat
    decreases |agents|
  {
    if agents == map[] then 0
    else
      var id :| id in agents;
      agents[id].burst + Total(agents - {id})
  }

  lemma {:induction false} TotalWithout(agents: map<string, Agent>, id: string)
    requires id in agents
    ensures Total(agents) == agents[id].burst + Total(agents - {id})
    decreases |agents|
  {
    var k :| k in agents && Total(agents) == agents[k].burst + Total(agents - {k});
    if k != id {
      TotalWithout(agents - {k}, id);
      TotalWithout(agents - {id}, k);
      assert agents - {k} - {id} == agents - {id} - {k};
    }
  }

  lemma TotalUpdate(agents: map<string, Agent>, id: string, a: Agent)
    ensures Total(agents[id := a]) == Total(agents - {id}) + a.burst
  {
    TotalWithout(agents[id := a], id);
    assert agents[id := a] - {id} == agents - {id};
  }

  lemma TotalAround(s: Service, id: string, a: Agent)
    ensures Total(s.agents[id := a]) + AgentOf(s, id).burst == Total(s.agents) + a.burst
  {
    TotalUpdate(s.agents, id, a);
    if id in s.agents {
      TotalWithout(s.agents, id);
    } else {
      assert s.agents - {id} == s.agents;
    }
  }

  /** Every event ever counted is in a counter or was flushed by a burst, and each burst flushed at
      least eleven. */
  lemma {:induction false} CountsAreConserved(ops: seq<Op>)
    ensures var s := Run(ops);
      && s.eventsScored + s.probes == |ops|
      && s.eventsScored + s.probes == s.flushed + Total(s.agents)
      && 11 * s.burstDetections <= s.flushed
  {
    if ops != [] {
      var n := |ops| - 1;
      CountsAreConserved(ops[..n]);
      var s := Run(ops[..n]);
      var id := if ops[n].Event? then ops[n].event.fields.agentId else ops[n].agent;
      TotalAround(s, id, Step(s, ops[n]).agents[id]);
    }
  }

  lemma {:induction false} FlushedExactly(ops: seq<Op>)
    requires NoProbes(ops)
    ensures Run(ops).flushed == 11 * Run(ops).burstDetections && Run(ops).probes == 0
  {
    if ops != [] {
      var n := |ops| - 1;
      FlushedExactly(ops[..n]);
      BurstCounter(ops[..n], ops[n].event.fields.agentId);
    }
  }

  /** Without `/score` calls: events scored = 11 * bursts + the sum of all counters. */
  lemma GlobalBurstArithmetic(ops: seq<Op>)
    requires NoProbes(ops)
    ensures Run(ops).eventsScored == |ops| == 11 * Run(ops).burstDetections + Total(Run(ops).agents)
  {
    CountsAreConserved(ops);
    FlushedExactly(ops);
  }

  /** How many steps of the service were bursts of this agent. */
  function BurstsOf(ops: seq<Op>, id: string): nat {
    if ops == [] then 0
    else
      var n := |ops| - 1;
      var fired := Run(ops).burstDetections > Run(ops[..n]).burstDetections;
      BurstsOf(ops[..n], id) + if fired && ops[n].Event? && ops[n].event.fields.agentId == id then 1 else 0
  }

  /** The service's own test, in terms of the agent's count of events. */
  lemma TestMeansTrigger(a: Agent, own: seq<AuditEvent>, e: AuditEvent)
    requires TrainedOn(a, own) && a.burst == |own| % 11
    ensures a.burst + 1 > 10 <==> |own + [e]| % 11 == 0
    ensures Learn(a, e).trained.Some? <==> |own + [e]| >= 10
  {
    LearnKeepsTraining(a, own, e);
  }

  lemma StepCounts(s: Service, e: AuditEvent, raw: real)
    ensures var a, t := AgentOf(s, e.fields.agentId), Process(s, e, raw);
      var breach := Learn(a, e).trained.Some? && raw >= 0.95;
      && t.burstDetections == s.burstDetections + (if a.burst + 1 > 10 then 1 else 0)
      && t.suspensions == s.suspensions + if a.burst + 1 <= 10 && breach then 1 else 0
  {
  }

  /** Without `/score` calls, an agent with `n` events has burst `n div 11` times. */
  lemma {:induction false} BurstsAreExact(ops: seq<Op>, id: string)
    requires NoProbes(ops)
    ensures BurstsOf(ops, id) == |Own(ops, id)| / 11
  {
    if ops != [] {
      var n := |ops| - 1;
      BurstsAreExact(ops[..n], id);
      BurstCounter(ops[..n], ops[n].event.fields.agentId);
      StepCounts(Run(ops[..n]), ops[n].event, ops[n].raw);
    }
  }

  /** How many steps had the agent's own count at a multiple of eleven, or else a score at the
      threshold from its tenth event on. */
  function Occasions(ops: seq<Op>, burst: bool): nat {
    if ops == [] then 0
    else
      var op := ops[|ops| - 1];
      var n := if op.Event? then |Own(ops, op.event.fields.agentId)| else 1;
      var breach := op.Event? && n % 11 != 0 && n >= 10 && op.raw >= 0.95;
      Occasions(ops[..|ops| - 1], burst) + if (if burst then n % 11 == 0 else breach) then 1 else 0
  }

  /** The two exported counters, in terms of the events alone. */
  lemma {:induction false} CountersAreExact(ops: seq<Op>)
    requires NoProbes(ops)
    ensures Run(ops).burstDetections == Occasions(ops, true) && Run(ops).suspensions == Occasions(ops, false)
  {
    if ops != [] {
      var n := |ops| - 1;
      var e := ops[n].event;
      var id := e.fields.agentId;
      var own := Own(ops[..n], id);
      CountersAreExact(ops[..n]);
      BurstCounter(ops[..n], id);
      TrainingWindow(ops[..n], id);
      TestMeansTrigger(AgentOf(Run(ops[..n]), id), own, e);
      StepCounts(Run(ops[..n]), e, ops[n].raw);
      assert Own(ops, id) == own + [e];
    }
  }

  // -------------------------------------------------------------------- suspension

  /** How many `/score` calls named this agent. */
  function Probed(ops: seq<Op>, id: string): nat {
    if ops == [] then 0
    else Probed(ops[..|ops| - 1], id) + if ops[|ops| - 1] == Probe(id) then 1 else 0
  }

  /** The `i`-th step is an event on which the service suspends the agent if nothing did before:
      its events and `/score` calls have reached eleven, or the model exists and the score is at
      the threshold. */
  predicate Triggers(ops: seq<Op>, i: nat, id: string)
    requires i < |ops|
  {
    && ops[i].Event? && ops[i].event.fields.agentId == id
    && var n := |Own(ops[..i + 1], id)|;
       n + Probed(ops[..i + 1], id) >= 11 || (n >= 10 && ops[i].raw >= 0.95)
  }

  lemma StepProbe(s: Service, id: string, other: string)
    ensures Score(s, other).suspended == s.suspended
    ensures AgentOf(Score(s, other), id).burst == AgentOf(s, id).burst + if id == other then 1 else 0
  {
  }

  /** Until an agent is suspended nothing resets its counter. */
  lemma {:induction false} CounterUntilSuspended(ops: seq<Op>, id: string)
    ensures id in Run(ops).suspended || AgentOf(Run(ops), id).burst == |Own(ops, id)| + Probed(ops, id)
  {
    if ops != [] {
      var n := |ops| - 1;
      var s := Run(ops[..n]);
      CounterUntilSuspended(ops[..n], id);
      match ops[n]
      case Probe(other) => StepProbe(s, id, other);
      case Event(e, raw) =>
        StepBurst(s, e, raw, id);
        StepSuspended(s, e, raw, id);
    }
  }

  /** The service's test, in terms of the agent's events and `/score` calls. */
  lemma EventSuspends(ops: seq<Op>, e: AuditEvent, raw: real, id: string)
    requires e.fields.agentId == id && id !in Run(ops).suspended
    ensures var n := |Own(ops, id)| + 1;
      id in Process(Run(ops), e, raw).suspended <==>
        n + Probed(ops, id) >= 11 || (n >= 10 && raw >= 0.95)
  {
    CounterUntilSuspended(ops, id);
    TrainingWindow(ops, id);
    LearnKeepsTraining(AgentOf(Run(ops), id), Own(ops, id), e);
    StepSuspended(Run(ops), e, raw, id);
  }

  lemma OwnSnoc(ops: seq<Op>, op: Op, id: string)
    ensures Own(ops + [op], id) ==
      Own(ops, id) + if op.Event? && op.event.fields.agentId == id then [op.event] else []
    ensures Probed(ops + [op], id) == Probed(ops, id) + if op == Probe(id) then 1 else 0
  {
    assert (ops + [op])[..|ops|] == ops;
  }

  lemma StepSuspends(ops: seq<Op>, op: Op, id: string)
    ensures id in Run(ops + [op]).suspended <==> id in Run(ops).suspended || Triggers(ops + [op], |ops|, id)
  {
    assert (ops + [op])[..|ops| + 1] == ops + [op];
    RunSnoc(ops, op);
    OwnSnoc(ops, op, id);
    match op
    case Probe(other) => StepProbe(Run(ops), id, other);
    case Event(e, raw) =>
      StepSuspended(Run(ops), e, raw, id);
      if e.fields.agentId == id && id !in Run(ops).suspended {
        EventSuspends(ops, e, raw, id);
      }
  }

  /** In every run, `/score` calls included, an agent is suspended exactly when one of its own events
      called for it. */
  lemma {:induction false} SuspendedIffTriggered(ops: seq<Op>, id: string)
    ensures id in Run(ops).suspended <==> exists i: nat :: i < |ops| && Triggers(ops, i, id)
  {
    if ops != [] {
      var n := |ops| - 1;
      SuspendedIffTriggered(ops[..n], id);
      StepSuspends(ops[..n], ops[n], id);
      assert ops[..n] + [ops[n]] == ops;
      forall i: nat | i < n ensures Triggers(ops[..n], i, id) <==> Triggers(ops, i, id) {
        assert ops[..n][..i + 1] == ops[..i + 1];
      }
    }
  }

  ghost predicate CallsMatch(s: Service) {
    && (forall i, j | 0 <= i < j < |s.posts| :: s.posts[i] != s.posts[j])
    && (forall id :: id in s.posts <==> id in s.suspended)
    && |s.suspended| == |s.posts|
  }

  ghost predicate CallsCovered(s: Service) {
    CallsMatch(s) && |s.posts| <= s.suspensions + s.burstDetections
  }

  lemma SuspendMatches(s: Service, id: string)
    requires CallsMatch(s)
    ensures CallsMatch(Suspend(s, id)) && |Suspend(s, id).posts| <= |s.posts| + 1
  {
  }

  /** At most one suspend call is ever issued for an agent, whatever happens to the call, and the
      two counters cover the suspended agents. */
  lemma {:induction false} OneCallForEachAgent(ops: seq<Op>)
    ensures CallsCovered(Run(ops))
  {
    if ops != [] {
      var n := |ops| - 1;
      OneCallForEachAgent(ops[..n]);
      StepCovered(Run(ops[..n]), ops[n]);
    }
  }

  lemma StepCovered(s: Service, op: Op)
    requires CallsCovered(s)
    ensures CallsCovered(Step(s, op))
  {
    match op
    case Event(e, raw) =>
      var r := Process(s, e, raw);
      if r.suspended != s.suspended {
        var t := r.(suspended := s.suspended, posts := s.posts);
        SuspendMatches(t, e.fields.agentId);
        assert r == Suspend(t, e.fields.agentId);
      }
    case Probe(_) =>
  }
}
