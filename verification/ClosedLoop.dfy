/** The whole circle: an agent's runs publish audit events, the anomaly service observes them and has
    the identity suspended, and the PEP reads the suspended set before the next run acts. */
module ClosedLoop {
  import opened Text
  import opened AuditSchema
  import opened AgentRuns
  import Anomaly
  import HashChain
  import IdentityApi
  import RateLimit
  import RegoPolicy
  import Sentinel

  /** A run of the agent, on whatever the rate counters hold; the observation of its next published
      event, with the score it gets and where its suspend call, if any, loses Redis; or any other
      step of the system. */
  datatype Step =
    | RunAgent(task: Task, world: World, counters: RateLimit.Counters)
    | Deliver(raw: real, fault: IdentityApi.Fault)
    | Elsewhere(op: Sentinel.Op)

  datatype Loop = Loop(history: seq<Sentinel.Op>, runs: seq<RunInput>, delivered: nat)

  const START := Loop([], [], 0)

  function Suspended(l: Loop): set<string> {
    Sentinel.Run(Sentinel.START, l.history).ledger.suspended
  }

  /** What the agent has published. */
  function Log(hash: HashChain.Hasher, cfg: AgentConfig, l: Loop): seq<AuditEvent> {
    HashChain.Published(hash, Drafts(Trace(cfg, l.runs)))
  }

  function RunOf(cfg: AgentConfig, l: Loop, task: Task, w: World, counters: RateLimit.Counters): RunInput {
    RunInput(task, w, VerdictIn(cfg, task, w, Suspended(l), counters))
  }

  function Observation(e: AuditEvent, raw: real, fault: IdentityApi.Fault): Sentinel.Op {
    Sentinel.Observe(e, raw, fault)
  }

  function Next(hash: HashChain.Hasher, cfg: AgentConfig, l: Loop, step: Step): Loop {
    match step
    case RunAgent(task, w, counters) => l.(runs := l.runs + [RunOf(cfg, l, task, w, counters)])
    case Deliver(raw, fault) =>
      var log := Log(hash, cfg, l);
      if l.delivered < |log|
      then l.(history := l.history + [Observation(log[l.delivered], raw, fault)], delivered := l.delivered + 1)
      else l
    case Elsewhere(op) => l.(history := l.history + [op])
  }

  function After(hash: HashChain.Hasher, cfg: AgentConfig, steps: seq<Step>): Loop {
    if steps == [] then START
    else Next(hash, cfg, After(hash, cfg, steps[..|steps| - 1]), steps[|steps| - 1])
  }

  /** The agent is not reinstated, and a suspend call for it gets as far as the set. */
  predicate Harmless(cfg: AgentConfig, op: Sentinel.Op) {
    && !Sentinel.Clears(op, cfg.agentId)
    && (op.Observe? && op.event.fields.agentId == cfg.agentId ==> op.fault != IdentityApi.AtFirst)
  }

  /** The PEP can read Redis, and observation is at most `lag` events behind, whenever a run starts. */
  ghost predicate Attended(hash: HashChain.Hasher, cfg: AgentConfig, steps: seq<Step>, lag: nat) {
    forall i | 0 <= i < |steps| && steps[i].RunAgent? ::
      var l := After(hash, cfg, steps[..i]);
      steps[i].world.suspensionUp && |Log(hash, cfg, l)| <= l.delivered + lag
  }

  // --------------------------------------------------------------- what is observed

  lemma {:induction false} TraceIsOwn(cfg: AgentConfig, runs: seq<RunInput>)
    ensures forall a | a in Trace(cfg, runs) && a.Audit? :: a.draft.fields.agentId == cfg.agentId
  {
    if runs != [] {
      TraceIsOwn(cfg, runs[..|runs| - 1]);
    }
  }

  lemma {:induction false} DraftsAreOwn(trace: seq<Action>, id: string)
    requires forall a | a in trace && a.Audit? :: a.draft.fields.agentId == id
    ensures forall d | d in Drafts(trace) :: d.fields.agentId == id
  {
    if trace != [] {
      DraftsAreOwn(trace[..|trace| - 1], id);
    }
  }

  lemma LogIsOwn(hash: HashChain.Hasher, cfg: AgentConfig, l: Loop, i: nat)
    requires i < |Log(hash, cfg, l)|
    ensures Log(hash, cfg, l)[i].fields.agentId == cfg.agentId
  {
    var drafts := Drafts(Trace(cfg, l.runs));
    TraceIsOwn(cfg, l.runs);
    DraftsAreOwn(Trace(cfg, l.runs), cfg.agentId);
    HashChain.ChainFromVerifies(hash, GENESIS_HASH, drafts);
    assert drafts[i] in drafts && HashChain.SameBody(drafts[i], Log(hash, cfg, l)[i]);
  }

  lemma ObservedSnoc(history: seq<Sentinel.Op>, op: Sentinel.Op, id: string)
    ensures |Anomaly.Own(Sentinel.Observed(history + [op]), id)| ==
      |Anomaly.Own(Sentinel.Observed(history), id)| + if op.Observe? && op.event.fields.agentId == id then 1 else 0
  {
    assert (history + [op])[..|history|] == history;
    var seen := Sentinel.Seen(op);
    if seen == [] {
      assert Sentinel.Observed(history) + seen == Sentinel.Observed(history);
    } else {
      assert seen == [seen[0]];
      Anomaly.OwnSnoc(Sentinel.Observed(history), seen[0], id);
    }
  }

  /** How many events of the agent the anomaly service has seen. */
  function Seen(cfg: AgentConfig, l: Loop): nat {
    |Anomaly.Own(Sentinel.Observed(l.history), cfg.agentId)|
  }

  lemma NextIsSeen(hash: HashChain.Hasher, cfg: AgentConfig, l: Loop, step: Step)
    ensures var m := Next(hash, cfg, l, step);
      Seen(cfg, m) - m.delivered >= Seen(cfg, l) - l.delivered
  {
    match step
    case RunAgent(_, _, _) =>
    case Deliver(raw, fault) =>
      if l.delivered < |Log(hash, cfg, l)| {
        LogIsOwn(hash, cfg, l, l.delivered);
        ObservedSnoc(l.history, Observation(Log(hash, cfg, l)[l.delivered], raw, fault), cfg.agentId);
      }
    case Elsewhere(op) => ObservedSnoc(l.history, op, cfg.agentId);
  }

  /** Every delivery is an observed event of the agent. */
  lemma {:induction false} DeliveredAreOwn(hash: HashChain.Hasher, cfg: AgentConfig, steps: seq<Step>)
    ensures After(hash, cfg, steps).delivered <= Seen(cfg, After(hash, cfg, steps))
  {
    if steps != [] {
      var n := |steps| - 1;
      DeliveredAreOwn(hash, cfg, steps[..n]);
      NextIsSeen(hash, cfg, After(hash, cfg, steps[..n]), steps[n]);
    }
  }

  // ------------------------------------------------------------------ the bound

  lemma FirstBreachGetsThrough(cfg: AgentConfig, history: seq<Sentinel.Op>, i: nat)
    requires i < |history| && (forall op | op in history :: Harmless(cfg, op))
    requires Sentinel.FirstBreach(history, i, cfg.agentId)
    ensures history[i].fault != IdentityApi.AtFirst
  {
    var seen := Sentinel.Observed(history[..i + 1]);
    assert history[..i + 1][..i] == history[..i];
    assert seen == Sentinel.Observed(history[..i]) + [Anomaly.Event(history[i].event, history[i].raw)];
    assert Harmless(cfg, history[i]);
  }

  lemma NoCallAfterEleven(
    hash: HashChain.Hasher, cfg: AgentConfig, steps: seq<Step>, task: Task, w: World, counters: RateLimit.Counters)
    requires var l := After(hash, cfg, steps);
      l.delivered >= 11 && forall op | op in l.history :: Harmless(cfg, op)
    requires w.suspensionUp
    ensures var r := RunOf(cfg, After(hash, cfg, steps), task, w, counters);
      forall a | a in RunTrace(cfg, task, w, r.verdict) :: !a.Call?
  {
    var l := After(hash, cfg, steps);
    DeliveredAreOwn(hash, cfg, steps);
    forall i: nat | i < |l.history| && Sentinel.FirstBreach(l.history, i, cfg.agentId)
      ensures l.history[i].fault != IdentityApi.AtFirst
    {
      FirstBreachGetsThrough(cfg, l.history, i);
    }
    Sentinel.ElevenEventsStopTheAgent(l.history, cfg, task, w, counters);
  }

  lemma {:induction false} NoCallMeansNone(trace: seq<Action>)
    requires forall a | a in trace :: !a.Call?
    ensures Calls(trace) == 0
  {
    if trace != [] {
      NoCallMeansNone(trace[..|trace| - 1]);
    }
  }

  lemma RunSnoc(cfg: AgentConfig, runs: seq<RunInput>, r: RunInput)
    ensures var all, block := runs + [r], RunTrace(cfg, r.task, r.world, r.verdict);
      && Calls(Trace(cfg, all)) == Calls(Trace(cfg, runs)) + Calls(block)
      && CountRuns(cfg, all, BrokenOff)
         == CountRuns(cfg, runs, BrokenOff) + (if OutcomeOfRun(cfg, r) == BrokenOff then 1 else 0)
      && Calls(block) <= 1
  {
    assert (runs + [r])[..|runs|] == runs;
    DraftsAppend(Trace(cfg, runs), RunTrace(cfg, r.task, r.world, r.verdict));
    BlockCounts(cfg, r.task, r.world, r.verdict);
  }

  lemma LogLength(hash: HashChain.Hasher, cfg: AgentConfig, l: Loop)
    ensures |Log(hash, cfg, l)| >= 2 * Calls(Trace(cfg, l.runs)) - CountRuns(cfg, l.runs, BrokenOff)
  {
    EveryLogVerifies(hash, cfg, l.runs);
    EventCountIsExact(cfg, l.runs);
  }

  /** An agent that nobody reinstates makes at most six tool calls, and half a call more for each event
      that observation is behind and for each run that breaks off without its result event. */
  lemma {:induction false} CallsAreBounded(hash: HashChain.Hasher, cfg: AgentConfig, steps: seq<Step>, lag: nat)
    requires Attended(hash, cfg, steps, lag)
    requires forall op | op in After(hash, cfg, steps).history :: Harmless(cfg, op)
    ensures var runs := After(hash, cfg, steps).runs;
      2 * Calls(Trace(cfg, runs)) <= 12 + lag + CountRuns(cfg, runs, BrokenOff)
  {
    if steps != [] {
      var n := |steps| - 1;
      var l := After(hash, cfg, steps[..n]);
      AttendedPrefix(hash, cfg, steps, lag);
      CallsAreBounded(hash, cfg, steps[..n], lag);
      if steps[n].RunAgent? {
        var r := RunOf(cfg, l, steps[n].task, steps[n].world, steps[n].counters);
        RunSnoc(cfg, l.runs, r);
        if l.delivered >= 11 {
          NoCallAfterEleven(hash, cfg, steps[..n], r.task, r.world, steps[n].counters);
          NoCallMeansNone(RunTrace(cfg, r.task, r.world, r.verdict));
        } else {
          LogLength(hash, cfg, l);
        }
      }
    }
  }

  lemma AttendedPrefix(hash: HashChain.Hasher, cfg: AgentConfig, steps: seq<Step>, lag: nat)
    requires steps != [] && Attended(hash, cfg, steps, lag)
    ensures Attended(hash, cfg, steps[..|steps| - 1], lag)
  {
    var before := steps[..|steps| - 1];
    forall i | 0 <= i < |before| && before[i].RunAgent?
      ensures before[i].world.suspensionUp
           && |Log(hash, cfg, After(hash, cfg, before[..i]))| <= After(hash, cfg, before[..i]).delivered + lag
    {
      assert before[..i] == steps[..i] && before[i] == steps[i];
    }
  }

  // ------------------------------------------------------------- the bound is reached

  /** The task is one that the agent may do, and its handler returns a result that can be logged. */
  ghost predicate Acts(cfg: AgentConfig, task: Task, w: World, counters: RateLimit.Counters) {
    && Asking(cfg, task, w) && w.suspensionUp && w.handler.Returned? && ResultBuilds(task, w.handler)
    && LayersAgree(cfg, task, w, {}, counters)
  }

  lemma {:induction false} SomeCallCounts(trace: seq<Action>)
    requires exists a :: a in trace && a.Call?
    ensures Calls(trace) >= 1
  {
    var n := |trace| - 1;
    if !trace[n].Call? {
      SomeCallCounts(trace[..n]);
    }
  }

  lemma ActingRun(cfg: AgentConfig, l: Loop, task: Task, w: World, counters: RateLimit.Counters)
    requires Acts(cfg, task, w, counters) && cfg.agentId !in Suspended(l)
    ensures var r := RunOf(cfg, l, task, w, counters);
      OutcomeOfRun(cfg, r) == Finished && Calls(RunTrace(cfg, task, w, r.verdict)) == 1
  {
    var r := RunOf(cfg, l, task, w, counters);
    PermitIffLayersAgree(cfg, task, w, Suspended(l), counters);
    HandlerRunsIff(cfg, task, w, Suspended(l), counters);
    SomeCallCounts(RunTrace(cfg, task, w, r.verdict));
    BlockCounts(cfg, task, w, r.verdict);
  }

  /** Nothing is left to observe, the agent has been quiet, and it is free. */
  ghost predicate Quiet(hash: HashChain.Hasher, cfg: AgentConfig, l: Loop, pending: nat) {
    var s := Sentinel.Run(Sentinel.START, l.history);
    && |Log(hash, cfg, l)| == l.delivered + pending && Anomaly.AgentOf(s.anomaly, cfg.agentId).burst == l.delivered
    && cfg.agentId !in s.anomaly.suspended && cfg.agentId !in s.ledger.suspended
    && forall op | op in l.history :: Harmless(cfg, op)
  }

  lemma QuietRun(
    hash: HashChain.Hasher, cfg: AgentConfig, l: Loop, task: Task, w: World, counters: RateLimit.Counters)
    requires Acts(cfg, task, w, counters) && Quiet(hash, cfg, l, 0)
    ensures var m := Next(hash, cfg, l, RunAgent(task, w, counters));
      && Quiet(hash, cfg, m, 2) && m.delivered == l.delivered
      && Calls(Trace(cfg, m.runs)) == Calls(Trace(cfg, l.runs)) + 1
      && CountRuns(cfg, m.runs, BrokenOff) == CountRuns(cfg, l.runs, BrokenOff)
  {
    var r := RunOf(cfg, l, task, w, counters);
    ActingRun(cfg, l, task, w, counters);
    RunSnoc(cfg, l.runs, r);
    EveryLogVerifies(hash, cfg, l.runs);
    EveryLogVerifies(hash, cfg, l.runs + [r]);
    assert (l.runs + [r])[..|l.runs|] == l.runs;
  }

  lemma QuietDelivery(hash: HashChain.Hasher, cfg: AgentConfig, l: Loop, pending: nat)
    requires Quiet(hash, cfg, l, pending + 1) && l.delivered < 10
    ensures var m := Next(hash, cfg, l, Deliver(0.0, IdentityApi.NoFault));
      Quiet(hash, cfg, m, pending) && m.delivered == l.delivered + 1 && m.runs == l.runs
  {
    var op := Observation(Log(hash, cfg, l)[l.delivered], 0.0, IdentityApi.NoFault);
    var s := Sentinel.Run(Sentinel.START, l.history);
    LogIsOwn(hash, cfg, l, l.delivered);
    assert (l.history + [op])[..|l.history|] == l.history;
    Sentinel.QuietStep(s, op.event);
    Sentinel.StepOfOne(s, op, cfg.agentId);
  }

  /** A run of the task, followed by the observation of its two events. */
  function WithRound(steps: seq<Step>, task: Task, w: World, counters: RateLimit.Counters): seq<Step> {
    steps + [RunAgent(task, w, counters)]
    + [Deliver(0.0, IdentityApi.NoFault)] + [Deliver(0.0, IdentityApi.NoFault)]
  }

  function Rounds(task: Task, w: World, counters: RateLimit.Counters, n: nat): seq<Step> {
    if n == 0 then [] else WithRound(Rounds(task, w, counters, n - 1), task, w, counters)
  }

  /** The step may follow the others in a loop that is attended without delay. */
  lemma OneMore(hash: HashChain.Hasher, cfg: AgentConfig, steps: seq<Step>, step: Step)
    requires Attended(hash, cfg, steps, 0)
    requires step.RunAgent? ==>
      var l := After(hash, cfg, steps);
      step.world.suspensionUp && |Log(hash, cfg, l)| == l.delivered
    ensures After(hash, cfg, steps + [step]) == Next(hash, cfg, After(hash, cfg, steps), step)
    ensures Attended(hash, cfg, steps + [step], 0)
  {
    var all := steps + [step];
    assert all[..|steps|] == steps;
    forall i | 0 <= i < |all| && all[i].RunAgent?
      ensures all[i].world.suspensionUp
           && |Log(hash, cfg, After(hash, cfg, all[..i]))| <= After(hash, cfg, all[..i]).delivered
    {
      if i < |steps| {
        assert all[..i] == steps[..i] && all[i] == steps[i];
      }
    }
  }

  /** After `n` rounds all is observed, the agent is free, and it has made `n` calls. */
  ghost predicate Settled(hash: HashChain.Hasher, cfg: AgentConfig, steps: seq<Step>, n: nat) {
    var l := After(hash, cfg, steps);
    && Attended(hash, cfg, steps, 0) && Quiet(hash, cfg, l, 0) && l.delivered == 2 * n
    && Calls(Trace(cfg, l.runs)) == n && CountRuns(cfg, l.runs, BrokenOff) == 0
  }

  lemma OneRound(
    hash: HashChain.Hasher, cfg: AgentConfig, before: seq<Step>, task: Task, w: World, counters: RateLimit.Counters,
    n: nat)
    requires Acts(cfg, task, w, counters) && Settled(hash, cfg, before, n) && n < 5
    ensures Settled(hash, cfg, WithRound(before, task, w, counters), n + 1)
  {
    var run, deliver := RunAgent(task, w, counters), Deliver(0.0, IdentityApi.NoFault);
    OneMore(hash, cfg, before, run);
    QuietRun(hash, cfg, After(hash, cfg, before), task, w, counters);
    OneMore(hash, cfg, before + [run], deliver);
    QuietDelivery(hash, cfg, After(hash, cfg, before + [run]), 1);
    OneMore(hash, cfg, before + [run] + [deliver], deliver);
    QuietDelivery(hash, cfg, After(hash, cfg, before + [run] + [deliver]), 0);
  }

  lemma NothingYet(hash: HashChain.Hasher, cfg: AgentConfig)
    ensures Settled(hash, cfg, [], 0)
  {
  }

  lemma {:induction false} RoundsSettle(
    hash: HashChain.Hasher, cfg: AgentConfig, task: Task, w: World, counters: RateLimit.Counters, n: nat)
    requires Acts(cfg, task, w, counters) && n <= 5
    ensures Settled(hash, cfg, Rounds(task, w, counters, n), n)
  {
    if n == 0 {
      NothingYet(hash, cfg);
    } else {
      RoundsSettle(hash, cfg, task, w, counters, n - 1);
      OneRound(hash, cfg, Rounds(task, w, counters, n - 1), task, w, counters, n - 1);
    }
  }

  /** The bound is exact: an agent that may do a task does it six times. */
  lemma SixCallsAreReached(
    hash: HashChain.Hasher, cfg: AgentConfig, task: Task, w: World, counters: RateLimit.Counters)
    requires Acts(cfg, task, w, counters)
    ensures var steps := Rounds(task, w, counters, 5) + [RunAgent(task, w, counters)];
      var l := After(hash, cfg, steps);
      && Attended(hash, cfg, steps, 0) && (forall op | op in l.history :: Harmless(cfg, op))
      && Calls(Trace(cfg, l.runs)) == 6 && CountRuns(cfg, l.runs, BrokenOff) == 0
  {
    RoundsSettle(hash, cfg, task, w, counters, 5);
    LastRun(hash, cfg, Rounds(task, w, counters, 5), task, w, counters);
  }

  lemma LastRun(
    hash: HashChain.Hasher, cfg: AgentConfig, before: seq<Step>, task: Task, w: World, counters: RateLimit.Counters)
    requires Acts(cfg, task, w, counters) && Settled(hash, cfg, before, 5)
    ensures var steps := before + [RunAgent(task, w, counters)];
      var l := After(hash, cfg, steps);
      && Attended(hash, cfg, steps, 0) && (forall op | op in l.history :: Harmless(cfg, op))
      && Calls(Trace(cfg, l.runs)) == 6 && CountRuns(cfg, l.runs, BrokenOff) == 0
  {
    OneMore(hash, cfg, before, RunAgent(task, w, counters));
    QuietRun(hash, cfg, After(hash, cfg, before), task, w, counters);
  }
}
