/** The per-minute counter of pep/client.py and the rule of policy/rego/nhi/rate_limit.rego.
    Time is in milliseconds on one clock; each request's Redis commands are one atomic step. */
module RateLimit {
  import opened Text

  const MINUTE := 60_000
  const COUNTER_TTL := 120_000

  function Bucket(now: int): int {
    now / MINUTE
  }

  /** Where Redis was lost, if it was: before INCR, before its reply, or before EXPIRE. */
  datatype CounterFault = NoFault | AtIncr | AtReply | AtExpire

  type Positive = n: nat | 0 < n witness 1

  /** A counter whose EXPIRE was lost has no lifetime. */
  datatype Counter = Counter(count: Positive, expiresAt: Option<int>)
  type Key = (string, int)
  type Counters = map<Key, Counter>

  /** A request that gets as far as the counter; `purge` names keys that Redis evicts just before,
      of which only expired ones go. */
  datatype Arrival = Arrival(agent: string, at: int, fault: CounterFault, purge: set<Key>)

  function KeyOf(a: Arrival): Key {
    (a.agent, Bucket(a.at))
  }

  predicate Expired(c: Counter, now: int) {
    c.expiresAt.Some? && c.expiresAt.value <= now
  }

  function Evict(c: Counters, now: int, purge: set<Key>): Counters {
    map k | k in c && !(k in purge && Expired(c[k], now)) :: c[k]
  }

  function Live(c: Counters, k: Key, now: int): nat {
    if k in c && !Expired(c[k], now) then c[k].count else 0
  }

  /** INCR, then EXPIRE when the key is new. */
  function Incr(c: Counters, k: Key, now: int, fault: CounterFault): Counters {
    var n := Live(c, k, now) + 1;
    if fault == AtIncr then c
    else if n > 1 then c[k := Counter(n, c[k].expiresAt)]
    else c[k := Counter(n, if fault == NoFault then Some(now + COUNTER_TTL) else None)]
  }

  /** The count the PEP injects; there is none when a command it issued failed. */
  function CountTold(c: Counters, k: Key, now: int, fault: CounterFault): Option<nat> {
    var n := Live(c, k, now) + 1;
    if fault == NoFault || (fault == AtExpire && n > 1) then Some(n) else None
  }

  function Step(c: Counters, a: Arrival): Counters {
    Incr(Evict(c, a.at, a.purge), KeyOf(a), a.at, a.fault)
  }

  function After(arrivals: seq<Arrival>): Counters {
    if arrivals == [] then map[] else Step(After(arrivals[..|arrivals| - 1]), arrivals[|arrivals| - 1])
  }

  /** The count that the PEP injects for a request arriving after the others. */
  function Injected(before: seq<Arrival>, a: Arrival): Option<nat> {
    CountTold(Evict(After(before), a.at, a.purge), KeyOf(a), a.at, a.fault)
  }

  /** `current_action_count_per_minute < max_actions_per_minute`, or no count at all. */
  predicate Passes(count: Option<int>, limit: int) {
    count.None? || count.value < limit
  }

  // --------------------------------------------------------------- the counter is exact

  /** How many requests of an agent and minute got their INCR through. */
  function Hits(arrivals: seq<Arrival>, k: Key): nat {
    if arrivals == [] then 0
    else
      var n := |arrivals| - 1;
      Hits(arrivals[..n], k) + if KeyOf(arrivals[n]) == k && arrivals[n].fault != AtIncr then 1 else 0
  }

  predicate InOrder(arrivals: seq<Arrival>) {
    forall i, j | 0 <= i < j < |arrivals| :: arrivals[i].at <= arrivals[j].at
  }

  predicate NoLaterThan(arrivals: seq<Arrival>, now: int) {
    forall i | 0 <= i < |arrivals| :: arrivals[i].at <= now
  }

  /** The first request of an agent and minute to get its INCR through. */
  function FirstHit(arrivals: seq<Arrival>, k: Key): (first: Option<Arrival>)
    ensures first.Some? <==> Hits(arrivals, k) > 0
  {
    if arrivals == [] then None
    else
      var before, a := FirstHit(arrivals[..|arrivals| - 1], k), arrivals[|arrivals| - 1];
      if before == None && KeyOf(a) == k && a.fault != AtIncr then Some(a) else before
  }

  /** The counter under a key, given how many requests were counted and which was the first. */
  predicate CounterOk(c: Counters, k: Key, hits: nat, first: Option<Arrival>) {
    && (k in c <==> hits > 0) && (first.Some? <==> hits > 0)
    && (first.Some? ==> KeyOf(first.value) == k)
    && (k in c ==>
          && c[k].count == hits
          && c[k].expiresAt == if first.value.fault == NoFault then Some(first.value.at + 120_000) else None)
  }

  lemma StepKeepsCounter(c: Counters, a: Arrival, k: Key, hits: nat, first: Option<Arrival>)
    requires CounterOk(c, k, hits, first) && Bucket(a.at) <= k.1
    ensures
      if KeyOf(a) == k && a.fault != AtIncr
      then CounterOk(Step(c, a), k, hits + 1, if first == None then Some(a) else first)
      else CounterOk(Step(c, a), k, hits, first)
  {
    assert k in c ==> k in Evict(c, a.at, a.purge) && !Expired(c[k], a.at);
  }

  /** While the minute of a bucket lasts, its counter holds the number of requests whose INCR got
      through and cannot expire before the minute is over: its lifetime is 120 s from the first of them,
      and has no end if that one lost the reply or EXPIRE. */
  lemma {:induction false} CounterIsExact(arrivals: seq<Arrival>, k: Key, now: int)
    requires InOrder(arrivals) && NoLaterThan(arrivals, now) && Bucket(now) <= k.1
    ensures CounterOk(After(arrivals), k, Hits(arrivals, k), FirstHit(arrivals, k))
    ensures k in After(arrivals) <==> Hits(arrivals, k) > 0
    ensures k in After(arrivals) ==>
      && After(arrivals)[k].count == Hits(arrivals, k)
      && (After(arrivals)[k].expiresAt.Some? ==> After(arrivals)[k].expiresAt.value >= 60_000 * (k.1 + 2))
      && After(arrivals)[k].expiresAt ==
         var first := FirstHit(arrivals, k).value;
         if first.fault == NoFault then Some(first.at + 120_000) else None
  {
    if arrivals != [] {
      var n := |arrivals| - 1;
      var a := arrivals[n];
      assert a.at <= now && Bucket(a.at) <= k.1;
      assert NoLaterThan(arrivals[..n], a.at);
      CounterIsExact(arrivals[..n], k, a.at);
      StepKeepsCounter(After(arrivals[..n]), a, k, Hits(arrivals[..n], k), FirstHit(arrivals[..n], k));
    }
  }

  /** And what it still counts at any later moment, if nothing else reaches it. */
  lemma CounterEnds(arrivals: seq<Arrival>, k: Key, now: int, later: int)
    requires InOrder(arrivals) && NoLaterThan(arrivals, now) && Bucket(now) <= k.1
    ensures var first := FirstHit(arrivals, k);
      var ended := first.Some? && first.value.fault == NoFault && first.value.at + 120_000 <= later;
      Live(After(arrivals), k, later) == if ended then 0 else Hits(arrivals, k)
  {
    CounterIsExact(arrivals, k, now);
  }

  /** The injected count is the request's rank among those of its agent and minute that were
      counted; a request that lost Redis goes on without one, unless only EXPIRE could have been lost
      and was not due. */
  lemma InjectedIsRank(before: seq<Arrival>, a: Arrival)
    requires InOrder(before + [a])
    ensures var rank := Hits(before, KeyOf(a)) + 1;
      Injected(before, a) == if a.fault == NoFault || (a.fault == AtExpire && rank > 1) then Some(rank) else None
  {
    var all := before + [a];
    assert forall i, j | 0 <= i < j < |before| :: all[i] == before[i] && all[j] == before[j];
    assert NoLaterThan(before, a.at) by {
      forall i | 0 <= i < |before| ensures before[i].at <= a.at {
        assert all[i] == before[i] && all[|before|] == a;
      }
    }
    CounterIsExact(before, KeyOf(a), a.at);
  }

  // ------------------------------------------------------------------ what gets through

  /** How many of the requests picked by `where` pass the rate rule. */
  function Admitted(arrivals: seq<Arrival>, limit: int, where: Arrival -> bool): nat {
    if arrivals == [] then 0
    else
      var n := |arrivals| - 1;
      Admitted(arrivals[..n], limit, where)
      + if where(arrivals[n]) && Passes(Injected(arrivals[..n], arrivals[n]), limit) then 1 else 0
  }

  function InBucket(k: Key): Arrival -> bool {
    (a: Arrival) => KeyOf(a) == k
  }

  /** Sixty seconds from `start`, both ends included. */
  function InWindow(agent: string, start: int): Arrival -> bool {
    (a: Arrival) => a.agent == agent && start <= a.at <= start + MINUTE
  }

  /** Buckets are the minutes of the clock, and windows sixty seconds long. */
  lemma MinutesAreSixtySeconds(t: int, agent: string, start: int, a: Arrival)
    ensures 60_000 * Bucket(t) <= t < 60_000 * (Bucket(t) + 1)
    ensures InBucket((agent, Bucket(t)))(a) <==>
      a.agent == agent && 60_000 * Bucket(t) <= a.at < 60_000 * (Bucket(t) + 1)
    ensures InWindow(agent, start)(a) <==> a.agent == agent && start <= a.at <= start + 60_000
  {
  }

  function Quota(limit: int): nat {
    if limit > 1 then limit - 1 else 0
  }

  function Min(a: int, b: int): int {
    if a < b then a else b
  }

  /** The request has no count, and would not have been among the first `limit - 1` counted ones. */
  predicate Slips(before: seq<Arrival>, a: Arrival, limit: int) {
    Injected(before, a).None? && (a.fault == AtIncr || Hits(before, KeyOf(a)) >= Quota(limit))
  }

  /** How many of the requests picked by `where` the rate rule lets through for want of a count. */
  function Slipped(arrivals: seq<Arrival>, limit: int, where: Arrival -> bool): nat {
    if arrivals == [] then 0
    else
      var n := |arrivals| - 1;
      Slipped(arrivals[..n], limit, where)
      + if where(arrivals[n]) && Slips(arrivals[..n], arrivals[n], limit) then 1 else 0
  }

  /** Without failures nothing slips. */
  lemma {:induction false} NothingSlips(arrivals: seq<Arrival>, limit: int, where: Arrival -> bool)
    requires forall a | a in arrivals && where(a) :: a.fault == NoFault
    ensures Slipped(arrivals, limit, where) == 0
  {
    if arrivals != [] {
      NothingSlips(arrivals[..|arrivals| - 1], limit, where);
    }
  }

  lemma PrefixInOrder(arrivals: seq<Arrival>)
    requires arrivals != [] && InOrder(arrivals)
    ensures InOrder(arrivals[..|arrivals| - 1])
    ensures arrivals[..|arrivals| - 1] + [arrivals[|arrivals| - 1]] == arrivals
  {
  }

  /** In one minute of one agent, exactly the first `limit - 1` counted requests pass, one fewer than
      the limit names, under any interleaving with other requests; and besides them those that lost
      Redis and so have no count. */
  lemma {:induction false} BucketAdmitsQuota(arrivals: seq<Arrival>, limit: int, k: Key)
    requires InOrder(arrivals)
    ensures Admitted(arrivals, limit, InBucket(k))
         == Min(Hits(arrivals, k), Quota(limit)) + Slipped(arrivals, limit, InBucket(k))
  {
    if arrivals != [] {
      var n := |arrivals| - 1;
      PrefixInOrder(arrivals);
      BucketAdmitsQuota(arrivals[..n], limit, k);
      InjectedIsRank(arrivals[..n], arrivals[n]);
    }
  }

  lemma {:induction false} AdmittedCovered(
    arrivals: seq<Arrival>, limit: int, where: Arrival -> bool, p: Arrival -> bool, q: Arrival -> bool)
    requires forall a :: where(a) ==> p(a) || q(a)
    ensures Admitted(arrivals, limit, where) - Slipped(arrivals, limit, where)
         <= (Admitted(arrivals, limit, p) - Slipped(arrivals, limit, p))
          + (Admitted(arrivals, limit, q) - Slipped(arrivals, limit, q))
  {
    if arrivals != [] {
      AdmittedCovered(arrivals[..|arrivals| - 1], limit, where, p, q);
    }
  }

  /** Any stretch of sixty seconds, wherever it starts, lets at most `2 * (limit - 1)` requests of
      an agent through, besides those in it that have no count because Redis was lost. */
  lemma WindowAdmitsTwiceQuota(arrivals: seq<Arrival>, limit: int, agent: string, start: int)
    requires InOrder(arrivals)
    ensures Admitted(arrivals, limit, InWindow(agent, start))
         <= 2 * Quota(limit) + Slipped(arrivals, limit, InWindow(agent, start))
  {
    var b := Bucket(start);
    AdmittedCovered(arrivals, limit, InWindow(agent, start), InBucket((agent, b)), InBucket((agent, b + 1)));
    BucketAdmitsQuota(arrivals, limit, (agent, b));
    BucketAdmitsQuota(arrivals, limit, (agent, b + 1));
  }
}
