/** approval/queue.py over Redis: records that vanish when their time is up, and a set of pending
    ids beside them. Each queue operation is one atomic step; time is in milliseconds. */
module ApprovalQueue {
  import opened Text

  type Id = string

  datatype Status = Pending | Approved | Denied

  datatype Ask = Ask(
    agentId: string, action: string, resourceArn: string, taskId: string, policyRef: string,
    riskLevel: string, tokenJti: string)

  datatype Request = Request(
    ask: Ask, requestedAt: int, expiresAt: int, status: Status, approver: Option<string>, resolvedAt: Option<int>)

  /** A record as the queue writes it, or the text that the PEP writes under the same key prefix,
      which the queue cannot parse. */
  datatype Record = Json(request: Request) | PythonText(text: string)

  datatype Entry = Entry(record: Record, expiresAt: int)

  datatype Store = Store(now: int, entries: map<Id, Entry>, pending: set<Id>)

  datatype Result<+T> = Ok(value: T) | NotFound | Unparsable | AlreadyResolved | SelfApproval | RejectedTtl

  const SECOND := 1000
  const KEPT_AFTER_RESOLUTION := 3600 * SECOND

  // --------------------------------------------------------------- the operations

  predicate Visible(s: Store, id: Id) {
    id in s.entries && s.now < s.entries[id].expiresAt
  }

  function Get(s: Store, id: Id): Result<Request> {
    if !Visible(s, id) then NotFound
    else match s.entries[id].record
      case Json(request) => Ok(request)
      case PythonText(_) => Unparsable
  }

  function NewRequest(s: Store, ask: Ask, ttl: int): Request {
    Request(ask, s.now, s.now + ttl * SECOND, Pending, None, None)
  }

  /** SETEX refuses a lifetime that is not positive, before the id is added to the set. */
  function Enqueue(s: Store, id: Id, ask: Ask, ttl: int): Store {
    if ttl <= 0 then s
    else s.(entries := s.entries[id := Entry(Json(NewRequest(s, ask, ttl)), s.now + ttl * SECOND)],
            pending := s.pending + {id})
  }

  /** The checks of `resolve`, on what it reads. */
  function Check(s: Store, id: Id, approver: string): Result<Request> {
    match Get(s, id)
    case Ok(request) =>
      if request.status != Pending then AlreadyResolved
      else if approver == request.ask.agentId then SelfApproval
      else Ok(request)
    case NotFound => NotFound
    case _ => Unparsable
  }

  function Resolved(r: Request, approver: string, approve: bool, at: int): Request {
    r.(status := if approve then Approved else Denied, approver := Some(approver), resolvedAt := Some(at))
  }

  /** The writes of `resolve`, given the request that it read. */
  function Write(s: Store, id: Id, r: Request, approver: string, approve: bool): Store {
    s.(entries := s.entries[id := Entry(Json(Resolved(r, approver, approve, s.now)), s.now + KEPT_AFTER_RESOLUTION)],
       pending := s.pending - {id})
  }

  function Resolve(s: Store, id: Id, approver: string, approve: bool): Store {
    match Check(s, id, approver)
    case Ok(request) => Write(s, id, request, approver, approve)
    case _ => s
  }

  /** What `list_pending` leaves in the set when it completes. */
  function Prune(s: Store): Store {
    s.(pending := set id | id in s.pending && Visible(s, id))
  }

  /** The PEP's own entry: a record with a lifetime, and no member of the set. */
  function PepQueue(s: Store, id: Id, text: string, ttl: int): Store {
    if ttl <= 0 then s else s.(entries := s.entries[id := Entry(PythonText(text), s.now + ttl * SECOND)])
  }

  // ------------------------------------------------------------- the code over Redis

  class Redis {
    var store: Store

    constructor (now: int)
      ensures store == Store(now, map[], {})
    {
      store := Store(now, map[], {});
    }

    method Setex(id: Id, ttl: int, record: Record) returns (ok: bool)
      modifies this
      ensures ok <==> ttl > 0
      ensures store == if ttl > 0
        then old(store).(entries := old(store).entries[id := Entry(record, old(store).now + ttl * SECOND)])
        else old(store)
    {
      ok := ttl > 0;
      if ok {
        store := store.(entries := store.entries[id := Entry(record, store.now + ttl * SECOND)]);
      }
    }

    method Read(id: Id) returns (record: Option<Record>)
      ensures record == if Visible(store, id) then Some(store.entries[id].record) else None
    {
      return if Visible(store, id) then Some(store.entries[id].record) else None;
    }

    method Sadd(id: Id)
      modifies this
      ensures store == old(store).(pending := old(store).pending + {id})
    {
      store := store.(pending := store.pending + {id});
    }

    method Srem(id: Id)
      modifies this
      ensures store == old(store).(pending := old(store).pending - {id})
    {
      store := store.(pending := store.pending - {id});
    }
  }

  class Queue {
    const redis: Redis

    constructor (redis: Redis)
      ensures this.redis == redis
    {
      this.redis := redis;
    }

    /** `id` is the fresh uuid of the request. */
    method EnqueueRequest(id: Id, ask: Ask, ttl: int) returns (r: Result<Request>)
      modifies redis
      ensures redis.store == Enqueue(old(redis.store), id, ask, ttl)
      ensures r == if ttl > 0 then Ok(NewRequest(old(redis.store), ask, ttl)) else RejectedTtl
    {
      var request := NewRequest(redis.store, ask, ttl);
      var ok := redis.Setex(id, ttl, Json(request));
      if !ok {
        return RejectedTtl;
      }
      redis.Sadd(id);
      return Ok(request);
    }

    method GetRequest(id: Id) returns (r: Result<Request>)
      ensures r == Get(redis.store, id)
    {
      var raw := redis.Read(id);
      match raw
      case None => return NotFound;
      case Some(PythonText(_)) => return Unparsable;
      case Some(Json(request)) => return Ok(request);
    }

    method ResolveRequest(id: Id, approver: string, approve: bool) returns (r: Result<Request>)
      modifies redis
      ensures redis.store == Resolve(old(redis.store), id, approver, approve)
      ensures var checked := Check(old(redis.store), id, approver);
        r == if checked.Ok? then Ok(Resolved(checked.value, approver, approve, old(redis.store.now))) else checked
      ensures r.Ok? ==>
        && (r.value.status == Approved <==> approve) && (r.value.status == Denied <==> !approve)
        && r.value.approver == Some(approver) && r.value.resolvedAt == Some(old(redis.store.now))
    {
      var read := GetRequest(id);
      if !read.Ok? {
        return read;
      }
      var request := read.value;
      if request.status != Pending {
        return AlreadyResolved;
      }
      if approver == request.ask.agentId {
        return SelfApproval;
      }
      var done := Resolved(request, approver, approve, redis.store.now);
      var _ := redis.Setex(id, 3600, Json(done));
      redis.Srem(id);
      return Ok(done);
    }

    /** Walks the set in any order, dropping ids whose record is gone; a record that does not parse
        ends the walk with an error. */
    method ListPending() returns (r: Result<seq<Request>>, ids: seq<Id>)
      modifies redis
      ensures r.Ok? ==> redis.store == Prune(old(redis.store))
      ensures r.Ok? ==> |ids| == |r.value| && forall i, j | 0 <= i < j < |ids| :: ids[i] != ids[j]
      ensures r.Ok? ==> (set id | id in ids) == redis.store.pending
      ensures r.Ok? ==> forall i | 0 <= i < |ids| :: Get(old(redis.store), ids[i]) == Ok(r.value[i])
      ensures r.Ok? <==> forall id | id in old(redis.store).pending && Visible(old(redis.store), id) ::
        old(redis.store).entries[id].record.Json?
      ensures r.Ok? || r.Unparsable?
    {
      ghost var start := redis.store;
      var todo := redis.store.pending;
      var results := [];
      ids := [];
      while todo != {}
        invariant todo <= start.pending
        invariant redis.store == start.(pending := redis.store.pending)
        invariant redis.store.pending == set id | id in start.pending && (id in todo || Visible(start, id))
        invariant |ids| == |results| && (forall i, j | 0 <= i < j < |ids| :: ids[i] != ids[j])
        invariant forall i | 0 <= i < |ids| :: Get(start, ids[i]) == Ok(results[i])
        invariant forall id :: id in ids <==> id in start.pending - todo && Visible(start, id)
        invariant forall id | id in start.pending - todo && Visible(start, id) :: start.entries[id].record.Json?
      {
        var id :| id in todo;
        todo := todo - {id};
        var read := GetRequest(id);
        match read {
          case Ok(request) => results, ids := results + [request], ids + [id];
          case NotFound => redis.Srem(id);
          case _ => return Unparsable, ids;
        }
      }
      r := Ok(results);
      assert (set id | id in ids) == redis.store.pending;
    }
  }

  // ------------------------------------------------------------------------ runs

  datatype Op =
    | DoEnqueue(id: Id, ask: Ask, ttl: int)
    | DoResolve(id: Id, approver: string, approve: bool)
    | DoList
    | DoPepQueue(id: Id, text: string, ttl: int)
    | Tick(elapsed: nat)

  datatype Resolution = Resolution(approver: string, approve: bool, at: int)

  /** The life of a request, kept apart from Redis: as queued, and how it was resolved. */
  datatype Life = Life(request: Request, resolution: Option<Resolution>)

  datatype World = World(store: Store, lives: map<Id, Life>, pepIds: set<Id>)

  function Start(now: int): World {
    World(Store(now, map[], {}), map[], {})
  }

  /** One step. Ids come from uuid4, so a step that would reuse one is no step at all. */
  function Step(w: World, op: Op): World {
    match op
    case DoEnqueue(id, ask, ttl) =>
      if id in w.store.entries || ttl <= 0 then w
      else
        w.(store := Enqueue(w.store, id, ask, ttl),
           lives := w.lives[id := Life(NewRequest(w.store, ask, ttl), None)])
    case DoResolve(id, approver, approve) =>
      var store := Resolve(w.store, id, approver, approve);
      if Check(w.store, id, approver).Ok? && id in w.lives
      then
        var resolution := Some(Resolution(approver, approve, w.store.now));
        w.(store := store, lives := w.lives[id := w.lives[id].(resolution := resolution)])
      else w.(store := store)
    case DoList => w.(store := Prune(w.store))
    case DoPepQueue(id, text, ttl) =>
      if id in w.store.entries || ttl <= 0 then w
      else w.(store := PepQueue(w.store, id, text, ttl), pepIds := w.pepIds + {id})
    case Tick(elapsed) => w.(store := w.store.(now := w.store.now + elapsed))
  }

  function Run(w: World, ops: seq<Op>): World {
    if ops == [] then w else Step(Run(w, ops[..|ops| - 1]), ops[|ops| - 1])
  }

  /** The record a life amounts to. */
  function EntryOf(l: Life): Entry {
    match l.resolution
    case None => Entry(Json(l.request), l.request.expiresAt)
    case Some(Resolution(approver, approve, at)) =>
      Entry(Json(Resolved(l.request, approver, approve, at)), at + KEPT_AFTER_RESOLUTION)
  }

  /** A request starts pending; it is resolved before its expiry, and not by its own agent. */
  ghost predicate LifeOk(l: Life, now: int) {
    && l.request.status == Pending && l.request.approver == None && l.request.resolvedAt == None
    && l.request.requestedAt <= now
    && (l.resolution.Some? ==>
          var r := l.resolution.value;
          l.request.requestedAt <= r.at < l.request.expiresAt && r.at <= now && r.approver != l.request.ask.agentId)
  }

  /** Records are exactly the lives and the PEP's texts. */
  ghost predicate RecordsOk(w: World) {
    && w.lives.Keys !! w.pepIds
    && w.store.entries.Keys == w.lives.Keys + w.pepIds
    && (forall id | id in w.pepIds :: w.store.entries[id].record.PythonText?)
    && (forall id | id in w.lives :: w.store.entries[id] == EntryOf(w.lives[id]) && LifeOk(w.lives[id], w.store.now))
  }

  /** The set holds only unresolved requests, and all of those that have not expired. */
  ghost predicate PendingOk(w: World) {
    && (forall id | id in w.store.pending :: id in w.lives && w.lives[id].resolution == None)
    && (forall id | id in w.lives && w.lives[id].resolution == None && Visible(w.store, id) :: id in w.store.pending)
  }

  ghost predicate Inv(w: World) {
    RecordsOk(w) && PendingOk(w)
  }

  ghost predicate SetLife(w: World, v: World, id: Id, l: Life) {
    && v.store.now == w.store.now && v.pepIds == w.pepIds && v.lives == w.lives[id := l]
    && v.store.entries == w.store.entries[id := EntryOf(l)]
    && v.store.pending == if l.resolution == None then w.store.pending + {id} else w.store.pending - {id}
  }

  lemma SetLifeKeepsRecords(w: World, v: World, id: Id, l: Life)
    requires RecordsOk(w) && id !in w.pepIds && LifeOk(l, w.store.now) && SetLife(w, v, id, l)
    ensures RecordsOk(v)
  {
    assert v.store.entries.Keys == w.store.entries.Keys + {id};
    assert v.lives.Keys == w.lives.Keys + {id};
  }

  /** Giving an id a life and the matching record and set membership keeps the invariant. */
  lemma SetLifeKeepsInv(w: World, v: World, id: Id, l: Life)
    requires Inv(w) && id !in w.pepIds && LifeOk(l, w.store.now) && SetLife(w, v, id, l)
    ensures Inv(v)
  {
    SetLifeKeepsRecords(w, v, id, l);
    SetLifeKeepsPending(w, v, id, l);
  }

  lemma SetLifeKeepsPending(w: World, v: World, id: Id, l: Life)
    requires Inv(w) && SetLife(w, v, id, l)
    ensures PendingOk(v)
  {
    forall i | i in v.store.pending ensures i in v.lives && v.lives[i].resolution == None {
      if i != id {
        assert i in w.store.pending && v.lives[i] == w.lives[i];
      }
    }
    forall i | i in v.lives && v.lives[i].resolution == None && Visible(v.store, i) ensures i in v.store.pending {
      if i != id {
        assert v.lives[i] == w.lives[i] && Visible(w.store, i);
      }
    }
  }

  lemma EnqueueKeepsInv(w: World, id: Id, ask: Ask, ttl: int)
    requires Inv(w)
    ensures Inv(Step(w, DoEnqueue(id, ask, ttl)))
  {
  }

  lemma ResolveKeepsInv(w: World, id: Id, approver: string, approve: bool)
    requires Inv(w)
    ensures Inv(Step(w, DoResolve(id, approver, approve)))
  {
    if Check(w.store, id, approver).Ok? {
      var l := w.lives[id].(resolution := Some(Resolution(approver, approve, w.store.now)));
      SetLifeKeepsInv(w, Step(w, DoResolve(id, approver, approve)), id, l);
    }
  }

  lemma PepQueueKeepsInv(w: World, id: Id, text: string, ttl: int)
    requires Inv(w)
    ensures Inv(Step(w, DoPepQueue(id, text, ttl)))
  {
  }

  lemma StepKeepsInv(w: World, op: Op)
    requires Inv(w)
    ensures Inv(Step(w, op))
  {
    match op
    case DoEnqueue(id, ask, ttl) => EnqueueKeepsInv(w, id, ask, ttl);
    case DoResolve(id, approver, approve) => ResolveKeepsInv(w, id, approver, approve);
    case DoList =>
    case DoPepQueue(id, text, ttl) => PepQueueKeepsInv(w, id, text, ttl);
    case Tick(_) =>
  }

  ghost predicate IsResolved(w: World, id: Id) {
    id in w.lives && w.lives[id].resolution.Some?
  }

  predicate Succeeds(w: World, op: Op, id: Id) {
    op.DoResolve? && op.id == id && Check(w.store, id, op.approver).Ok?
  }

  /** One step against one request: a resolution is never touched, and appears only by success. */
  lemma StepAgainstLife(w: World, op: Op, id: Id)
    requires Inv(w)
    ensures IsResolved(w, id) ==>
      id in Step(w, op).lives && Step(w, op).lives[id] == w.lives[id] && !Succeeds(w, op, id)
    ensures !IsResolved(w, id) ==> (IsResolved(Step(w, op), id) <==> Succeeds(w, op, id))
  {
  }

  lemma {:induction false} RunKeepsInv(w: World, ops: seq<Op>)
    requires Inv(w)
    ensures Inv(Run(w, ops))
  {
    if ops != [] {
      RunKeepsInv(w, ops[..|ops| - 1]);
      StepKeepsInv(Run(w, ops[..|ops| - 1]), ops[|ops| - 1]);
    }
  }

  ghost predicate Reachable(w: World) {
    exists now, ops :: w == Run(Start(now), ops)
  }

  lemma ReachableInv(w: World)
    requires Reachable(w)
    ensures Inv(w)
  {
    var now, ops :| w == Run(Start(now), ops);
    RunKeepsInv(Start(now), ops);
  }

  /** A full scan of the records: the live ones that parse and are pending. */
  function LivePending(s: Store): set<Id> {
    set id | id in s.entries && Visible(s, id)
          && s.entries[id].record.Json? && s.entries[id].record.request.status == Pending
  }

  /** In every reachable state the set and a full scan agree up to expired ids, so `list_pending`
      never fails and leaves, and returns, exactly what the scan finds. */
  lemma PendingSetAgreesWithScan(w: World)
    requires Reachable(w)
    ensures LivePending(w.store) <= w.store.pending
    ensures forall id | id in w.store.pending :: id in LivePending(w.store) || !Visible(w.store, id)
    ensures Prune(w.store).pending == LivePending(w.store)
  {
    ReachableInv(w);
  }

  /** Two states of a request that differ in its resolution alone. */
  predicate SameAsk(a: Request, b: Request) {
    a.ask == b.ask && a.requestedAt == b.requestedAt && a.expiresAt == b.expiresAt
  }

  /** The request carries the decision, who took it, and when. */
  predicate Records(r: Request, approver: string, approve: bool, at: int) {
    && (r.status == Approved <==> approve) && (r.status == Denied <==> !approve)
    && r.approver == Some(approver) && r.resolvedAt == Some(at)
  }

  /** What `get` answers, at any moment, from the life of the request alone: pending until its expiry,
      its resolution for exactly an hour after it, nothing otherwise. */
  lemma GetTellsTheLife(w: World, id: Id)
    requires Reachable(w) && id in w.lives
    ensures var l, got := w.lives[id], Get(w.store, id);
      var until := if l.resolution == None then l.request.expiresAt else l.resolution.value.at + 3_600_000;
      && (got.Ok? || got == NotFound)
      && (got.Ok? <==> w.store.now < until)
      && (got.Ok? ==> SameAsk(got.value, l.request))
      && (got.Ok? && l.resolution == None ==>
            got.value.status == Pending && got.value.approver == None && got.value.resolvedAt == None)
      && (got.Ok? && l.resolution.Some? ==>
            Records(got.value, l.resolution.value.approver, l.resolution.value.approve, l.resolution.value.at))
  {
    ReachableInv(w);
  }

  /** A new request is pending, as it was asked, for exactly its lifetime; with a lifetime that is not
      positive nothing happens. */
  lemma EnqueuedIsPending(w: World, id: Id, ask: Ask, ttl: int, elapsed: nat)
    requires id !in w.store.entries
    ensures ttl <= 0 ==> Enqueue(w.store, id, ask, ttl) == w.store
    ensures ttl > 0 ==> var v := Step(Step(w, DoEnqueue(id, ask, ttl)), Tick(elapsed));
      var got := Get(v.store, id);
      && id in v.store.pending && (got.Ok? <==> elapsed < 1000 * ttl) && (!got.Ok? ==> got == NotFound)
      && (got.Ok? ==>
            && got.value.ask == ask && got.value.status == Pending
            && got.value.requestedAt == w.store.now && got.value.expiresAt == w.store.now + 1000 * ttl
            && got.value.approver == None && got.value.resolvedAt == None)
  {
  }

  /** A resolution that goes through is recorded as it was decided, and changes nothing else. */
  lemma ResolutionIsRecorded(w: World, id: Id, approver: string, approve: bool)
    requires Reachable(w) && Succeeds(w, DoResolve(id, approver, approve), id)
    ensures var v := Step(w, DoResolve(id, approver, approve));
      var before, after := Get(w.store, id), Get(v.store, id);
      && before.Ok? && after.Ok? && before.value.status == Pending
      && SameAsk(after.value, before.value) && Records(after.value, approver, approve, w.store.now)
      && id !in v.store.pending
  {
    ReachableInv(w);
  }

  lemma {:induction false} RunConcat(w: World, a: seq<Op>, b: seq<Op>)
    ensures Run(w, a + b) == Run(Run(w, a), b)
    decreases |b|
  {
    if b == [] {
      assert a + b == a;
    } else {
      var n := |b| - 1;
      RunConcat(w, a, b[..n]);
      assert (a + b)[..|a| + n] == a + b[..n];
    }
  }

  /** Over any run: as long as a resolved request can be read, it tells the decision of the one
      resolution that went through. */
  lemma DecisionIsKept(now: int, ops: seq<Op>, i: nat, id: Id)
    requires i < |ops| && Succeeds(Run(Start(now), ops[..i]), ops[i], id)
    ensures var at, w := Run(Start(now), ops[..i]).store.now, Run(Start(now), ops);
      && (Get(w.store, id).Ok? <==> w.store.now < at + 3_600_000)
      && (Get(w.store, id).Ok? ==> Records(Get(w.store, id).value, ops[i].approver, ops[i].approve, at))
  {
    var u := Run(Start(now), ops[..i]);
    RunKeepsInv(Start(now), ops[..i]);
    SuccessIsResolution(u, ops[i], id);
    RunAgain(Start(now), ops, i);
    StepKeepsInv(u, ops[i]);
    ResolutionIsFinal(Step(u, ops[i]), ops[i + 1..], id);
    GetTellsTheLife(Run(Start(now), ops), id);
  }

  lemma SuccessIsResolution(w: World, op: Op, id: Id)
    requires Inv(w) && Succeeds(w, op, id)
    ensures id in Step(w, op).lives
    ensures Step(w, op).lives[id].resolution == Some(Resolution(op.approver, op.approve, w.store.now))
  {
  }

  lemma RunAgain(w: World, ops: seq<Op>, i: nat)
    requires i < |ops|
    ensures Run(w, ops) == Run(Step(Run(w, ops[..i]), ops[i]), ops[i + 1..])
  {
    assert ops[..i + 1][..i] == ops[..i];
    assert ops == ops[..i + 1] + ops[i + 1..];
    RunConcat(w, ops[..i + 1], ops[i + 1..]);
  }

  /** What `resolve` answers to any caller, from the life of the request alone. */
  lemma ResolveAnswers(w: World, id: Id, approver: string)
    requires Reachable(w)
    ensures var answer := Check(w.store, id, approver);
      if id in w.lives then
        var l := w.lives[id];
        if w.store.now >= (if l.resolution == None then l.request.expiresAt else l.resolution.value.at + 3_600_000)
        then answer == NotFound
        else if l.resolution.Some? then answer == AlreadyResolved
        else if approver == l.request.ask.agentId then answer == SelfApproval
        else answer == Ok(l.request)
      else answer == if id in w.pepIds && Visible(w.store, id) then Unparsable else NotFound
  {
    ReachableInv(w);
  }

  /** A resolution goes through exactly for a request of the queue that is unresolved and not
      expired, by someone other than its agent. */
  lemma ResolveSucceedsIff(w: World, id: Id, approver: string)
    requires Reachable(w)
    ensures Check(w.store, id, approver).Ok? <==>
      && id in w.lives && w.lives[id].resolution == None
      && w.store.now < w.lives[id].request.expiresAt && approver != w.lives[id].request.ask.agentId
  {
    ReachableInv(w);
  }

  /** Once resolved, a request keeps its resolution for ever. */
  lemma {:induction false} ResolutionIsFinal(w: World, ops: seq<Op>, id: Id)
    requires Inv(w) && IsResolved(w, id)
    ensures id in Run(w, ops).lives && Run(w, ops).lives[id] == w.lives[id]
  {
    if ops != [] {
      var n := |ops| - 1;
      RunKeepsInv(w, ops[..n]);
      ResolutionIsFinal(w, ops[..n], id);
      StepAgainstLife(Run(w, ops[..n]), ops[n], id);
    }
  }

  /** How many resolutions of a request succeed in a run. */
  function Successes(w: World, ops: seq<Op>, id: Id): nat {
    if ops == [] then 0
    else
      var n := |ops| - 1;
      Successes(w, ops[..n], id) + if Succeeds(Run(w, ops[..n]), ops[n], id) then 1 else 0
  }

  lemma {:induction false} SuccessesCountTheResolution(w: World, ops: seq<Op>, id: Id)
    requires Inv(w) && !IsResolved(w, id)
    ensures Successes(w, ops, id) == if IsResolved(Run(w, ops), id) then 1 else 0
  {
    if ops != [] {
      var n := |ops| - 1;
      RunKeepsInv(w, ops[..n]);
      SuccessesCountTheResolution(w, ops[..n], id);
      StepAgainstLife(Run(w, ops[..n]), ops[n], id);
    }
  }

  /** Each request is resolved at most once in any run. */
  lemma ResolvedAtMostOnce(now: int, ops: seq<Op>, id: Id)
    ensures Successes(Start(now), ops, id) <= 1
  {
    SuccessesCountTheResolution(Start(now), ops, id);
  }

  /** What the PEP queues can never be resolved, and never shows up in the pending list. */
  lemma PepRequestsAreStuck(w: World, id: Id, approver: string)
    requires Reachable(w) && id in w.pepIds
    ensures !Check(w.store, id, approver).Ok? && id !in w.store.pending
    ensures Visible(w.store, id) ==> Check(w.store, id, approver) == Unparsable
  {
    ReachableInv(w);
  }

  /** And such requests exist: from the start, one queued by the PEP is visible and stuck. */
  lemma PepRequestExists(now: int, id: Id, text: string, approver: string)
    ensures var w := Run(Start(now), [DoPepQueue(id, text, 14400)]);
      Reachable(w) && id in w.pepIds && Visible(w.store, id) && Check(w.store, id, approver) == Unparsable
    ensures PepQueue(Start(now).store, id, text, 0) == Start(now).store
  {
    var ops := [DoPepQueue(id, text, 14400)];
    assert ops[..0] == [];
    assert Run(Start(now), ops) == Step(Start(now), ops[0]);
  }

  // ------------------------------------------------------- without atomic steps

  /** What one `resolve` call wants. */
  datatype Caller = Caller(approver: string, approve: bool)

  /** A call of `resolve` that is not atomic: before its read, between read and writes with what it
      read, or over with its outcome. */
  datatype Progress = Ready | HasRead(read: Result<Request>) | Over(outcome: Result<Request>)

  function Later(s: Store, elapsed: nat): Store {
    s.(now := s.now + elapsed)
  }

  /** The next step of one call: the read, or the check and the writes. */
  function Advance(s: Store, id: Id, c: Caller, p: Progress): (Store, Progress) {
    match p
    case Ready => (s, HasRead(Check(s, id, c.approver)))
    case HasRead(Ok(request)) =>
      (Write(s, id, request, c.approver, c.approve), Over(Ok(Resolved(request, c.approver, c.approve, s.now))))
    case HasRead(refused) => (s, Over(refused))
    case Over(_) => (s, p)
  }

  /** An atomic call is its two steps with nothing between them. */
  lemma TwoStepsAreResolve(s: Store, id: Id, c: Caller)
    ensures var (s1, p) := Advance(s, id, c, Ready);
      var (s2, q) := Advance(s1, id, c, p);
      s2 == Resolve(s, id, c.approver, c.approve) && q.Over? && (q.outcome.Ok? <==> Check(s, id, c.approver).Ok?)
  {
  }

  /** A call with time passing between its steps. It succeeds on what it read, however long ago that
      was; and it brings an expired request back exactly when it does so at or after the expiry. */
  lemma SlowResolveIff(w: World, id: Id, c: Caller, wait: nat)
    requires Reachable(w) && id in w.lives
    ensures var request := w.lives[id].request;
      var (s1, p) := Advance(w.store, id, c, Ready);
      var (s2, q) := Advance(Later(s1, wait), id, c, p);
      && q.Over?
      && (q.outcome.Ok? <==>
            w.lives[id].resolution == None && w.store.now < request.expiresAt && c.approver != request.ask.agentId)
      && (q.outcome.Ok? ==>
            var got := Get(s2, id);
            got.Ok? && SameAsk(got.value, request) && Records(got.value, c.approver, c.approve, w.store.now + wait))
      && (q.outcome.Ok? ==>
            (Get(Later(w.store, wait), id) == NotFound <==> request.expiresAt <= w.store.now + wait))
  {
    ReachableInv(w);
  }

  /** `list_pending` with other operations between its reading the set and its reading a record: it
      lists a request that is not pending exactly when that was resolved meanwhile, less than 3600 s
      ago. */
  lemma ListRaceIff(w: World, meanwhile: seq<Op>, id: Id)
    requires Reachable(w) && id in w.store.pending
    ensures var v := Run(w, meanwhile);
      var listed := Get(v.store, id);
      && id in v.lives
      && (listed.Ok? && listed.value.status != Pending <==>
            v.lives[id].resolution.Some? && v.store.now < v.lives[id].resolution.value.at + 3_600_000)
  {
    ReachableInv(w);
    RunKeepsInv(w, meanwhile);
    LivesStay(w, meanwhile, id);
  }

  lemma {:induction false} LivesStay(w: World, ops: seq<Op>, id: Id)
    requires id in w.lives
    ensures id in Run(w, ops).lives
  {
    if ops != [] {
      LivesStay(w, ops[..|ops| - 1], id);
    }
  }

  datatype Race = Race(store: Store, first: Progress, second: Progress)

  /** One move of the race: after some time, the next step of the first caller or of the second. */
  datatype Move = Move(first: bool, delay: nat)

  function Turn(r: Race, id: Id, a: Caller, b: Caller, m: Move): Race {
    var now := Later(r.store, m.delay);
    if m.first then
      var (s, p) := Advance(now, id, a, r.first);
      r.(store := s, first := p)
    else
      var (s, p) := Advance(now, id, b, r.second);
      r.(store := s, second := p)
  }

  function Interleave(r: Race, id: Id, a: Caller, b: Caller, schedule: seq<Move>): Race {
    if schedule == [] then r
    else Turn(Interleave(r, id, a, b, schedule[..|schedule| - 1]), id, a, b, schedule[|schedule| - 1])
  }

  /** An interleaving of two calls: each takes its two steps. */
  predicate IsSchedule(schedule: seq<Move>) {
    && |schedule| == 4
    && multiset{schedule[0].first, schedule[1].first, schedule[2].first, schedule[3].first}
       == multiset{true, true, false, false}
  }

  /** Both calls read before either writes. */
  predicate ReadsFirst(schedule: seq<Move>)
    requires |schedule| == 4
  {
    schedule[0].first != schedule[1].first
  }

  lemma ScheduleForms(schedule: seq<Move>)
    requires IsSchedule(schedule)
    ensures
      if ReadsFirst(schedule) then schedule[2].first != schedule[3].first
      else schedule[1].first == schedule[0].first && schedule[2].first == schedule[3].first == !schedule[0].first
  {
    var m := multiset{schedule[0].first, schedule[1].first, schedule[2].first, schedule[3].first};
    assert m[true] == 2 && m[false] == 2;
  }

  lemma OneMoreTurn(r: Race, id: Id, a: Caller, b: Caller, schedule: seq<Move>, m: Move)
    ensures Interleave(r, id, a, b, schedule + [m]) == Turn(Interleave(r, id, a, b, schedule), id, a, b, m)
  {
    assert (schedule + [m])[..|schedule|] == schedule;
  }

  lemma RunOfFour(r: Race, id: Id, a: Caller, b: Caller, ms: seq<Move>)
    requires |ms| == 4
    ensures Interleave(r, id, a, b, ms) ==
      Turn(Turn(Turn(Turn(r, id, a, b, ms[0]), id, a, b, ms[1]), id, a, b, ms[2]), id, a, b, ms[3])
  {
    assert ms[..0] == [] && ms[..1] == [] + [ms[0]] && ms[..2] == ms[..1] + [ms[1]];
    assert ms[..3] == ms[..2] + [ms[2]] && ms == ms[..3] + [ms[3]];
    OneMoreTurn(r, id, a, b, [], ms[0]);
    OneMoreTurn(r, id, a, b, ms[..1], ms[1]);
    OneMoreTurn(r, id, a, b, ms[..2], ms[2]);
    OneMoreTurn(r, id, a, b, ms[..3], ms[3]);
  }

  /** What a call does that reads a request which both callers may resolve: nothing but the clock
      can make it fail. */
  lemma ReadLater(s: Store, id: Id, c: Caller, elapsed: nat)
    requires Check(s, id, c.approver).Ok?
    ensures Check(Later(s, elapsed), id, c.approver)
         == if Visible(Later(s, elapsed), id) then Ok(Get(s, id).value) else NotFound
  {
  }

  lemma BothRead(s: Store, id: Id, a: Caller, b: Caller, x: Move, y: Move)
    requires x.first != y.first
    ensures var early, late := Later(s, x.delay), Later(s, x.delay + y.delay);
      Turn(Turn(Race(s, Ready, Ready), id, a, b, x), id, a, b, y)
      == Race(late, HasRead(Check(if x.first then early else late, id, a.approver)),
              HasRead(Check(if x.first then late else early, id, b.approver)))
  {
    assert Later(Later(s, x.delay), y.delay) == Later(s, x.delay + y.delay);
  }

  lemma BothWrite(r: Race, id: Id, a: Caller, b: Caller, x: Move, y: Move)
    requires r.first.HasRead? && r.second.HasRead? && x.first != y.first
    ensures var t := Turn(Turn(r, id, a, b, x), id, a, b, y);
      && t.first.Over? && (t.first.outcome.Ok? <==> r.first.read.Ok?)
      && t.second.Over? && (t.second.outcome.Ok? <==> r.second.read.Ok?)
      && t.store.now == r.store.now + x.delay + y.delay
      && (y.first && r.first.read.Ok? ==>
            Get(t.store, id) == Ok(Resolved(r.first.read.value, a.approver, a.approve, t.store.now)))
      && (!y.first && r.second.read.Ok? ==>
            Get(t.store, id) == Ok(Resolved(r.second.read.value, b.approver, b.approve, t.store.now)))
  {
  }

  /** One call from read to writes. */
  lemma OneGoes(s: Store, id: Id, a: Caller, b: Caller, x: Move, y: Move)
    requires x.first == y.first
    requires Check(s, id, a.approver).Ok? && Check(s, id, b.approver).Ok?
    ensures var c := if x.first then a else b;
      var t := Turn(Turn(Race(s, Ready, Ready), id, a, b, x), id, a, b, y);
      var (mine, other) := if x.first then (t.first, t.second) else (t.second, t.first);
      && other == Ready && mine.Over? && (mine.outcome.Ok? <==> Visible(Later(s, x.delay), id))
      && (forall n: nat, d: Caller :: !Check(Later(t.store, n), id, d.approver).Ok?)
  {
    var c := if x.first then a else b;
    ReadLater(s, id, c, x.delay);
  }

  lemma OtherFails(r: Race, id: Id, a: Caller, b: Caller, x: Move, y: Move)
    requires x.first == y.first && (if x.first then r.first else r.second) == Ready
    requires forall n: nat, d: Caller :: !Check(Later(r.store, n), id, d.approver).Ok?
    ensures var t := Turn(Turn(r, id, a, b, x), id, a, b, y);
      if x.first then t.second == r.second && t.first.Over? && !t.first.outcome.Ok?
      else t.first == r.first && t.second.Over? && !t.second.outcome.Ok?
  {
    var c := if x.first then a else b;
    assert !Check(Later(r.store, x.delay), id, c.approver).Ok?;
  }

  /** Two callers who may both resolve a request, over all interleavings of their steps with any time
      between them: the one that reads first succeeds exactly when the request has not expired by
      then, and the other one exactly when it reads before the first one writes and before the
      expiry. So both succeed if and only if both reads, before the expiry, come before both writes;
      and then the later writer's decision stands. */
  lemma BothResolvesSucceedIff(s: Store, id: Id, a: Caller, b: Caller, schedule: seq<Move>)
    requires Check(s, id, a.approver).Ok? && Check(s, id, b.approver).Ok? && IsSchedule(schedule)
    ensures var r := Interleave(Race(s, Ready, Ready), id, a, b, schedule);
      var firstRead, secondRead := schedule[0].delay, schedule[0].delay + schedule[1].delay;
      var (leader, other) := if schedule[0].first then (r.first, r.second) else (r.second, r.first);
      var kept := if schedule[3].first then a else b;
      && leader.Over? && other.Over?
      && (leader.outcome.Ok? <==> Visible(Later(s, firstRead), id))
      && (other.outcome.Ok? <==> ReadsFirst(schedule) && Visible(Later(s, secondRead), id))
      && (other.outcome.Ok? ==>
            var got := Get(r.store, id);
            && got.Ok? && SameAsk(got.value, Get(s, id).value)
            && Records(got.value, kept.approver, kept.approve, r.store.now))
  {
    var start := Race(s, Ready, Ready);
    ScheduleForms(schedule);
    RunOfFour(start, id, a, b, schedule);
    if ReadsFirst(schedule) {
      BothRead(s, id, a, b, schedule[0], schedule[1]);
      var early, late := schedule[0].delay, schedule[0].delay + schedule[1].delay;
      ReadLater(s, id, a, if schedule[0].first then early else late);
      ReadLater(s, id, b, if schedule[0].first then late else early);
      BothWrite(Turn(Turn(start, id, a, b, schedule[0]), id, a, b, schedule[1]), id, a, b, schedule[2], schedule[3]);
    } else {
      OneGoes(s, id, a, b, schedule[0], schedule[1]);
      OtherFails(Turn(Turn(start, id, a, b, schedule[0]), id, a, b, schedule[1]), id, a, b, schedule[2], schedule[3]);
    }
  }
}
