/** audit/consumer.py and the `/chain/verify` query of audit/api.py: from Kafka messages to rows
    of `audit_events`, and from rows back to a log. */
module AuditStore {
  import opened Text
  import opened AuditSchema
  import opened HashChain
  import opened Subsequence
  import opened AuditProducer

  type Table = map<Uuid, AuditEvent>

  /** A message as the consumer meets it; `stored` is false when the insert raised, in which case
      the error is logged and the message is skipped. */
  datatype Message = Event(event: AuditEvent, stored: bool) | Undecodable

  // ---------------------------------------------------------------- ingestion

  /** INSERT ... ON CONFLICT (event_id) DO NOTHING. */
  function Insert(rows: Table, e: AuditEvent): Table {
    if e.fields.eventId in rows then rows else rows[e.fields.eventId := e]
  }

  function Handle(rows: Table, m: Message): Table {
    if m.Event? && m.stored then Insert(rows, m.event) else rows
  }

  function Ingest(rows: Table, ms: seq<Message>): Table {
    if ms == [] then rows else Handle(Ingest(rows, ms[..|ms| - 1]), ms[|ms| - 1])
  }

  function Flatten<T>(ss: seq<seq<T>>): seq<T> {
    if ss == [] then [] else Flatten(ss[..|ss| - 1]) + ss[|ss| - 1]
  }

  /** All messages of a number of polls, in the order they are handled. */
  function Messages(polls: seq<seq<seq<Message>>>): seq<Message> {
    if polls == [] then [] else Messages(polls[..|polls| - 1]) + Flatten(polls[|polls| - 1])
  }

  lemma {:induction false} IngestAppend(rows: Table, a: seq<Message>, b: seq<Message>)
    ensures Ingest(rows, a + b) == Ingest(Ingest(rows, a), b)
    decreases |b|
  {
    if b == [] {
      assert a + b == a;
    } else {
      var n := |b| - 1;
      assert (a + b)[..|a| + n] == a + b[..n];
      IngestAppend(rows, a, b[..n]);
    }
  }

  lemma IngestSnoc(rows: Table, ms: seq<Message>, k: nat)
    requires k < |ms|
    ensures Ingest(rows, ms[..k + 1]) == Handle(Ingest(rows, ms[..k]), ms[k])
  {
    assert ms[..k + 1][..k] == ms[..k];
  }

  class Consumer {
    var rows: Table

    constructor ()
      ensures rows == map[]
    {
      rows := map[];
    }

    method Persist(event: AuditEvent)
      modifies this
      ensures rows == Insert(old(rows), event)
    {
      if event.fields.eventId !in rows {
        rows := rows[event.fields.eventId := event];
      }
    }

    method ConsumeMessages(messages: seq<Message>)
      modifies this
      ensures rows == Ingest(old(rows), messages)
    {
      for k := 0 to |messages|
        invariant rows == Ingest(old(rows), messages[..k])
      {
        IngestSnoc(old(rows), messages, k);
        match messages[k]
        case Undecodable =>
        case Event(event, stored) =>
          if stored {
            Persist(event);
          }
      }
      assert messages[..|messages|] == messages;
    }

    /** One poll: messages grouped by partition. */
    method ConsumePoll(records: seq<seq<Message>>)
      modifies this
      ensures rows == Ingest(old(rows), Flatten(records))
    {
      for p := 0 to |records|
        invariant rows == Ingest(old(rows), Flatten(records[..p]))
      {
        ConsumeMessages(records[p]);
        IngestAppend(old(rows), Flatten(records[..p]), records[p]);
        assert records[..p + 1][..p] == records[..p];
      }
      assert records[..|records|] == records;
    }
  }

  /** The consumer process: poll after poll until it is stopped. */
  method RunConsumer(polls: seq<seq<seq<Message>>>) returns (consumer: Consumer)
    ensures fresh(consumer) && consumer.rows == Ingest(map[], Messages(polls))
  {
    consumer := new Consumer();
    for i := 0 to |polls|
      invariant fresh(consumer) && consumer.rows == Ingest(map[], Messages(polls[..i]))
    {
      consumer.ConsumePoll(polls[i]);
      IngestAppend(map[], Messages(polls[..i]), Flatten(polls[i]));
      assert polls[..i + 1][..i] == polls[..i];
    }
    assert polls[..|polls|] == polls;
  }

  // -------------------------------------------------------- what the table holds

  ghost predicate Stored(ms: seq<Message>, e: AuditEvent) {
    exists i :: 0 <= i < |ms| && ms[i] == Event(e, true)
  }

  ghost predicate Inserts(ms: seq<Message>, id: Uuid, i: int) {
    0 <= i < |ms| && ms[i].Event? && ms[i].stored && ms[i].event.fields.eventId == id
  }

  ghost predicate FirstInsert(ms: seq<Message>, id: Uuid, i: int) {
    Inserts(ms, id, i) && forall j | 0 <= j < i :: !Inserts(ms, id, j)
  }

  /** Rows are never changed or removed. */
  lemma {:induction false} RowsAreAppendOnly(rows: Table, ms: seq<Message>, id: Uuid)
    requires id in rows
    ensures id in Ingest(rows, ms) && Ingest(rows, ms)[id] == rows[id]
  {
    if ms != [] {
      RowsAreAppendOnly(rows, ms[..|ms| - 1], id);
    }
  }

  /** From an empty table: a row exists for exactly the ids that some insert succeeded for, and it
      is the event of the first such insert. */
  lemma {:induction false} FirstInsertWins(ms: seq<Message>, id: Uuid)
    ensures var rows := Ingest(map[], ms);
      && (id in rows <==> exists i :: Inserts(ms, id, i))
      && (id in rows ==> rows[id].fields.eventId == id && exists i :: FirstInsert(ms, id, i) && ms[i].event == rows[id])
  {
    if ms != [] {
      var n := |ms| - 1;
      FirstInsertWins(ms[..n], id);
      var rows := Ingest(map[], ms[..n]);
      assert Ingest(map[], ms) == Handle(rows, ms[n]);
      assert forall j | 0 <= j < n :: Inserts(ms, id, j) <==> Inserts(ms[..n], id, j);
      if id in rows {
        var i :| FirstInsert(ms[..n], id, i) && ms[..n][i].event == rows[id];
        assert FirstInsert(ms, id, i);
      } else if Inserts(ms, id, n) {
        assert FirstInsert(ms, id, n);
      }
    }
  }

  // ------------------------------------------------------------------- the query

  /** SELECT * FROM audit_events WHERE agent_id = $1 ORDER BY timestamp ASC: each row of the agent
      once, by non-decreasing timestamp; the order of equal timestamps is left open. */
  ghost predicate QueryResult(rows: Table, agent: string, result: seq<AuditEvent>) {
    && (forall e :: e in result <==>
          e.fields.eventId in rows && rows[e.fields.eventId] == e && e.fields.agentId == agent)
    && (forall i, j | 0 <= i < j < |result| :: result[i] != result[j] && Instant(result[i]) <= Instant(result[j]))
  }

  function InsertBy(key: AuditEvent -> int, s: seq<AuditEvent>, e: AuditEvent): seq<AuditEvent> {
    if s == [] || key(e) <= key(s[0]) then [e] + s else [s[0]] + InsertBy(key, s[1..], e)
  }

  ghost predicate Ordered(key: AuditEvent -> int, s: seq<AuditEvent>) {
    forall i, j | 0 <= i < j < |s| :: s[i] != s[j] && key(s[i]) <= key(s[j])
  }

  lemma OrderedCons(key: AuditEvent -> int, e: AuditEvent, s: seq<AuditEvent>)
    requires Ordered(key, s) && forall d | d in s :: d != e && key(e) <= key(d)
    ensures Ordered(key, [e] + s)
  {
    assert forall i | 0 <= i < |s| :: s[i] in s;
  }

  lemma OrderedHead(key: AuditEvent -> int, s: seq<AuditEvent>)
    requires Ordered(key, s) && s != []
    ensures Ordered(key, s[1..]) && forall d | d in s[1..] :: d != s[0] && key(s[0]) <= key(d)
  {
  }

  lemma {:induction false} InsertByOrders(key: AuditEvent -> int, s: seq<AuditEvent>, e: AuditEvent)
    requires Ordered(key, s) && e !in s
    ensures Ordered(key, InsertBy(key, s, e)) && forall d :: d in InsertBy(key, s, e) <==> d in s || d == e
  {
    if s != [] {
      OrderedHead(key, s);
      assert s == [s[0]] + s[1..];
      if key(e) <= key(s[0]) {
        OrderedCons(key, e, s);
      } else {
        InsertByOrders(key, s[1..], e);
        OrderedCons(key, s[0], InsertBy(key, s[1..], e));
      }
    }
  }

  /** A query result always exists. */
  method OrderByTimestamp(rows: Table, agent: string) returns (result: seq<AuditEvent>)
    requires forall id | id in rows :: rows[id].fields.eventId == id
    ensures QueryResult(rows, agent, result)
  {
    var todo := rows.Keys;
    result := [];
    while todo != {}
      invariant todo <= rows.Keys && Ordered(Instant, result)
      invariant forall e :: e in result <==>
        (e.fields.eventId in rows.Keys - todo && rows[e.fields.eventId] == e && e.fields.agentId == agent)
    {
      var id :| id in todo;
      todo := todo - {id};
      if rows[id].fields.agentId == agent {
        InsertByOrders(Instant, result, rows[id]);
        result := InsertBy(Instant, result, rows[id]);
      }
    }
  }

  // ------------------------------------------------------------------- recovery

  /** Events of one agent, stamped in UTC, no event id twice. */
  ghost predicate Identified(agent: string, es: seq<AuditEvent>) {
    && (forall i | 0 <= i < |es| :: es[i].fields.agentId == agent && es[i].fields.timestamp.zone == UTC)
    && (forall i, j | 0 <= i < j < |es| :: es[i].fields.eventId != es[j].fields.eventId)
  }

  ghost predicate StrictlyTimed(s: seq<AuditEvent>) {
    forall i, j | 0 <= i < j < |s| :: Instant(s[i]) < Instant(s[j])
  }

  ghost predicate DistinctTimes(s: seq<AuditEvent>) {
    forall i, j | 0 <= i < j < |s| :: Instant(s[i]) != Instant(s[j])
  }

  /** A log published while the clock went forward. */
  ghost predicate AgentLog(agent: string, es: seq<AuditEvent>) {
    Identified(agent, es) && StrictlyTimed(es)
  }

  /** What else may be on the topic: nothing of this agent, and none of the log's ids. */
  ghost predicate OnlyFrom(agent: string, log: seq<AuditEvent>, ms: seq<Message>) {
    forall e | Stored(ms, e) ::
      e in log || (e.fields.agentId != agent && forall d | d in log :: d.fields.eventId != e.fields.eventId)
  }

  ghost function Arrived(log: seq<AuditEvent>, ms: seq<Message>): (flags: seq<bool>)
    ensures |flags| == |log| && forall i | 0 <= i < |log| :: flags[i] == Stored(ms, log[i])
  {
    seq(|log|, i requires 0 <= i < |log| => Stored(ms, log[i]))
  }

  /** There is one way to put a set of events with distinct timestamps in order. */
  lemma {:induction false} OrderIsUnique(a: seq<AuditEvent>, b: seq<AuditEvent>)
    requires StrictlyTimed(a) && StrictlyTimed(b) && forall e :: e in a <==> e in b
    ensures a == b
  {
    if b != [] {
      assert b[0] in b;
    }
    if a != [] {
      assert a[0] in a && a[0] in b;
      assert b[0] in b && b[0] in a;
      assert a[0] == b[0];
      forall e ensures e in a[1..] <==> e in b[1..] {
        TailMembers(a, e);
        TailMembers(b, e);
      }
      OrderIsUnique(a[1..], b[1..]);
      assert a == [a[0]] + a[1..];
    }
  }

  lemma TailMembers(s: seq<AuditEvent>, e: AuditEvent)
    requires s != [] && StrictlyTimed(s)
    ensures e in s[1..] <==> e in s && e != s[0]
  {
  }

  lemma RowIffArrived(agent: string, log: seq<AuditEvent>, ms: seq<Message>, e: AuditEvent)
    requires Identified(agent, log) && OnlyFrom(agent, log, ms)
    ensures var rows := Ingest(map[], ms);
      (e.fields.eventId in rows && rows[e.fields.eventId] == e && e.fields.agentId == agent)
      <==> (e in log && Stored(ms, e))
  {
    var rows, id := Ingest(map[], ms), e.fields.eventId;
    FirstInsertWins(ms, id);
    if id in rows {
      var i :| FirstInsert(ms, id, i) && ms[i].event == rows[id];
      assert Stored(ms, rows[id]);
    }
    if e in log && Stored(ms, e) {
      var m :| 0 <= m < |ms| && ms[m] == Event(e, true);
      assert Inserts(ms, id, m);
      var p :| 0 <= p < |log| && log[p] == e;
      assert rows[id] in log;
      var q :| 0 <= q < |log| && log[q] == rows[id];
    }
  }

  lemma ResultIffArrived(agent: string, log: seq<AuditEvent>, ms: seq<Message>, result: seq<AuditEvent>, e: AuditEvent)
    requires Identified(agent, log) && OnlyFrom(agent, log, ms)
    requires QueryResult(Ingest(map[], ms), agent, result)
    ensures e in result <==> e in Filter(log, Arrived(log, ms))
  {
    RowIffArrived(agent, log, ms, e);
    FilterMembers(log, Arrived(log, ms), e);
  }

  lemma PartTimes(log: seq<AuditEvent>, flags: seq<bool>)
    requires |log| == |flags|
    ensures StrictlyTimed(log) ==> StrictlyTimed(Filter(log, flags))
    ensures DistinctTimes(log) ==> DistinctTimes(Filter(log, flags))
  {
    FilterIsSelection(log, flags);
    IndicesMark(flags);
    SelectTimes(log, Indices(flags));
  }

  lemma SelectTimes(log: seq<AuditEvent>, ix: seq<nat>)
    requires (forall k | 0 <= k < |ix| :: ix[k] < |log|) && forall j, k | 0 <= j < k < |ix| :: ix[j] < ix[k]
    ensures StrictlyTimed(log) ==> StrictlyTimed(Select(log, ix))
    ensures DistinctTimes(log) ==> DistinctTimes(Select(log, ix))
  {
  }

  lemma TimesDiffer(part: seq<AuditEvent>, d: AuditEvent, e: AuditEvent)
    requires DistinctTimes(part) && d in part && e in part && d != e
    ensures Instant(d) != Instant(e)
  {
    var p :| 0 <= p < |part| && part[p] == d;
    var q :| 0 <= q < |part| && part[q] == e;
    assert p < q || q < p;
  }

  /** A query result, which has no event twice, has its timestamps in strict order when no two
      events of the log share one. */
  lemma ResultIsTimed(agent: string, log: seq<AuditEvent>, ms: seq<Message>, result: seq<AuditEvent>)
    requires Identified(agent, log) && OnlyFrom(agent, log, ms)
    requires DistinctTimes(Filter(log, Arrived(log, ms))) && QueryResult(Ingest(map[], ms), agent, result)
    ensures StrictlyTimed(result)
  {
    forall i, j | 0 <= i < j < |result| ensures Instant(result[i]) < Instant(result[j]) {
      ResultIffArrived(agent, log, ms, result, result[i]);
      ResultIffArrived(agent, log, ms, result, result[j]);
      TimesDiffer(Filter(log, Arrived(log, ms)), result[i], result[j]);
    }
  }

  /** Whatever the order, the duplicates and the losses of delivery, the query gives back the
      events of the log that arrived, in the order of the log, if that is the order of time. */
  lemma Recovery(agent: string, log: seq<AuditEvent>, ms: seq<Message>, result: seq<AuditEvent>)
    requires Identified(agent, log) && OnlyFrom(agent, log, ms)
    requires StrictlyTimed(Filter(log, Arrived(log, ms)))
    requires QueryResult(Ingest(map[], ms), agent, result)
    ensures result == Filter(log, Arrived(log, ms))
  {
    var part := Filter(log, Arrived(log, ms));
    ResultIsTimed(agent, log, ms, result);
    forall e ensures e in result <==> e in part {
      ResultIffArrived(agent, log, ms, result, e);
    }
    OrderIsUnique(result, part);
  }

  /** With every event stored at least once, the query gives back the log itself. */
  lemma FullRecovery(agent: string, log: seq<AuditEvent>, ms: seq<Message>, result: seq<AuditEvent>)
    requires AgentLog(agent, log) && OnlyFrom(agent, log, ms) && forall e | e in log :: Stored(ms, e)
    requires QueryResult(Ingest(map[], ms), agent, result)
    ensures result == log
  {
    FilterAll(log, Arrived(log, ms));
    Recovery(agent, log, ms, result);
  }

  lemma PublishedKeepsLog(hash: Hasher, agent: string, drafts: seq<AuditEvent>)
    ensures var log := Published(hash, drafts);
      && (Identified(agent, drafts) ==> Identified(agent, log))
      && (StrictlyTimed(drafts) ==> StrictlyTimed(log)) && (DistinctTimes(drafts) ==> DistinctTimes(log))
  {
    ChainFromVerifies(hash, GENESIS_HASH, drafts);
    var es := Published(hash, drafts);
    forall i | 0 <= i < |es|
      ensures es[i].fields.agentId == drafts[i].fields.agentId && Instant(es[i]) == Instant(drafts[i])
      ensures es[i].fields.eventId == drafts[i].fields.eventId
      ensures es[i].fields.timestamp == drafts[i].fields.timestamp
    {
      assert SameBody(drafts[i], es[i]);
    }
  }

  /** End to end: if every published event is stored at least once, the query returns the published
      log itself and it verifies from GENESIS. */
  lemma EndToEnd(hash: Hasher, agent: string, drafts: seq<AuditEvent>, ms: seq<Message>, result: seq<AuditEvent>)
    requires AgentLog(agent, drafts) && OnlyFrom(agent, Published(hash, drafts), ms)
    requires forall e | e in Published(hash, drafts) :: Stored(ms, e)
    requires QueryResult(Ingest(map[], ms), agent, result)
    ensures result == Published(hash, drafts) && Verified(hash, result) && Rooted(GENESIS_HASH, result)
  {
    var log := Published(hash, drafts);
    PublishedKeepsLog(hash, agent, drafts);
    FullRecovery(agent, log, ms, result);
    ChainFromVerifies(hash, GENESIS_HASH, drafts);
  }

  function IndexIn(log: seq<AuditEvent>, e: AuditEvent): (i: nat)
    requires e in log
    ensures i < |log| && log[i] == e
  {
    if log[0] == e then 0 else 1 + IndexIn(log[1..], e)
  }

  function Places(log: seq<AuditEvent>, part: seq<AuditEvent>): (ix: seq<nat>)
    requires forall e | e in part :: e in log
    ensures |ix| == |part| && forall k | 0 <= k < |ix| :: ix[k] < |log| && log[ix[k]] == part[k]
  {
    seq(|part|, k requires 0 <= k < |part| => IndexIn(log, part[k]))
  }

  /** The set flags are those of a stretch of `m` places from `lo`. */
  predicate Stretch(flags: seq<bool>, lo: nat, m: nat) {
    lo + m <= |flags| && forall i | 0 <= i < |flags| :: flags[i] <==> lo <= i < lo + m
  }

  lemma StretchOf(flags: seq<bool>, ix: seq<nat>)
    requires Consecutive(ix) && ix != [] && forall k | 0 <= k < |ix| :: ix[k] < |flags| && flags[ix[k]]
    requires forall i {:trigger i in ix} | 0 <= i < |flags| && flags[i] :: i in ix
    ensures Stretch(flags, ix[0], |ix|) && forall k | 0 <= k < |ix| :: ix[k] == ix[0] + k
  {
    forall k | 0 <= k < |ix| ensures ix[k] == ix[0] + k {
      ConsecutiveRun(ix, 0, k);
    }
    assert ix[|ix| - 1] == ix[0] + |ix| - 1;
    forall i | 0 <= i < |flags| ensures flags[i] <==> ix[0] <= i < ix[0] + |ix| {
      if flags[i] {
        assert i in ix;
      }
      if ix[0] <= i < ix[0] + |ix| {
        assert ix[i - ix[0]] == i;
      }
    }
  }

  /** Over a stretch the filter is the stretch itself. */
  lemma {:induction false} FilterStretch(log: seq<AuditEvent>, flags: seq<bool>, lo: nat, m: nat)
    requires |log| == |flags| && Stretch(flags, lo, m)
    ensures Filter(log, flags) == log[lo..lo + m]
  {
    if log != [] {
      var n := |log| - 1;
      if m > 0 && lo + m == |log| {
        FilterStretch(log[..n], flags[..n], lo, m - 1);
        SliceOfPrefix(log, n, lo, n);
        SliceSnoc(log, lo, n);
      } else if m == 0 {
        FilterStretch(log[..n], flags[..n], 0, 0);
      } else {
        FilterStretch(log[..n], flags[..n], lo, m);
        SliceOfPrefix(log, n, lo, lo + m);
      }
    }
  }

  lemma StretchIsContiguous(flags: seq<bool>, lo: nat, m: nat)
    requires Stretch(flags, lo, m)
    ensures Contiguous(flags)
  {
  }

  lemma SliceIs(log: seq<AuditEvent>, lo: nat, part: seq<AuditEvent>)
    requires lo + |part| <= |log| && forall k | 0 <= k < |part| :: log[lo + k] == part[k]
    ensures log[lo..lo + |part|] == part
  {
  }

  lemma PartIsStretch(log: seq<AuditEvent>, flags: seq<bool>, lo: nat, part: seq<AuditEvent>)
    requires |flags| == |log| && Stretch(flags, lo, |part|)
    requires forall k | 0 <= k < |part| :: log[lo + k] == part[k]
    ensures Contiguous(flags) && Filter(log, flags) == part
  {
    StretchIsContiguous(flags, lo, |part|);
    FilterStretch(log, flags, lo, |part|);
    SliceIs(log, lo, part);
  }

  /** If the places of a result in its log are consecutive, the arrived events have no gap and the
      result is their sequence. */
  lemma ConsecutivePlaces(log: seq<AuditEvent>, flags: seq<bool>, result: seq<AuditEvent>, ix: seq<nat>)
    requires |flags| == |log| && |ix| == |result| && Consecutive(ix)
    requires forall k | 0 <= k < |ix| :: ix[k] < |log| && log[ix[k]] == result[k] && flags[ix[k]]
    requires forall i {:trigger i in ix} | 0 <= i < |log| && flags[i] :: i in ix
    ensures Contiguous(flags) && Filter(log, flags) == result
  {
    if ix == [] {
      forall i | 0 <= i < |log| ensures !flags[i] {
        assert i !in ix;
      }
      PartIsStretch(log, flags, 0, result);
    } else {
      StretchOf(flags, ix);
      forall k | 0 <= k < |result| ensures log[ix[0] + k] == result[k] {
        assert ix[k] == ix[0] + k;
      }
      PartIsStretch(log, flags, ix[0], result);
    }
  }

  lemma PlacesCover(log: seq<AuditEvent>, flags: seq<bool>, result: seq<AuditEvent>) returns (ix: seq<nat>)
    requires |flags| == |log| && forall i, j | 0 <= i < j < |log| :: log[i] != log[j]
    requires forall e | e in result :: e in log
    requires forall i | 0 <= i < |log| :: flags[i] <==> log[i] in result
    ensures |ix| == |result| && forall k | 0 <= k < |ix| :: ix[k] < |log| && log[ix[k]] == result[k] && flags[ix[k]]
    ensures forall i {:trigger i in ix} | 0 <= i < |log| && flags[i] :: i in ix
  {
    ix := Places(log, result);
    forall i | 0 <= i < |log| && flags[i] ensures i in ix {
      var k :| 0 <= k < |result| && result[k] == log[i];
      assert log[ix[k]] == log[i];
    }
  }

  lemma ResultPlaces(agent: string, log: seq<AuditEvent>, ms: seq<Message>, result: seq<AuditEvent>)
    returns (ix: seq<nat>)
    requires Identified(agent, log) && OnlyFrom(agent, log, ms)
    requires QueryResult(Ingest(map[], ms), agent, result)
    ensures |ix| == |result| && forall k | 0 <= k < |ix| ::
      ix[k] < |log| && log[ix[k]] == result[k] && Arrived(log, ms)[ix[k]]
    ensures forall i {:trigger i in ix} | 0 <= i < |log| && Arrived(log, ms)[i] :: i in ix
  {
    forall e ensures e in result <==> e in log && Stored(ms, e) {
      RowIffArrived(agent, log, ms, e);
    }
    ix := PlacesCover(log, Arrived(log, ms), result);
  }

  lemma VerifiedResultIsRun(
    hash: Hasher, agent: string, log: seq<AuditEvent>, ms: seq<Message>, result: seq<AuditEvent>)
    requires Identified(agent, log) && DistinctTimes(log) && OnlyFrom(agent, log, ms)
    requires Verified(hash, log) && Rooted(GENESIS_HASH, log) && CollisionFree(hash, log)
    requires QueryResult(Ingest(map[], ms), agent, result) && Verified(hash, result)
    ensures Contiguous(Arrived(log, ms)) && StrictlyTimed(Filter(log, Arrived(log, ms)))
  {
    PartTimes(log, Arrived(log, ms));
    ResultIsTimed(agent, log, ms, result);
    var ix := ResultPlaces(agent, log, ms, result);
    assert Select(log, ix) == result;
    SelectionVerifiesIffConsecutive(hash, log, ix);
    ConsecutivePlaces(log, Arrived(log, ms), result, ix);
  }

  /** The verdict in general: with distinct timestamps and no collisions the endpoint finds the
      chain valid exactly when the events that arrived have no gap and were published in the order
      of their timestamps. Losing a prefix or a suffix goes unnoticed; a clock that steps back
      breaks an honest log. */
  lemma VerdictIff(hash: Hasher, agent: string, drafts: seq<AuditEvent>, ms: seq<Message>, result: seq<AuditEvent>)
    requires Identified(agent, drafts) && DistinctTimes(drafts) && OnlyFrom(agent, Published(hash, drafts), ms)
    requires CollisionFree(hash, Published(hash, drafts))
    requires QueryResult(Ingest(map[], ms), agent, result)
    ensures var log := Published(hash, drafts);
      Verified(hash, result) <==> Contiguous(Arrived(log, ms)) && StrictlyTimed(Filter(log, Arrived(log, ms)))
  {
    var log := Published(hash, drafts);
    PublishedKeepsLog(hash, agent, drafts);
    ChainFromVerifies(hash, GENESIS_HASH, drafts);
    if Verified(hash, result) {
      VerifiedResultIsRun(hash, agent, log, ms, result);
    }
    if Contiguous(Arrived(log, ms)) && StrictlyTimed(Filter(log, Arrived(log, ms))) {
      Recovery(agent, log, ms, result);
      PartVerifiesIffContiguous(hash, drafts, Arrived(log, ms));
    }
  }

  /** While the clock goes forward: valid exactly when the arrived events have no gap. */
  lemma VerdictIffNoGap(hash: Hasher, agent: string, drafts: seq<AuditEvent>, ms: seq<Message>, result: seq<AuditEvent>)
    requires AgentLog(agent, drafts) && OnlyFrom(agent, Published(hash, drafts), ms)
    requires CollisionFree(hash, Published(hash, drafts))
    requires QueryResult(Ingest(map[], ms), agent, result)
    ensures Verified(hash, result) <==> Contiguous(Arrived(Published(hash, drafts), ms))
  {
    var log := Published(hash, drafts);
    PublishedKeepsLog(hash, agent, drafts);
    PartTimes(log, Arrived(log, ms));
    VerdictIff(hash, agent, drafts, ms, result);
  }

  /** With everything stored: valid exactly when publish order is the order of time. */
  lemma VerdictIffClockForward(
    hash: Hasher, agent: string, drafts: seq<AuditEvent>, ms: seq<Message>, result: seq<AuditEvent>)
    requires Identified(agent, drafts) && DistinctTimes(drafts) && OnlyFrom(agent, Published(hash, drafts), ms)
    requires CollisionFree(hash, Published(hash, drafts))
    requires forall e | e in Published(hash, drafts) :: Stored(ms, e)
    requires QueryResult(Ingest(map[], ms), agent, result)
    ensures Verified(hash, result) <==> StrictlyTimed(drafts)
  {
    var log := Published(hash, drafts);
    PublishedKeepsLog(hash, agent, drafts);
    FilterAll(log, Arrived(log, ms));
    VerdictIff(hash, agent, drafts, ms, result);
    SameTimes(hash, drafts);
  }

  lemma SameTimes(hash: Hasher, drafts: seq<AuditEvent>)
    ensures StrictlyTimed(Published(hash, drafts)) <==> StrictlyTimed(drafts)
  {
    ChainFromVerifies(hash, GENESIS_HASH, drafts);
    var log := Published(hash, drafts);
    forall i | 0 <= i < |drafts| ensures Instant(log[i]) == Instant(drafts[i]) {
      assert SameBody(drafts[i], log[i]);
    }
  }

  lemma TwoChainsVerdict(hash: Hasher, first: seq<AuditEvent>, second: seq<AuditEvent>)
    requires first != [] && second != []
    ensures Verified(hash, Published(hash, first) + Published(hash, second))
       <==> Head(GENESIS_HASH, Published(hash, first)) == GENESIS_HASH
  {
    ChainFromVerifies(hash, GENESIS_HASH, first);
    ChainFromVerifies(hash, GENESIS_HASH, second);
    VerifiedConcat(hash, Published(hash, first), Published(hash, second));
  }

  /** A restarted agent starts a second chain at GENESIS under the same id, so the complete and
      untouched log of both lives is reported as broken, unless an event hashed to GENESIS. */
  lemma RestartBreaksVerification(
    hash: Hasher, agent: string, first: seq<AuditEvent>, second: seq<AuditEvent>,
    ms: seq<Message>, result: seq<AuditEvent>)
    requires first != [] && second != [] && AgentLog(agent, Published(hash, first) + Published(hash, second))
    requires var log := Published(hash, first) + Published(hash, second);
      OnlyFrom(agent, log, ms) && forall e | e in log :: Stored(ms, e)
    requires QueryResult(Ingest(map[], ms), agent, result)
    ensures result == Published(hash, first) + Published(hash, second)
    ensures Verified(hash, result) <==> Head(GENESIS_HASH, Published(hash, first)) == GENESIS_HASH
  {
    FullRecovery(agent, Published(hash, first) + Published(hash, second), ms, result);
    TwoChainsVerdict(hash, first, second);
  }

  // ----------------------------------------------------------------- the endpoint

  datatype Response = Unavailable | Verdict(valid: bool, eventCount: nat)

  class AuditApi {
    var chainVerifications: nat
    var chainFailures: nat

    constructor ()
      ensures chainVerifications == 0 && chainFailures == 0
    {
      chainVerifications, chainFailures := 0, 0;
    }

    /** `rows` is what the database returned, or nothing when it could not be reached; a row is
        nothing when it does not validate as an event. */
    method VerifyAgentChain(hash: Hasher, rows: Option<seq<Option<AuditEvent>>>) returns (r: Response)
      modifies this
      ensures chainVerifications == old(chainVerifications) + 1
      ensures r == Unavailable <==> rows == None || None in rows.value
      ensures r.Verdict? ==> r.eventCount == |rows.value| && (r.valid <==> Verified(hash, Values(rows.value)))
      ensures chainFailures == old(chainFailures) + if r.Verdict? && !r.valid then 1 else 0
    {
      chainVerifications := chainVerifications + 1;
      if rows.None? {
        return Unavailable;
      }
      if rows.value == [] {
        return Verdict(true, 0);
      }
      var events := [];
      for i := 0 to |rows.value|
        invariant None !in rows.value[..i] && events == Values(rows.value[..i])
      {
        assert rows.value[..i + 1][..i] == rows.value[..i];
        match rows.value[i]
        case None => return Unavailable;
        case Some(e) => events := events + [e];
      }
      assert rows.value[..|rows.value|] == rows.value;
      var valid := VerifyChain(hash, events);
      if !valid {
        chainFailures := chainFailures + 1;
      }
      return Verdict(valid, |events|);
    }
  }

  /** The events of the rows that validate. */
  function Values(rows: seq<Option<AuditEvent>>): (es: seq<AuditEvent>)
    ensures None !in rows ==> |es| == |rows| && forall i | 0 <= i < |rows| :: rows[i] == Some(es[i])
  {
    if rows == [] then []
    else
      var n := |rows| - 1;
      Values(rows[..n]) + if rows[n].Some? then [rows[n].value] else []
  }
}
