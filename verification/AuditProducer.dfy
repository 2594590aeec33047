/** audit/producer.py: publishing to Kafka with an in-memory fallback. */
module AuditProducer {
  import opened AuditSchema
  import opened HashChain
  import opened Subsequence

  /** What became of one send: acknowledged, lost, or written although the acknowledgement
      never came back within the timeout. */
  datatype SendOutcome = Acked | Lost | AckLost

  /** The state of a producer and of the topic it writes to, against the drafts it was handed:
      `reached` and `kept` flag the drafts that got to the topic and to the buffer. */
  ghost predicate Conserved(
    hash: Hasher, drafts: seq<AuditEvent>, reached: seq<bool>, kept: seq<bool>,
    lastHash: string, topic: seq<AuditEvent>, buffered: seq<AuditEvent>)
  {
    var published := Published(hash, drafts);
    && |reached| == |kept| == |drafts|
    && (forall i | 0 <= i < |drafts| :: reached[i] || kept[i])
    && lastHash == Head(GENESIS_HASH, published)
    && topic == Filter(published, reached)
    && buffered == Filter(published, kept)
  }

  lemma PublishedSnoc(hash: Hasher, drafts: seq<AuditEvent>, draft: AuditEvent)
    ensures Published(hash, drafts + [draft])
         == Published(hash, drafts) + [Seal(hash, Head(GENESIS_HASH, Published(hash, drafts)), draft)]
  {
    ChainFromAppend(hash, GENESIS_HASH, drafts, [draft]);
  }

  lemma ConservedStep(
    hash: Hasher, drafts: seq<AuditEvent>, reached: seq<bool>, kept: seq<bool>,
    lastHash: string, topic: seq<AuditEvent>, drained: seq<AuditEvent>, fallback: seq<AuditEvent>,
    draft: AuditEvent, arrives: bool, stays: bool)
    requires Conserved(hash, drafts, reached, kept, lastHash, topic, drained + fallback) && (arrives || stays)
    ensures var event := Seal(hash, lastHash, draft);
      && Published(hash, drafts + [draft]) == Published(hash, drafts) + [event]
      && Conserved(hash, drafts + [draft], reached + [arrives], kept + [stays], event.eventHash,
                   topic + (if arrives then [event] else []),
                   drained + (fallback + if stays then [event] else []))
  {
    var event := Seal(hash, lastHash, draft);
    var more := if stays then [event] else [];
    assert drained + (fallback + more) == drained + fallback + more;
    PublishedSnoc(hash, drafts, draft);
    FilterSnoc(Published(hash, drafts), reached, event, arrives);
    FilterSnoc(Published(hash, drafts), kept, event, stays);
  }

  class Producer {
    const hash: Hasher
    const connected: bool            // `_kafka is not None`, settled by the constructor
    var lastHash: string
    var fallback: seq<AuditEvent>
    var topic: seq<AuditEvent>       // what this producer has written to Kafka
    ghost var drafts: seq<AuditEvent>
    ghost var drained: seq<AuditEvent>
    ghost var reached: seq<bool>
    ghost var kept: seq<bool>

    ghost predicate Valid()
      reads this
    {
      Conserved(hash, drafts, reached, kept, lastHash, topic, drained + fallback)
    }

    constructor (hash: Hasher, connected: bool)
      ensures Valid() && this.hash == hash && this.connected == connected
      ensures drafts == [] && topic == [] && fallback == [] && drained == [] && lastHash == GENESIS_HASH
    {
      this.hash, this.connected := hash, connected;
      lastHash, fallback, topic := GENESIS_HASH, [], [];
      drafts, drained, reached, kept := [], [], [], [];
    }

    method Publish(draft: AuditEvent, outcome: SendOutcome) returns (event: AuditEvent)
      requires Valid()
      modifies this
      ensures Valid() && drafts == old(drafts) + [draft] && drained == old(drained)
      ensures event == Seal(hash, old(lastHash), draft) && lastHash == event.eventHash
      ensures Published(hash, drafts) == old(Published(hash, drafts)) + [event]
      ensures topic == old(topic) + if connected && outcome != Lost then [event] else []
      ensures fallback == old(fallback) + if connected && outcome == Acked then [] else [event]
    {
      event := Seal(hash, lastHash, draft);
      ghost var arrives := connected && outcome != Lost;
      ghost var stays := !connected || outcome != Acked;
      ConservedStep(hash, drafts, reached, kept, lastHash, topic, drained, fallback, draft, arrives, stays);
      lastHash := event.eventHash;
      drafts, reached, kept := drafts + [draft], reached + [arrives], kept + [stays];
      if connected {
        if outcome != Lost {
          topic := topic + [event];
        }
        if outcome == Acked {
          assert fallback == old(fallback) + [];
          return;
        }
      }
      fallback := fallback + [event];
    }

    method Drain() returns (events: seq<AuditEvent>)
      requires Valid()
      modifies this`fallback, this`drained
      ensures Valid() && events == old(fallback) && fallback == [] && drained == old(drained) + events
    {
      events := fallback;
      assert drained + fallback == drained + events + [];
      drained, fallback := drained + events, [];
    }
  }

  /** Any part of a published log that flags pick out verifies exactly when it has no gap. */
  lemma PartVerifiesIffContiguous(hash: Hasher, drafts: seq<AuditEvent>, keep: seq<bool>)
    requires |keep| == |drafts| && CollisionFree(hash, Published(hash, drafts))
    ensures Verified(hash, Filter(Published(hash, drafts), keep)) <==> Contiguous(keep)
  {
    var published := Published(hash, drafts);
    ChainFromVerifies(hash, GENESIS_HASH, drafts);
    FilterIsSelection(published, keep);
    SelectionVerifiesIffConsecutive(hash, published, Indices(keep));
    IndicesMark(keep);
    ConsecutiveIffContiguous(Indices(keep), keep);
  }

  /** In every reachable state, the Kafka log on its own verifies exactly when the sends that
      got through form one block. */
  lemma TopicVerifiesIffContiguous(
    hash: Hasher, drafts: seq<AuditEvent>, reached: seq<bool>, kept: seq<bool>,
    lastHash: string, topic: seq<AuditEvent>, buffered: seq<AuditEvent>)
    requires Conserved(hash, drafts, reached, kept, lastHash, topic, buffered)
    requires CollisionFree(hash, Published(hash, drafts))
    ensures Verified(hash, topic) <==> Contiguous(reached)
    ensures Verified(hash, buffered) <==> Contiguous(kept)
  {
    PartVerifiesIffContiguous(hash, drafts, reached);
    PartVerifiesIffContiguous(hash, drafts, kept);
  }

  /** Puts topic and buffer back into publish order; an event in both is taken once. */
  function Merge(reached: seq<bool>, kept: seq<bool>, topic: seq<AuditEvent>, buffered: seq<AuditEvent>)
    : (r: seq<AuditEvent>)
    requires |reached| == |kept|
    decreases |reached|
  {
    if reached == [] then []
    else
      var n := |reached| - 1;
      var t := if reached[n] && topic != [] then topic[..|topic| - 1] else topic;
      var b := if kept[n] && buffered != [] then buffered[..|buffered| - 1] else buffered;
      Merge(reached[..n], kept[..n], t, b) +
      if reached[n] && topic != [] then [topic[|topic| - 1]]
      else if kept[n] && buffered != [] then [buffered[|buffered| - 1]]
      else []
  }

  lemma MergeSnoc(reached: seq<bool>, kept: seq<bool>, t: seq<AuditEvent>, b: seq<AuditEvent>, e: AuditEvent)
    requires |reached| == |kept| > 0 && (reached[|reached| - 1] || kept[|kept| - 1])
    ensures var n := |reached| - 1;
      Merge(reached, kept, t + (if reached[n] then [e] else []), b + (if kept[n] then [e] else []))
      == Merge(reached[..n], kept[..n], t, b) + [e]
  {
    assert (t + [e])[..|t|] == t && (b + [e])[..|b|] == b;
    assert t + [] == t && b + [] == b;
  }

  lemma {:induction false} MergeRestores(es: seq<AuditEvent>, reached: seq<bool>, kept: seq<bool>)
    requires |es| == |reached| == |kept| && forall i | 0 <= i < |es| :: reached[i] || kept[i]
    ensures Merge(reached, kept, Filter(es, reached), Filter(es, kept)) == es
    decreases |es|
  {
    if es != [] {
      var n := |es| - 1;
      MergeRestores(es[..n], reached[..n], kept[..n]);
      MergeSnoc(reached, kept, Filter(es[..n], reached[..n]), Filter(es[..n], kept[..n]), es[n]);
      assert es == es[..n] + [es[n]];
    }
  }

  lemma SplitSnoc(all: seq<AuditEvent>, a: seq<AuditEvent>, b: seq<AuditEvent>, e: AuditEvent)
    requires multiset(a) + multiset(b) == multiset(all)
    ensures multiset(a + [e]) + multiset(b) == multiset(all + [e]) == multiset(a) + multiset(b + [e])
  {
  }

  lemma {:induction false} FilterSplits(es: seq<AuditEvent>, keep: seq<bool>, drop: seq<bool>)
    requires |es| == |keep| == |drop| && forall i | 0 <= i < |es| :: keep[i] != drop[i]
    ensures multiset(Filter(es, keep)) + multiset(Filter(es, drop)) == multiset(es)
  {
    if es != [] {
      var n := |es| - 1;
      FilterSplits(es[..n], keep[..n], drop[..n]);
      assert es == es[..n] + [es[n]];
      SplitSnoc(es[..n], Filter(es[..n], keep[..n]), Filter(es[..n], drop[..n]), es[n]);
      FilterLast(es, keep);
      FilterLast(es, drop);
    }
  }

  lemma FilterLast(es: seq<AuditEvent>, keep: seq<bool>)
    requires |es| == |keep| > 0
    ensures var n := |es| - 1;
      Filter(es, keep) == if keep[n] then Filter(es[..n], keep[..n]) + [es[n]] else Filter(es[..n], keep[..n])
  {
  }

  /** Nothing published is ever lost or invented: topic, drained events and buffer merge into one
      verified log; and they are a partition of it when no acknowledgement went missing. */
  lemma NothingLost(
    hash: Hasher, drafts: seq<AuditEvent>, reached: seq<bool>, kept: seq<bool>,
    lastHash: string, topic: seq<AuditEvent>, buffered: seq<AuditEvent>)
    requires Conserved(hash, drafts, reached, kept, lastHash, topic, buffered)
    ensures var merged := Merge(reached, kept, topic, buffered);
      && merged == Published(hash, drafts)
      && Verified(hash, merged) && Rooted(GENESIS_HASH, merged) && Head(GENESIS_HASH, merged) == lastHash
    ensures (forall i | 0 <= i < |drafts| :: reached[i] != kept[i]) ==>
      multiset(topic) + multiset(buffered) == multiset(Published(hash, drafts))
  {
    ChainFromVerifies(hash, GENESIS_HASH, drafts);
    MergeRestores(Published(hash, drafts), reached, kept);
    if forall i | 0 <= i < |drafts| :: reached[i] != kept[i] {
      FilterSplits(Published(hash, drafts), reached, kept);
    }
  }
}
