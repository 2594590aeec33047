/** audit/schema.py `verify_chain`, and what it does and does not detect.
    `hash` stands for `compute_event_hash` and is arbitrary throughout. */
module HashChain {
  import opened Text
  import opened AuditSchema
  import opened Subsequence

  type Hasher = Hashed -> string

  /** Every stored hash is the hash of its event, and every event points at the one before it.
      Nothing is said about what the first event points at. */
  ghost predicate Verified(hash: Hasher, es: seq<AuditEvent>) {
    && (forall i | 0 <= i < |es| :: hash(es[i].fields) == es[i].eventHash)
    && (forall i | 0 < i < |es| :: es[i].fields.previousEventHash == es[i - 1].eventHash)
  }

  ghost predicate Rooted(prev: string, es: seq<AuditEvent>) {
    es != [] ==> es[0].fields.previousEventHash == prev
  }

  function Head(prev: string, es: seq<AuditEvent>): string {
    if es == [] then prev else es[|es| - 1].eventHash
  }

  method VerifyChain(hash: Hasher, events: seq<AuditEvent>) returns (ok: bool)
    ensures ok <==> Verified(hash, events)
  {
    for i := 0 to |events|
      invariant Verified(hash, events[..i])
    {
      var event := events[i];
      if hash(event.fields) != event.eventHash {
        return false;
      }
      if i > 0 && event.fields.previousEventHash != events[i - 1].eventHash {
        return false;
      }
      assert events[..i + 1] == events[..i] + [event];
    }
    assert events[..|events|] == events;
    return true;
  }

  // -------------------------------------------------------------- publishing

  function PointAt(prev: string, f: Hashed): Hashed {
    f.(previousEventHash := prev)
  }

  /** The event as `publish` completes it: pointer to the chain head, then its own hash. */
  function Seal(hash: Hasher, prev: string, draft: AuditEvent): AuditEvent {
    AuditEvent(PointAt(prev, draft.fields), draft.details, hash(PointAt(prev, draft.fields)))
  }

  /** The events one producer completes, given the drafts it is handed. */
  function ChainFrom(hash: Hasher, prev: string, drafts: seq<AuditEvent>): (es: seq<AuditEvent>)
    ensures |es| == |drafts|
    decreases |drafts|
  {
    if drafts == [] then []
    else
      var e := Seal(hash, prev, drafts[0]);
      [e] + ChainFrom(hash, e.eventHash, drafts[1..])
  }

  function Published(hash: Hasher, drafts: seq<AuditEvent>): seq<AuditEvent> {
    ChainFrom(hash, GENESIS_HASH, drafts)
  }

  /** Everything but the two chain fields. */
  predicate SameBody(d: AuditEvent, e: AuditEvent) {
    && d.details == e.details
    && d.fields.(previousEventHash := e.fields.previousEventHash) == e.fields
  }

  lemma {:induction false} ChainFromVerifies(hash: Hasher, prev: string, drafts: seq<AuditEvent>)
    ensures var es := ChainFrom(hash, prev, drafts);
      && Verified(hash, es) && Rooted(prev, es)
      && forall i | 0 <= i < |es| :: SameBody(drafts[i], es[i])
    decreases |drafts|
  {
    if drafts != [] {
      var e := Seal(hash, prev, drafts[0]);
      ChainFromVerifies(hash, e.eventHash, drafts[1..]);
    }
  }

  lemma {:induction false} ChainFromAppend(hash: Hasher, prev: string, a: seq<AuditEvent>, b: seq<AuditEvent>)
    ensures ChainFrom(hash, prev, a + b)
         == ChainFrom(hash, prev, a) + ChainFrom(hash, Head(prev, ChainFrom(hash, prev, a)), b)
    decreases |a|
  {
    if a == [] {
      assert a + b == b;
    } else {
      var e := Seal(hash, prev, a[0]);
      assert (a + b)[1..] == a[1..] + b;
      ChainFromAppend(hash, e.eventHash, a[1..], b);
    }
  }

  /** The verifier accepts, among logs whose first event points at `prev`, exactly those that
      publishing their own events from `prev` reproduces. */
  lemma {:induction false} VerifiedIffRepublished(hash: Hasher, prev: string, es: seq<AuditEvent>)
    ensures Verified(hash, es) && Rooted(prev, es) <==> es == ChainFrom(hash, prev, es)
    decreases |es|
  {
    ChainFromVerifies(hash, prev, es);
    if es != [] && Verified(hash, es) && Rooted(prev, es) {
      var e := Seal(hash, prev, es[0]);
      assert e == es[0];
      VerifiedIffRepublished(hash, e.eventHash, es[1..]);
      assert es == [es[0]] + es[1..];
    }
  }

  lemma VerifiedParts(hash: Hasher, a: seq<AuditEvent>, b: seq<AuditEvent>)
    requires Verified(hash, a + b)
    ensures Verified(hash, a) && Verified(hash, b) && (a != [] ==> Rooted(Head("", a), b))
  {
    var c := a + b;
    assert forall i | 0 <= i < |a| :: c[i] == a[i];
    assert forall i | 0 < i < |a| :: c[i].fields.previousEventHash == c[i - 1].eventHash;
    forall i | 0 <= i < |b|
      ensures hash(b[i].fields) == b[i].eventHash
      ensures i > 0 ==> b[i].fields.previousEventHash == b[i - 1].eventHash
    {
      assert c[|a| + i] == b[i];
      assert i > 0 ==> c[|a| + i - 1] == b[i - 1];
    }
    if a != [] && b != [] {
      assert c[|a|] == b[0] && c[|a| - 1] == a[|a| - 1];
    }
  }

  lemma VerifiedJoin(hash: Hasher, a: seq<AuditEvent>, b: seq<AuditEvent>)
    requires Verified(hash, a) && Verified(hash, b) && (a != [] ==> Rooted(Head("", a), b))
    ensures Verified(hash, a + b)
  {
    var c := a + b;
    forall i | 0 < i < |c| ensures c[i].fields.previousEventHash == c[i - 1].eventHash {
      if i > |a| {
        assert b[i - |a|].fields.previousEventHash == b[i - |a| - 1].eventHash;
      }
    }
  }

  lemma VerifiedConcat(hash: Hasher, a: seq<AuditEvent>, b: seq<AuditEvent>)
    ensures Verified(hash, a + b) <==>
      Verified(hash, a) && Verified(hash, b) && (a != [] ==> Rooted(Head("", a), b))
  {
    if Verified(hash, a + b) {
      VerifiedParts(hash, a, b);
    }
    if Verified(hash, a) && Verified(hash, b) && (a != [] ==> Rooted(Head("", a), b)) {
      VerifiedJoin(hash, a, b);
    }
  }

  // --------------------------------------------------------- tamper evidence

  /** Two different events, `k` places from the end of their logs, with the same hash. */
  ghost predicate CollisionAt(hash: Hasher, a: seq<AuditEvent>, b: seq<AuditEvent>, k: nat) {
    && k < |a| && k < |b|
    && a[|a| - 1 - k].fields != b[|b| - 1 - k].fields
    && hash(a[|a| - 1 - k].fields) == hash(b[|b| - 1 - k].fields)
  }

  ghost predicate SameFromEnd(a: seq<AuditEvent>, b: seq<AuditEvent>, k: nat) {
    k < |a| && k < |b| ==>
      && a[|a| - 1 - k].fields == b[|b| - 1 - k].fields
      && a[|a| - 1 - k].eventHash == b[|b| - 1 - k].eventHash
  }

  lemma {:induction false} AgreeBackwards(hash: Hasher, a: seq<AuditEvent>, b: seq<AuditEvent>, k: nat)
    requires Verified(hash, a) && Verified(hash, b) && Head("", a) == Head("", b)
    requires forall j: nat | j <= k :: !CollisionAt(hash, a, b, j)
    ensures SameFromEnd(a, b, k)
  {
    if k < |a| && k < |b| {
      if k > 0 {
        AgreeBackwards(hash, a, b, k - 1);
        assert a[|a| - k].fields.previousEventHash == a[|a| - k - 1].eventHash;
        assert b[|b| - k].fields.previousEventHash == b[|b| - k - 1].eventHash;
      }
      assert !CollisionAt(hash, a, b, k);
    }
  }

  /** Two verified logs with the same last hash agree on every hashed field, counted from the
      end, over the length they share; or the two logs themselves hold a collision. */
  lemma TamperEvidence(hash: Hasher, a: seq<AuditEvent>, b: seq<AuditEvent>)
    requires Verified(hash, a) && Verified(hash, b) && Head("", a) == Head("", b)
    ensures (forall k: nat :: SameFromEnd(a, b, k)) || (exists k: nat :: CollisionAt(hash, a, b, k))
  {
    if forall k: nat :: !CollisionAt(hash, a, b, k) {
      forall k: nat ensures SameFromEnd(a, b, k) {
        AgreeBackwards(hash, a, b, k);
      }
    }
  }

  /** Cutting the front off a rooted log, or prepending to one, shows: the longer of two rooted
      logs with one head holds an event whose hash is the root itself. */
  lemma LongerLogMeetsRoot(hash: Hasher, root: string, a: seq<AuditEvent>, b: seq<AuditEvent>)
    requires Verified(hash, a) && Verified(hash, b) && |a| < |b|
    requires Rooted(root, a) && Head(root, a) == Head(root, b)
    requires forall k: nat :: !CollisionAt(hash, a, b, k) && !CollisionAt(hash, b, a, k)
    ensures b[|b| - |a| - 1] in b && b[|b| - |a| - 1].eventHash == root
  {
    if a != [] {
      AgreeBackwards(hash, a, b, |a| - 1);
      assert b[|b| - |a|].fields.previousEventHash == b[|b| - |a| - 1].eventHash;
    }
  }

  /** With a fixed root that no event hashes to, a head hash commits to the whole log. */
  lemma HeadCommitsToLog(hash: Hasher, root: string, a: seq<AuditEvent>, b: seq<AuditEvent>)
    requires Verified(hash, a) && Verified(hash, b)
    requires Rooted(root, a) && Rooted(root, b) && Head(root, a) == Head(root, b)
    requires forall e | e in a || e in b :: e.eventHash != root
    requires forall k: nat :: !CollisionAt(hash, a, b, k)
    ensures |a| == |b| && forall i | 0 <= i < |a| :: a[i].fields == b[i].fields && a[i].eventHash == b[i].eventHash
  {
    assert forall k: nat :: CollisionAt(hash, b, a, k) ==> CollisionAt(hash, a, b, k);
    if |a| < |b| {
      LongerLogMeetsRoot(hash, root, a, b);
    } else if |b| < |a| {
      LongerLogMeetsRoot(hash, root, b, a);
    } else {
      forall i | 0 <= i < |a|
        ensures a[i].fields == b[i].fields && a[i].eventHash == b[i].eventHash
      {
        AgreeBackwards(hash, a, b, |a| - 1 - i);
      }
    }
  }

  /** The reduction for the real hash: two rooted logs with one head either agree or hold two
      different canonical texts with the same digest. */
  lemma TamperEvidenceForDigest(digest: string -> string, a: seq<AuditEvent>, b: seq<AuditEvent>)
    requires var hash := EventHash(digest);
      && Verified(hash, a) && Verified(hash, b)
      && Rooted(GENESIS_HASH, a) && Rooted(GENESIS_HASH, b) && Head(GENESIS_HASH, a) == Head(GENESIS_HASH, b)
    requires forall e | e in a || e in b :: e.eventHash != GENESIS_HASH
    ensures
      || (|a| == |b| && forall i | 0 <= i < |a| :: a[i].fields == b[i].fields)
      || (exists e, d | e in a && d in b ::
            Canonical(e.fields) != Canonical(d.fields) && digest(Canonical(e.fields)) == digest(Canonical(d.fields)))
  {
    var hash := EventHash(digest);
    if k: nat :| CollisionAt(hash, a, b, k) {
      var e, d := a[|a| - 1 - k], b[|b| - 1 - k];
      CollisionIsDigestCollision(digest, e.fields, d.fields);
      assert e in a && d in b;
    } else {
      HeadCommitsToLog(hash, GENESIS_HASH, a, b);
    }
  }

  /** A change at index `k` makes every hash from `k` onward differ. */
  lemma {:induction false} HashesDiverge(hash: Hasher, a: seq<AuditEvent>, b: seq<AuditEvent>, k: nat, j: nat)
    requires Verified(hash, a) && Verified(hash, b) && |a| == |b|
    requires k <= j < |a| && a[k].fields != b[k].fields
    requires forall i | k <= i <= j :: a[i].fields != b[i].fields ==> hash(a[i].fields) != hash(b[i].fields)
    ensures a[j].eventHash != b[j].eventHash
  {
    if k < j {
      HashesDiverge(hash, a, b, k, j - 1);
      assert a[j].fields.previousEventHash == a[j - 1].eventHash;
      assert b[j].fields.previousEventHash == b[j - 1].eventHash;
    }
  }

  /** Replacing one event of a verified log: the result verifies exactly when the new event carries
      its own hash, points at the same predecessor and, unless it is the last, has the very hash of
      the event it replaces. */
  lemma EditVerifiesIff(hash: Hasher, es: seq<AuditEvent>, k: nat, e: AuditEvent)
    requires Verified(hash, es) && k < |es|
    ensures Verified(hash, es[k := e]) <==>
      && hash(e.fields) == e.eventHash
      && (k > 0 ==> e.fields.previousEventHash == es[k].fields.previousEventHash)
      && (k + 1 < |es| ==> e.eventHash == es[k].eventHash)
  {
    var t := es[k := e];
    assert t[k] == e;
    assert k > 0 ==> es[k].fields.previousEventHash == es[k - 1].eventHash && t[k - 1] == es[k - 1];
    assert k + 1 < |es| ==> es[k + 1].fields.previousEventHash == es[k].eventHash && t[k + 1] == es[k + 1];
    if hash(e.fields) == e.eventHash && (k > 0 ==> e.fields.previousEventHash == es[k].fields.previousEventHash)
      && (k + 1 < |es| ==> e.eventHash == es[k].eventHash)
    {
      forall i | 0 < i < |t| ensures t[i].fields.previousEventHash == t[i - 1].eventHash {
        assert es[i].fields.previousEventHash == es[i - 1].eventHash;
      }
    }
  }

  /** The verdict does not depend on the unhashed fields: rewriting them is never detected. */
  lemma DetailsAreUnprotected(hash: Hasher, a: seq<AuditEvent>, b: seq<AuditEvent>)
    requires |a| == |b|
    requires forall i | 0 <= i < |a| :: a[i].fields == b[i].fields && a[i].eventHash == b[i].eventHash
    ensures Verified(hash, a) <==> Verified(hash, b)
  {
  }

  /** The promise to find any tampering fails on every log that is not empty: rewriting the details
      of one event gives a different log that still verifies. */
  lemma RewrittenDetailsVerify(hash: Hasher, es: seq<AuditEvent>, k: nat, d: Details)
    requires Verified(hash, es) && k < |es| && d != es[k].details
    ensures var t := es[k := es[k].(details := d)];
      t != es && Verified(hash, t)
  {
    var t := es[k := es[k].(details := d)];
    assert t[k].details == d;
    DetailsAreUnprotected(hash, es, t);
  }

  /** For instance, a denial whose reason and source address are removed. */
  lemma RewrittenDenialVerifies(hash: Hasher, draft: AuditEvent)
    requires draft.fields.decision == "DENY" && draft.details.decisionReason.Some?
    ensures var e := Seal(hash, GENESIS_HASH, draft);
      var f := e.(details := e.details.(decisionReason := None, sourceIp := None));
      Verified(hash, [e]) && Verified(hash, [f]) && [e] != [f]
  {
    var e := Seal(hash, GENESIS_HASH, draft);
    assert e.details.decisionReason.Some?;
  }

  /** A published log rewritten from any event on and sealed again verifies: with the first `k` events
      kept, the accepted logs are exactly those whose rest is sealed on the last of them. */
  lemma RewrittenSuffixVerifiesIff(hash: Hasher, es: seq<AuditEvent>, k: nat, rest: seq<AuditEvent>)
    requires Verified(hash, es) && Rooted(GENESIS_HASH, es) && k <= |es|
    ensures var kept := es[..k];
      Verified(hash, kept + rest) && Rooted(GENESIS_HASH, kept + rest) <==>
        rest == ChainFrom(hash, Head(GENESIS_HASH, kept), rest)
  {
    var kept := es[..k];
    assert es == kept + es[k..];
    VerifiedConcat(hash, kept, es[k..]);
    VerifiedConcat(hash, kept, rest);
    VerifiedIffRepublished(hash, Head(GENESIS_HASH, kept), rest);
    assert k == 0 ==> kept + rest == rest;
  }

  /** So whatever is written in place of the rest of a log can be made to verify. */
  lemma ResealedLogVerifies(hash: Hasher, es: seq<AuditEvent>, k: nat, drafts: seq<AuditEvent>)
    requires Verified(hash, es) && Rooted(GENESIS_HASH, es) && k <= |es|
    ensures var forged := es[..k] + ChainFrom(hash, Head(GENESIS_HASH, es[..k]), drafts);
      && Verified(hash, forged) && Rooted(GENESIS_HASH, forged) && |forged| == k + |drafts|
      && forall i | 0 <= i < |drafts| :: SameBody(drafts[i], forged[k + i])
  {
    var prev := Head(GENESIS_HASH, es[..k]);
    var rest := ChainFrom(hash, prev, drafts);
    ChainFromVerifies(hash, prev, drafts);
    VerifiedIffRepublished(hash, prev, rest);
    RewrittenSuffixVerifiesIff(hash, es, k, rest);
    SuffixOf(es[..k], rest);
  }

  lemma SuffixOf(a: seq<AuditEvent>, b: seq<AuditEvent>)
    ensures forall i | 0 <= i < |b| :: (a + b)[|a| + i] == b[i]
  {
  }

  // --------------------------------------- drops, reorderings and repetitions

  /** No two events of the log collide, and none hashes to the sentinel. */
  ghost predicate CollisionFree(hash: Hasher, es: seq<AuditEvent>) {
    && (forall e, d | e in es && d in es && hash(e.fields) == hash(d.fields) :: e.fields == d.fields)
    && (forall e | e in es :: hash(e.fields) != GENESIS_HASH)
  }

  /** The hashes of a rooted log are pairwise different, whatever the events say. */
  lemma {:induction false} HashesDistinct(hash: Hasher, es: seq<AuditEvent>, i: nat, j: nat)
    requires Verified(hash, es) && Rooted(GENESIS_HASH, es) && CollisionFree(hash, es)
    requires i < j < |es|
    ensures es[i].eventHash != es[j].eventHash
    decreases i
  {
    assert es[i] in es && es[j] in es && es[j - 1] in es;
    assert es[j].fields.previousEventHash == es[j - 1].eventHash;
    if i > 0 {
      HashesDistinct(hash, es, i - 1, j - 1);
      assert es[i].fields.previousEventHash == es[i - 1].eventHash;
    }
  }

  /** Events picked from a published log, in any order and with any repetitions, verify exactly
      when they are a run of consecutive events of it. */
  lemma SelectionVerifiesIffConsecutive(hash: Hasher, es: seq<AuditEvent>, ix: seq<nat>)
    requires Verified(hash, es) && Rooted(GENESIS_HASH, es) && CollisionFree(hash, es)
    requires forall k | 0 <= k < |ix| :: ix[k] < |es|
    ensures Verified(hash, Select(es, ix)) <==> Consecutive(ix)
  {
    var s := Select(es, ix);
    forall k | 0 < k < |ix|
      ensures s[k].fields.previousEventHash == s[k - 1].eventHash <==> ix[k] == ix[k - 1] + 1
    {
      LinkedIffNext(hash, es, ix[k - 1], ix[k]);
    }
    if Verified(hash, s) {
      assert forall k | 0 < k < |ix| :: s[k].fields.previousEventHash == s[k - 1].eventHash;
    }
  }

  lemma LinkedIffNext(hash: Hasher, es: seq<AuditEvent>, i: nat, j: nat)
    requires Verified(hash, es) && Rooted(GENESIS_HASH, es) && CollisionFree(hash, es)
    requires i < |es| && j < |es|
    ensures es[j].fields.previousEventHash == es[i].eventHash <==> j == i + 1
  {
    if j == 0 {
      assert es[i] in es;
    } else if j - 1 < i {
      HashesDistinct(hash, es, j - 1, i);
    } else if i < j - 1 {
      HashesDistinct(hash, es, i, j - 1);
    }
  }
}
