/** The audit log of an agent that is restarted: audit/producer.py starts each life at GENESIS, and
    the chain query of audit/api.py returns all lives together. */
module Restarts {
  import opened AuditSchema
  import opened HashChain
  import opened AuditProducer
  import opened AuditStore
  import opened Subsequence

  /** What all lives publish, one after the other. */
  function LivesLog(hash: Hasher, lives: seq<seq<AuditEvent>>): seq<AuditEvent> {
    if lives == [] then []
    else
      var n := |lives| - 1;
      LivesLog(hash, lives[..n]) + Published(hash, lives[n])
  }

  function Total(lives: seq<seq<AuditEvent>>): nat {
    if lives == [] then 0 else Total(lives[..|lives| - 1]) + |lives[|lives| - 1]|
  }

  /** The event at `i` is the first of its life. */
  predicate Starts(lives: seq<seq<AuditEvent>>, i: int) {
    lives != [] &&
    var n := |lives| - 1;
    Starts(lives[..n], i) || (lives[n] != [] && i == Total(lives[..n]))
  }

  lemma {:induction false} StartsBelowTotal(lives: seq<seq<AuditEvent>>, i: int)
    ensures Starts(lives, i) ==> 0 <= i < Total(lives)
  {
    if lives != [] {
      StartsBelowTotal(lives[..|lives| - 1], i);
    }
  }

  /** The event at `i` is sealed, on GENESIS if it starts a life and on its predecessor otherwise. */
  ghost predicate SealedAt(hash: Hasher, lives: seq<seq<AuditEvent>>, log: seq<AuditEvent>, i: int)
    requires 0 <= i < |log|
  {
    && hash(log[i].fields) == log[i].eventHash
    && if Starts(lives, i) then log[i].fields.previousEventHash == GENESIS_HASH
       else i > 0 && log[i].fields.previousEventHash == log[i - 1].eventHash
  }

  ghost predicate Sealed(hash: Hasher, lives: seq<seq<AuditEvent>>, log: seq<AuditEvent>) {
    |log| == Total(lives) && forall i | 0 <= i < |log| :: SealedAt(hash, lives, log, i)
  }

  lemma {:induction false} LivesAreSealed(hash: Hasher, lives: seq<seq<AuditEvent>>)
    ensures Sealed(hash, lives, LivesLog(hash, lives))
  {
    if lives != [] {
      var n := |lives| - 1;
      var before, last := LivesLog(hash, lives[..n]), Published(hash, lives[n]);
      LivesAreSealed(hash, lives[..n]);
      ChainFromVerifies(hash, GENESIS_HASH, lives[n]);
      var log := LivesLog(hash, lives);
      forall i | 0 <= i < |log| ensures SealedAt(hash, lives, log, i) {
        StartsBelowTotal(lives[..n], i);
        if i < |before| {
          assert SealedAt(hash, lives[..n], before, i);
        } else {
          assert log[i] == last[i - |before|];
          assert i > |before| ==> log[i - 1] == last[i - |before| - 1];
        }
      }
    }
  }

  /** Among sealed events without collisions, one points at another exactly when it comes next in
      the same life. */
  lemma LinkedIffNextInLife(
    hash: Hasher, agent: string, lives: seq<seq<AuditEvent>>, log: seq<AuditEvent>, i: nat, j: nat)
    requires Sealed(hash, lives, log) && Identified(agent, log) && CollisionFree(hash, log)
    requires i < |log| && j < |log|
    ensures log[j].fields.previousEventHash == log[i].eventHash <==> j == i + 1 && !Starts(lives, j)
  {
    assert SealedAt(hash, lives, log, i) && SealedAt(hash, lives, log, j);
    assert log[i] in log;
    if !Starts(lives, j) {
      assert SealedAt(hash, lives, log, j - 1) && log[j - 1] in log;
    }
  }

  /** The picked events come one after the other, all in one life. */
  predicate RunOfOneLife(lives: seq<seq<AuditEvent>>, ix: seq<nat>) {
    forall k | 0 < k < |ix| :: ix[k] == ix[k - 1] + 1 && !Starts(lives, ix[k])
  }

  lemma PickedAreSealed(hash: Hasher, lives: seq<seq<AuditEvent>>, log: seq<AuditEvent>, ix: seq<nat>)
    requires Sealed(hash, lives, log) && forall k | 0 <= k < |ix| :: ix[k] < |log|
    ensures forall k | 0 <= k < |ix| :: hash(log[ix[k]].fields) == log[ix[k]].eventHash
  {
    forall k | 0 <= k < |ix| ensures hash(log[ix[k]].fields) == log[ix[k]].eventHash {
      assert SealedAt(hash, lives, log, ix[k]);
    }
  }

  /** Events whose hashes are right verify exactly when each points at the one before it. */
  lemma VerifiedIffLinked(hash: Hasher, log: seq<AuditEvent>, ix: seq<nat>)
    requires forall k | 0 <= k < |ix| :: ix[k] < |log| && hash(log[ix[k]].fields) == log[ix[k]].eventHash
    ensures Verified(hash, Select(log, ix)) <==>
      forall k | 0 < k < |ix| :: log[ix[k]].fields.previousEventHash == log[ix[k - 1]].eventHash
  {
    var s := Select(log, ix);
    if Verified(hash, s) {
      forall k | 0 < k < |ix| ensures log[ix[k]].fields.previousEventHash == log[ix[k - 1]].eventHash {
        assert s[k].fields.previousEventHash == s[k - 1].eventHash;
      }
    }
  }

  /** Events picked from the log of several lives, in any order and with any repetitions, verify
      exactly when they are a run of consecutive events of one life. */
  lemma SelectionVerifiesIffOneLife(
    hash: Hasher, agent: string, lives: seq<seq<AuditEvent>>, log: seq<AuditEvent>, ix: seq<nat>)
    requires Sealed(hash, lives, log) && Identified(agent, log) && CollisionFree(hash, log)
    requires forall k | 0 <= k < |ix| :: ix[k] < |log|
    ensures Verified(hash, Select(log, ix)) <==> RunOfOneLife(lives, ix)
  {
    PickedAreSealed(hash, lives, log, ix);
    VerifiedIffLinked(hash, log, ix);
    if RunOfOneLife(lives, ix) {
      forall k | 0 < k < |ix| ensures log[ix[k]].fields.previousEventHash == log[ix[k - 1]].eventHash {
        LinkedIffNextInLife(hash, agent, lives, log, ix[k - 1], ix[k]);
      }
    }
    if Verified(hash, Select(log, ix)) {
      forall k | 0 < k < |ix| ensures ix[k] == ix[k - 1] + 1 && !Starts(lives, ix[k]) {
        LinkedIffNextInLife(hash, agent, lives, log, ix[k - 1], ix[k]);
      }
    }
  }

  /** No flagged event starts a life directly after a flagged event of the life before. */
  predicate OneLife(lives: seq<seq<AuditEvent>>, flags: seq<bool>) {
    forall i | 0 < i < |flags| && flags[i - 1] && flags[i] :: !Starts(lives, i)
  }

  lemma PlacesInOneLifeIff(lives: seq<seq<AuditEvent>>, flags: seq<bool>, ix: seq<nat>)
    requires Consecutive(ix)
    requires (forall k | 0 <= k < |ix| :: ix[k] < |flags| && flags[ix[k]])
    requires (forall i {:trigger i in ix} | 0 <= i < |flags| && flags[i] :: i in ix)
    ensures RunOfOneLife(lives, ix) <==> OneLife(lives, flags)
  {
    if OneLife(lives, flags) {
      forall k | 0 < k < |ix| ensures !Starts(lives, ix[k]) {
        assert ix[k] == ix[k - 1] + 1 && flags[ix[k - 1]] && flags[ix[k]];
      }
    }
    if RunOfOneLife(lives, ix) {
      forall i | 0 < i < |flags| && flags[i - 1] && flags[i] ensures !Starts(lives, i) {
        assert i in ix && i - 1 in ix;
        var k :| 0 <= k < |ix| && ix[k] == i;
        var m :| 0 <= m < |ix| && ix[m] == i - 1;
        if k == 0 {
          ConsecutiveRun(ix, 0, m);
        }
      }
    }
  }

  lemma VerifiedMeansOneLife(
    hash: Hasher, agent: string, lives: seq<seq<AuditEvent>>, log: seq<AuditEvent>, ms: seq<Message>,
    result: seq<AuditEvent>)
    requires Sealed(hash, lives, log) && Identified(agent, log) && CollisionFree(hash, log)
    requires OnlyFrom(agent, log, ms) && QueryResult(Ingest(map[], ms), agent, result) && Verified(hash, result)
    ensures Contiguous(Arrived(log, ms)) && OneLife(lives, Arrived(log, ms)) && Filter(log, Arrived(log, ms)) == result
  {
    var flags := Arrived(log, ms);
    var ix := ResultPlaces(agent, log, ms, result);
    assert Select(log, ix) == result;
    SelectionVerifiesIffOneLife(hash, agent, lives, log, ix);
    ConsecutivePlaces(log, flags, result, ix);
    PlacesInOneLifeIff(lives, flags, ix);
  }

  lemma OneLifeVerifies(
    hash: Hasher, agent: string, lives: seq<seq<AuditEvent>>, log: seq<AuditEvent>, flags: seq<bool>)
    requires Sealed(hash, lives, log) && Identified(agent, log) && CollisionFree(hash, log)
    requires |flags| == |log| && Contiguous(flags) && OneLife(lives, flags)
    ensures Verified(hash, Filter(log, flags))
  {
    FilterIsSelection(log, flags);
    IndicesMark(flags);
    ConsecutiveIffContiguous(Indices(flags), flags);
    PlacesInOneLifeIff(lives, flags, Indices(flags));
    SelectionVerifiesIffOneLife(hash, agent, lives, log, Indices(flags));
  }

  /** The verdict on an agent with any number of lives, under any loss, duplication and order of
      delivery: valid exactly when what arrived is one run of consecutive events of one life, stamped
      in the order it was published in. */
  lemma RestartVerdictIff(
    hash: Hasher, agent: string, lives: seq<seq<AuditEvent>>, log: seq<AuditEvent>, ms: seq<Message>,
    result: seq<AuditEvent>)
    requires log == LivesLog(hash, lives)
    requires Identified(agent, log) && DistinctTimes(log) && OnlyFrom(agent, log, ms) && CollisionFree(hash, log)
    requires QueryResult(Ingest(map[], ms), agent, result)
    ensures var flags := Arrived(log, ms);
      Verified(hash, result) <==> Contiguous(flags) && OneLife(lives, flags) && StrictlyTimed(Filter(log, flags))
  {
    var flags := Arrived(log, ms);
    LivesAreSealed(hash, lives);
    if Verified(hash, result) {
      VerifiedMeansOneLife(hash, agent, lives, log, ms, result);
      PartTimes(log, flags);
      ResultIsTimed(agent, log, ms, result);
    }
    if Contiguous(flags) && OneLife(lives, flags) && StrictlyTimed(Filter(log, flags)) {
      Recovery(agent, log, ms, result);
      OneLifeVerifies(hash, agent, lives, log, flags);
    }
  }
}
