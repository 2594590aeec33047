/** identity/api.py: suspending and reinstating identities. Each handler issues two Redis commands;
    either may fail, and the handler then answers 503 with whatever the first one did in place. */
module IdentityApi {

  /** Where the handler lost Redis, if it did. */
  datatype Fault = NoFault | AtFirst | AtSecond

  datatype Response = Done | NotSuspended | Unavailable

  /** `lostAdds` and `lostRemovals` count the changes of the set that a failing second command
      left uncounted. */
  datatype Ledger = Ledger(
    suspended: set<string>, reasons: map<string, string>, suspensions: nat, unsuspensions: nat,
    lostAdds: nat, lostRemovals: nat)

  const EMPTY := Ledger({}, map[], 0, 0, 0, 0)

  function Suspend(l: Ledger, id: string, reason: string, fault: Fault): Ledger {
    var added := if id in l.suspended then 0 else 1;
    match fault
    case AtFirst => l
    case AtSecond => l.(suspended := l.suspended + {id}, lostAdds := l.lostAdds + added)
    case NoFault =>
      l.(suspended := l.suspended + {id}, reasons := l.reasons[id := reason], suspensions := l.suspensions + added)
  }

  function Unsuspend(l: Ledger, id: string, fault: Fault): Ledger {
    var removed := if id in l.suspended then 1 else 0;
    match fault
    case AtFirst => l
    case AtSecond => l.(suspended := l.suspended - {id}, lostRemovals := l.lostRemovals + removed)
    case NoFault =>
      l.(suspended := l.suspended - {id}, reasons := l.reasons - {id}, unsuspensions := l.unsuspensions + removed)
  }

  class IdentityService {
    var suspended: set<string>
    var reasons: map<string, string>
    var suspensions: nat
    var unsuspensions: nat
    ghost var lostAdds: nat
    ghost var lostRemovals: nat

    ghost function State(): Ledger
      reads this
    {
      Ledger(suspended, reasons, suspensions, unsuspensions, lostAdds, lostRemovals)
    }

    constructor ()
      ensures State() == EMPTY
    {
      suspended, reasons, suspensions, unsuspensions := {}, map[], 0, 0;
      lostAdds, lostRemovals := 0, 0;
    }

    method SuspendIdentity(id: string, at: string, why: string, fault: Fault) returns (r: Response, newly: bool)
      modifies this
      ensures State() == Suspend(old(State()), id, at + "|" + why, fault)
      ensures r == (if fault == NoFault then Done else Unavailable) && newly == (r == Done && id !in old(suspended))
    {
      if fault == AtFirst {
        return Unavailable, false;
      }
      var added := id !in suspended;
      suspended := suspended + {id};
      if fault == AtSecond {
        lostAdds := lostAdds + if added then 1 else 0;
        return Unavailable, false;
      }
      reasons := reasons[id := at + "|" + why];
      if added {
        suspensions := suspensions + 1;
      }
      return Done, added;
    }

    method UnsuspendIdentity(id: string, fault: Fault) returns (r: Response)
      modifies this
      ensures State() == Unsuspend(old(State()), id, fault)
      ensures r == if fault != NoFault then Unavailable else if id in old(suspended) then Done else NotSuspended
    {
      if fault == AtFirst {
        return Unavailable;
      }
      var removed := id in suspended;
      suspended := suspended - {id};
      if fault == AtSecond {
        lostRemovals := lostRemovals + if removed then 1 else 0;
        return Unavailable;
      }
      reasons := reasons - {id};
      if !removed {
        return NotSuspended;
      }
      unsuspensions := unsuspensions + 1;
      return Done;
    }
  }

  datatype Op = DoSuspend(id: string, reason: string, fault: Fault) | DoUnsuspend(id: string, fault: Fault)

  function Run(ops: seq<Op>): Ledger {
    if ops == [] then EMPTY
    else
      var before := Run(ops[..|ops| - 1]);
      match ops[|ops| - 1]
      case DoSuspend(id, reason, fault) => Suspend(before, id, reason, fault)
      case DoUnsuspend(id, fault) => Unsuspend(before, id, fault)
  }

  /** Over every run, failures included, the totals and the set differ by exactly the changes that
      went uncounted. */
  lemma {:induction false} LedgerBalances(ops: seq<Op>)
    ensures var l := Run(ops);
      |l.suspended| + l.unsuspensions + l.lostRemovals == l.suspensions + l.lostAdds
  {
    if ops != [] {
      LedgerBalances(ops[..|ops| - 1]);
    }
  }

  /** While Redis never fails, suspensions minus reinstatements is the size of the set, and a reason
      is kept exactly for its members. */
  lemma {:induction false} LedgerWithoutFailures(ops: seq<Op>)
    requires forall i | 0 <= i < |ops| :: ops[i].fault == NoFault
    ensures var l := Run(ops);
      l.suspensions - l.unsuspensions == |l.suspended| && l.reasons.Keys == l.suspended
  {
    if ops != [] {
      LedgerWithoutFailures(ops[..|ops| - 1]);
    }
  }

  /** The op is the last one on the identity to have had both its commands. */
  predicate LastCompleted(ops: seq<Op>, i: nat, id: string)
    requires i < |ops|
  {
    && ops[i].id == id && ops[i].fault == NoFault
    && forall j | i < j < |ops| && ops[j].id == id :: ops[j].fault != NoFault
  }

  /** The reason kept for an identity is that of the last suspension to have had both its commands, if
      no reinstatement had both since; and there is none otherwise. */
  lemma {:induction false} ReasonIsOfLastCompleted(ops: seq<Op>, id: string)
    ensures forall i: nat | i < |ops| && LastCompleted(ops, i, id) ::
      if ops[i].DoSuspend? then id in Run(ops).reasons && Run(ops).reasons[id] == ops[i].reason
      else id !in Run(ops).reasons
    ensures id in Run(ops).reasons ==> exists i: nat :: i < |ops| && LastCompleted(ops, i, id)
  {
    if ops != [] {
      var n := |ops| - 1;
      ReasonIsOfLastCompleted(ops[..n], id);
      forall i: nat | i < n ensures LastCompleted(ops, i, id)
        <==> LastCompleted(ops[..n], i, id) && (ops[n].id == id ==> ops[n].fault != NoFault)
      {
        assert forall j | i < j < n :: ops[..n][j] == ops[j];
      }
      if ops[n].id == id && ops[n].fault == NoFault {
        assert LastCompleted(ops, n, id);
      }
    }
  }
}
