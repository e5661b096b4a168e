/** Ticket status names and the transition table `Ticket::STATUS_TRANSITIONS`. */
module Statuses {

  const Submitted: string := "submitted"
  const Assigned: string := "assigned"
  const InProgress: string := "in_progress"
  const Complete: string := "complete"
  const Closed: string := "closed"

  /** The five lifecycle stages, in the order a ticket passes through them. */
  const Lifecycle: seq<string> := [Submitted, Assigned, InProgress, Complete, Closed]

  /** The statuses the `whereIn` queries treat as open: every stage but the last. */
  const OpenStatuses: seq<string> := [Submitted, Assigned, InProgress, Complete]

  /** The statuses `getOpenAssignedTicketsCount` treats as being worked on. */
  const ActiveStatuses: seq<string> := [Assigned, InProgress]

  /** The transition table, keyed by the current status. */
  const StatusTransitions: map<string, seq<string>> :=
    map[
      Submitted := [Assigned],
      Assigned := [InProgress],
      InProgress := [Complete],
      Complete := [Closed],
      Closed := []
    ]

  /** The row for `status`, or no row at all for a status the table does not know. */
  function NextStatuses(status: string): seq<string> {
    if status in StatusTransitions then StatusTransitions[status] else []
  }

  /** Whether `status` is one of the five lifecycle names. */
  predicate IsKnown(status: string) {
    status in Lifecycle
  }

  /** The position of a known status in the lifecycle. */
  function Rank(status: string): (k: nat)
    requires IsKnown(status)
    ensures k < |Lifecycle| && Lifecycle[k] == status
  {
    if status == Submitted then 0
    else if status == Assigned then 1
    else if status == InProgress then 2
    else if status == Complete then 3
    else 4
  }

  /** Reference definition of a legal move: `to` is the stage right after `from`. */
  predicate IsLifecycleStep(from: string, to: string) {
    exists i :: 0 <= i < |Lifecycle| - 1 && Lifecycle[i] == from && Lifecycle[i + 1] == to
  }

  /** The table permits exactly the moves from one lifecycle stage to the next. */
  lemma TableIsLifecycle(from: string, to: string)
    ensures to in NextStatuses(from) <==> IsLifecycleStep(from, to)
  {
    if to in NextStatuses(from) {
      assert IsKnown(from);
      var k := Rank(from);
      assert k < 4 && Lifecycle[k + 1] == to;
    }
  }

  /** Every status other than `closed` in the lifecycle has exactly one successor;
      `closed` and every unknown status have none. */
  lemma SuccessorCount(status: string)
    ensures |NextStatuses(status)| <= 1
    ensures |NextStatuses(status)| == 1 <==> status in OpenStatuses
    ensures status == Closed || !IsKnown(status) ==> NextStatuses(status) == []
  {
  }

  /** Every permitted move goes one stage forward, never backward or sideways. */
  lemma StepAdvancesRank(from: string, to: string)
    requires to in NextStatuses(from)
    ensures IsKnown(from) && IsKnown(to)
    ensures Rank(to) == Rank(from) + 1
  {
    TableIsLifecycle(from, to);
    var i :| 0 <= i < |Lifecycle| - 1 && Lifecycle[i] == from && Lifecycle[i + 1] == to;
    assert Lifecycle[i] in Lifecycle && Lifecycle[i + 1] in Lifecycle;
    assert Rank(from) == i by {
      DistinctLifecycle();
    }
    assert Rank(to) == i + 1 by {
      DistinctLifecycle();
    }
  }

  /** The lifecycle names are pairwise distinct. */
  lemma DistinctLifecycle()
    ensures forall i, j :: 0 <= i < j < |Lifecycle| ==> Lifecycle[i] != Lifecycle[j]
  {
  }

  /** A sequence of statuses in which each one is a permitted move from the previous. */
  predicate IsRun(path: seq<string>) {
    forall i :: 0 <= i < |path| - 1 ==> path[i + 1] in NextStatuses(path[i])
  }

  /** Along any run, the rank grows by one per move; so no run revisits a status,
      and nothing follows `closed`. */
  lemma {:induction false} RunAdvancesRank(path: seq<string>)
    requires |path| >= 2 && IsRun(path)
    ensures IsKnown(path[0]) && IsKnown(path[|path| - 1])
    ensures Rank(path[|path| - 1]) == Rank(path[0]) + |path| - 1
  {
    StepAdvancesRank(path[0], path[1]);
    if |path| > 2 {
      var tail := path[1..];
      assert IsRun(tail) by {
        forall i | 0 <= i < |tail| - 1
          ensures tail[i + 1] in NextStatuses(tail[i])
        {
          assert tail[i] == path[i + 1] && tail[i + 1] == path[i + 2];
        }
      }
      RunAdvancesRank(tail);
    }
  }

  /** A run of moves never returns to a status it has left, and `closed` can only be its end. */
  lemma RunNeverRevisits(path: seq<string>, i: nat, j: nat)
    requires IsRun(path)
    requires i < j < |path|
    ensures path[i] != path[j]
    ensures path[i] != Closed
  {
    var sub := path[i..j + 1];
    assert IsRun(sub) by {
      forall k | 0 <= k < |sub| - 1
        ensures sub[k + 1] in NextStatuses(sub[k])
      {
        assert sub[k] == path[i + k] && sub[k + 1] == path[i + k + 1];
      }
    }
    RunAdvancesRank(sub);
    assert sub[0] == path[i] && sub[|sub| - 1] == path[j];
  }

  /** The open statuses are exactly the lifecycle stages other than `closed`. */
  lemma OpenMeansKnownAndNotClosed(status: string)
    ensures status in OpenStatuses <==> IsKnown(status) && status != Closed
  {
  }

  /** The active statuses are open ones. */
  lemma ActiveIsOpen(status: string)
    ensures status in ActiveStatuses ==> status in OpenStatuses
  {
  }
}
