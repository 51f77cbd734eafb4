/**
  The queue backlog check of extrabbitmq/check_queue_backlog.go: sticky flags folded over polls.
 */
module BacklogCheck {
  import opened Wrappers

  datatype Flags = Flags(success: bool, failed: bool)

  datatype Poll = Poll(backlog: int, after: bool)

  /** What one poll tells the platform. */
  datatype Status = Status(completed: bool, failed: bool)

  function NextFlags(f: Flags, threshold: int, backlog: int): Flags {
    if backlog <= threshold then f.(success := true) else f.(failed := true)
  }

  function StatusOf(failEarly: bool, f: Flags, after: bool): Status {
    if failEarly && f.failed then Status(true, true) else Status(after, after && f.failed)
  }

  class QueueBacklogCheckState {
    var threshold: int
    var end: int
    var failEarly: bool
    var stateCheckSuccess: bool
    var stateCheckFailed: bool

    function Value(): Flags
      reads this
    {
      Flags(stateCheckSuccess, stateCheckFailed)
    }

    constructor (threshold: int, end: int, failEarly: bool)
      ensures Value() == Flags(false, false)
      ensures this.threshold == threshold && this.end == end && this.failEarly == failEarly
    {
      this.threshold, this.end, this.failEarly := threshold, end, failEarly;
      stateCheckSuccess, stateCheckFailed := false, false;
    }

    /** `QueueBacklogCheckStatus`; a failing queue lookup is an error of the call and leaves the state alone. */
    method CheckStatus(now: int, lookup: Result<int, string>) returns (r: Result<Status, string>)
      modifies this`stateCheckSuccess, this`stateCheckFailed
      ensures lookup.Failure? ==> r.Failure? && Value() == old(Value())
      ensures lookup.Success? ==>
                Value() == NextFlags(old(Value()), threshold, lookup.value) &&
                r == Success(StatusOf(failEarly, Value(), now > end))
    {
      if lookup.Failure? {
        return Failure("failed to retrieve queue: " + lookup.error);
      }
      var completed, failed := now > end, false;
      if lookup.value <= threshold {
        stateCheckSuccess := true;
      } else {
        stateCheckFailed := true;
      }
      if failEarly && stateCheckFailed {
        failed := true;
        completed := true;
      } else if completed && stateCheckFailed {
        failed := true;
      }
      return Success(Status(completed, failed));
    }
  }

  // ---------- whole runs ----------

  function After(threshold: int, polls: seq<Poll>): Flags {
    if polls == [] then Flags(false, false)
    else NextFlags(After(threshold, polls[..|polls| - 1]), threshold, polls[|polls| - 1].backlog)
  }

  function StatusAt(threshold: int, failEarly: bool, polls: seq<Poll>, i: nat): Status
    requires i < |polls|
  {
    StatusOf(failEarly, After(threshold, polls[..i + 1]), polls[i].after)
  }

  ghost predicate Fails(threshold: int, failEarly: bool, polls: seq<Poll>) {
    exists i :: 0 <= i < |polls| && StatusAt(threshold, failEarly, polls, i).failed
  }

  /** The failed flag says exactly that some poll so far was over the threshold; it is never cleared. */
  lemma {:induction false} FailedFlagIsSticky(threshold: int, polls: seq<Poll>)
    ensures After(threshold, polls).failed <==> exists i :: 0 <= i < |polls| && polls[i].backlog > threshold
  {
    if polls != [] {
      var n := |polls| - 1;
      FailedFlagIsSticky(threshold, polls[..n]);
      assert forall i :: 0 <= i < n ==> polls[..n][i] == polls[i];
    }
  }

  /** Over every run of polls both modes fail iff some poll exceeded the threshold. */
  lemma BothModesFailOnBreach(threshold: int, failEarly: bool, polls: seq<Poll>)
    requires polls != [] && polls[|polls| - 1].after
    ensures Fails(threshold, failEarly, polls) <==> exists i :: 0 <= i < |polls| && polls[i].backlog > threshold
  {
    var n := |polls| - 1;
    if i :| 0 <= i < |polls| && polls[i].backlog > threshold {
      FailedFlagIsSticky(threshold, polls);
      assert polls[..n + 1] == polls;
      assert StatusAt(threshold, failEarly, polls, n).failed;
    }
    if i :| 0 <= i < |polls| && StatusAt(threshold, failEarly, polls, i).failed {
      FailedFlagIsSticky(threshold, polls[..i + 1]);
      var j :| 0 <= j < i + 1 && polls[..i + 1][j].backlog > threshold;
      assert polls[j].backlog > threshold;
    }
  }

  /** Failing early, the check completes as failed at the first poll over the threshold and not before. */
  lemma FailEarlyStopsAtFirstBreach(threshold: int, polls: seq<Poll>, i: nat)
    requires i < |polls| && forall j :: 0 <= j < i ==> polls[j].backlog <= threshold
    ensures polls[i].backlog > threshold ==> StatusAt(threshold, true, polls, i) == Status(true, true)
    ensures polls[i].backlog <= threshold ==> StatusAt(threshold, true, polls, i) == Status(polls[i].after, false)
  {
    FailedFlagIsSticky(threshold, polls[..i + 1]);
    assert forall j :: 0 <= j <= i ==> polls[..i + 1][j] == polls[j];
    if polls[i].backlog > threshold { assert polls[..i + 1][i].backlog > threshold; }
  }

  /** Failing at the end, no poll completes or fails before the end, and one after it fails iff a poll so far was over the threshold. */
  lemma FailAtEndWaitsForTheEnd(threshold: int, polls: seq<Poll>, i: nat)
    requires i < |polls|
    ensures StatusAt(threshold, false, polls, i).completed <==> polls[i].after
    ensures StatusAt(threshold, false, polls, i).failed <==>
            polls[i].after && exists j :: 0 <= j <= i && polls[j].backlog > threshold
  {
    FailedFlagIsSticky(threshold, polls[..i + 1]);
    assert forall j :: 0 <= j <= i ==> polls[..i + 1][j] == polls[j];
    if j :| 0 <= j <= i && polls[j].backlog > threshold { assert polls[..i + 1][j].backlog > threshold; }
  }

  /** The success flag says that some poll so far was within the threshold. */
  lemma {:induction false} SuccessFlagIsSticky(threshold: int, polls: seq<Poll>)
    ensures After(threshold, polls).success <==> exists i :: 0 <= i < |polls| && polls[i].backlog <= threshold
  {
    if polls != [] {
      var n := |polls| - 1;
      SuccessFlagIsSticky(threshold, polls[..n]);
      assert forall i :: 0 <= i < n ==> polls[..n][i] == polls[i];
    }
  }
}
