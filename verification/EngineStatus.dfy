/**
  What Status and Stop calls report: completion is reported exactly from the end of the run on, and
  a run that is stopped is judged.
 */
module EngineStatus {
  import opened Wrappers
  import opened Engine
  import opened EngineStop
  import EngineCounts
  import EngineVerdict
  import Shutdown = EngineControl

  // ---------- what a result means for the run ----------

  ghost predicate Judged(ctl: Engine.Control) {
    exists k :: 0 <= k < |ctl.callers| && ctl.callers[k].pc.CallReturned? && ctl.callers[k].pc.result.Verdict?
  }

  ghost predicate ResultInv(ctl: Engine.Control, call: Caller) {
    call.pc.CallReturned? ==>
      match call.pc.result
      case NoRunData => !ctl.inMap
      case StatusReport(completed) => call.kind.StatusCall? && (completed ==> ctl.stopClosed)
      case Verdict(_, _, _, _) => call.kind.StopCall? && !ctl.inMap
  }

  ghost predicate Inv(s: State) {
    && (forall k :: 0 <= k < |s.ctl.callers| ==> ResultInv(s.ctl, s.ctl.callers[k]))
    && (!s.ctl.inMap ==> Judged(s.ctl))
  }

  lemma CallResult(s: State, k: nat, drained: bool)
    requires Inv(s) && Shutdown.Inv(s) && Enabled(s, Call(k, drained))
    ensures ResultInv(Next(s, Call(k, drained)).ctl, Next(s, Call(k, drained)).ctl.callers[k])
  {
    assert Shutdown.CallerInv(s.ctl, s.ctl.callers[k]);
    assert Shutdown.InStopOnce(s.ctl.callers[k].pc) <==> s.ctl.stopOnce == Running(k);
    assert ResultInv(s.ctl, s.ctl.callers[k]);
  }

  lemma CallKeepsJudged(s: State, k: nat, drained: bool)
    requires Inv(s) && Enabled(s, Call(k, drained))
    ensures var d := Next(s, Call(k, drained)).ctl; !d.inMap ==> Judged(d)
  {
    var d := Next(s, Call(k, drained)).ctl;
    if !s.ctl.inMap {
      var j :| 0 <= j < |s.ctl.callers| && s.ctl.callers[j].pc.CallReturned? && s.ctl.callers[j].pc.result.Verdict?;
      assert d.callers[j] == s.ctl.callers[j];
    } else if !d.inMap {
      assert d.callers[k].pc.CallReturned? && d.callers[k].pc.result.Verdict?;
    }
  }

  lemma StepInv(s: State, e: Event)
    requires Inv(s) && Shutdown.Inv(s) && Enabled(s, e)
    ensures Inv(Next(s, e))
  {
    var t := Next(s, e);
    if e.Call? {
      CallResult(s, e.caller, e.drained);
      CallKeepsJudged(s, e.caller, e.drained);
      forall j | 0 <= j < |t.ctl.callers| ensures ResultInv(t.ctl, t.ctl.callers[j]) {
        if j != e.caller { assert ResultInv(s.ctl, s.ctl.callers[j]) && t.ctl.callers[j] == s.ctl.callers[j]; }
      }
    } else {
      OtherStepInv(s, e);
    }
  }

  lemma OtherStepInv(s: State, e: Event)
    requires Inv(s) && Shutdown.Inv(s) && Enabled(s, e) && !e.Call?
    ensures Inv(Next(s, e))
  {
    var c, d := s.ctl, Next(s, e).ctl;
    assert forall k :: 0 <= k < |c.callers| ==> d.callers[k] == c.callers[k];
    forall k | 0 <= k < |d.callers| ensures ResultInv(d, d.callers[k]) {
      if k < |c.callers| { assert ResultInv(c, c.callers[k]); }
    }
    if !d.inMap {
      var k :| 0 <= k < |c.callers| && c.callers[k].pc.CallReturned? && c.callers[k].pc.result.Verdict?;
      assert d.callers[k] == c.callers[k];
    }
  }

  lemma {:induction false} RunInv(s: State, es: seq<Event>, t: State)
    requires Inv(s) && Shutdown.Inv(s) && Executes(s, es, t)
    ensures Inv(t)
    decreases |es|
  {
    if es != [] {
      StepInv(s, es[0]);
      Shutdown.StepInv(s, es[0]);
      RunInv(Next(s, es[0]), es[1..], t);
    }
  }

  lemma ReachableInv(s: State)
    requires Reachable(s)
    ensures Inv(s)
  {
    var es :| Executes(Init(s.cfg), es, s);
    RunInv(Init(s.cfg), es, s);
  }

  /**
    In every reachable state: a Status call that has reported completion has stopped the ticker; a
    stop that has reported a verdict has removed the run; and a call finds no run only after some
    stop has judged it.
   */
  lemma ResultsMeanWhatTheySay(s: State, k: nat)
    requires Reachable(s) && k < |s.ctl.callers| && s.ctl.callers[k].pc.CallReturned?
    ensures var r := s.ctl.callers[k].pc.result;
            && (r == StatusReport(true) ==> s.ctl.stopClosed && !s.ctl.timerLive)
            && (r.Verdict? ==> !s.ctl.inMap)
            && (r.NoRunData? ==> Judged(s.ctl))
            && (r.StatusReport? <==> s.ctl.callers[k].kind.StatusCall? && !r.NoRunData?)
  {
    ReachableInv(s);
    Shutdown.ReachableInv(s);
    assert ResultInv(s.ctl, s.ctl.callers[k]);
    assert Shutdown.CallerInv(s.ctl, s.ctl.callers[k]);
  }

  /** Once a stop call has returned, some stop has judged the run. */
  lemma StoppedRunsAreJudged(s: State, k: nat)
    requires Reachable(s) && k < |s.ctl.callers| && s.ctl.callers[k].kind.StopCall? && s.ctl.callers[k].pc.CallReturned?
    ensures Judged(s.ctl)
  {
    ReachableInv(s);
    assert ResultInv(s.ctl, s.ctl.callers[k]);
  }

  // ---------- completion is reported once the run has ended ----------

  predicate Denied(c: Caller) { c.pc == CallReturned(StatusReport(false)) }

  lemma StepNeverDenies(s: State, e: Event)
    requires Enabled(s, e) && Ended(s.cfg, s.pool.requests)
    ensures var t := Next(s, e);
            && Ended(t.cfg, t.pool.requests) && |s.ctl.callers| <= |t.ctl.callers|
            && forall k :: 0 <= k < |t.ctl.callers| && Denied(t.ctl.callers[k]) ==>
                 k < |s.ctl.callers| && Denied(s.ctl.callers[k])
  {
    var t := Next(s, e);
    if e.Work? { EngineVerdict.CountersGrow(s, e.worker, e.choice); }
    assert forall k :: 0 <= k < |s.ctl.callers| && !(e.Call? && e.caller == k) ==>
        t.ctl.callers[k] == s.ctl.callers[k];
  }

  /**
    From the moment the attempt counter has reached the target, no Status call that has not yet
    been answered, and no later one, reports the run as still going on.
   */
  lemma {:induction false} EndIsNeverDenied(s: State, es: seq<Event>, t: State, k: nat)
    requires Executes(s, es, t) && Ended(s.cfg, s.pool.requests)
    requires k < |t.ctl.callers| && Denied(t.ctl.callers[k])
    ensures k < |s.ctl.callers| && Denied(s.ctl.callers[k])
    decreases |es|
  {
    if es != [] {
      StepNeverDenies(s, es[0]);
      EndIsNeverDenied(Next(s, es[0]), es[1..], t, k);
    }
  }

  /** A Status call under way in an ended run whose data is still there. */
  ghost predicate Completing(s: State, k: nat) {
    && SafeInv(s) && Inv(s) && Ended(s.cfg, s.pool.requests) && s.ctl.inMap
    && k < |s.ctl.callers| && s.ctl.callers[k].kind.StatusCall? && !Denied(s.ctl.callers[k])
  }

  /** The call that is next in line for it: the one inside the once, if any. */
  function Turn(s: State, k: nat): Event { Call(if s.ctl.stopOnce.Running? then s.ctl.stopOnce.owner else k, false) }

  lemma TurnAdvances(s: State, k: nat)
    requires Completing(s, k) && !s.ctl.callers[k].pc.CallReturned?
    ensures var e := Turn(s, k);
            Enabled(s, e) && Completing(Next(s, e), k) && Measure(Next(s, e)) < Measure(s)
  {
    var e := Turn(s, k);
    TurnEnabled(s, k);
    SafeStep(s, e);
    StepInv(s, e);
    StepNeverDenies(s, e);
    CallMeasure(s, e.caller, false);
  }

  lemma TurnEnabled(s: State, k: nat)
    requires Completing(s, k) && !s.ctl.callers[k].pc.CallReturned?
    ensures var e := Turn(s, k);
            Enabled(s, e) && Next(s, e).ctl.inMap && Next(s, e).ctl.callers[k].kind.StatusCall? &&
            |Next(s, e).ctl.callers| == |s.ctl.callers|
  {
    assert Shutdown.CallerInv(s.ctl, s.ctl.callers[k]);
    var j := Turn(s, k).caller;
    assert Shutdown.InStopOnce(s.ctl.callers[j].pc) <==> s.ctl.stopOnce == Running(j);
  }

  lemma {:induction false} CompleteFrom(s: State, k: nat) returns (es: seq<Event>, t: State)
    requires Completing(s, k)
    ensures Executes(s, es, t) && NoInvoke(es) && k < |t.ctl.callers|
    ensures t.ctl.callers[k].pc == CallReturned(StatusReport(true))
    decreases Measure(s)
  {
    if s.ctl.callers[k].pc.CallReturned? {
      es, t := [], s;
      assert ResultInv(s.ctl, s.ctl.callers[k]);
    } else {
      var e := Turn(s, k);
      TurnAdvances(s, k);
      var fs;
      fs, t := CompleteFrom(Next(s, e), k);
      es := [e] + fs;
      assert es[0] == e && es[1..] == fs;
    }
  }

  /**
    From every reachable state in which the run has ended and its data is there, a Status call that
    has not been told otherwise before can be run to reporting completion.
   */
  lemma EndedRunsComplete(s: State, k: nat)
    requires Reachable(s) && Ended(s.cfg, s.pool.requests) && s.ctl.inMap
    requires k < |s.ctl.callers| && s.ctl.callers[k].kind.StatusCall? && !Denied(s.ctl.callers[k])
    ensures exists es, t :: Executes(s, es, t) && NoInvoke(es) && k < |t.ctl.callers| &&
                            t.ctl.callers[k].pc == CallReturned(StatusReport(true))
  {
    NoPanic(s);
    ReachableInv(s);
    var es, t := CompleteFrom(s, k);
  }
}
