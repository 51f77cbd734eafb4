/**
  Stopping a publish run: no run panics, every stop terminates, and none ever gets stuck.
 */
module EngineStop {
  import opened Wrappers
  import opened Engine
  import opened EngineCounts
  import Control = EngineControl
  import Handles = EngineHandles
  import Throttle = EngineThrottle

  // ---------- how much work is left ----------

  function WorkerRank(w: Worker): nat {
    match w.pc
    case Dialing => 3
    case Receiving => 2
    case Checking(_) => 13
    case Throttled(_, retry) => if retry then 8 else 12
    case Redialing(_, retry) => if retry then 7 else 11
    case Publishing(_) => 10
    case CountingSkip(_) => 10
    case Counting(_, _) => 9
    case Republishing(_) => 6
    case Awaiting(_) => 5
    case Acked(_, _) => 4
    case Crediting(_, _) => 3
    case Closing => 1
    case Exited(_) => 0
  }

  function CallerRank(c: Caller): nat {
    match c.pc
    case Loading => 14
    case CheckingEnd => 13
    case EnterStop => 12
    case StopTimer => 11
    case CloseStop => 10
    case LeaveStop => 9
    case WaitTicker => 8
    case EnterJobs => 7
    case CloseJobs => 6
    case LeaveJobs => 5
    case WaitWorkers => 4
    case LoadTotal(_) => 3
    case LoadSuccess(_, _) => 2
    case Deleting(_, _, _) => 1
    case CallReturned(_) => 0
  }

  function TickerRank(t: TickerPc): nat {
    match t
    case Holding => 15
    case Outer => 2
    case Leaving => 1
    case _ => 0
  }

  /** A bound on the steps left: each buffered job is worth one pass through the worker loop. */
  function Measure(s: State): nat {
    TickerRank(s.ctl.ticker) + 12 * (if s.sent >= s.received then s.sent - s.received else 0) +
    Sum(s.pool.workers, WorkerRank) + Sum(s.ctl.callers, CallerRank)
  }

  /** A worker step lowers the worker's rank, or takes a job from the buffer. */
  predicate RankDrops(s: State, t: State, i: nat) {
    i < |s.pool.workers| && i < |t.pool.workers| &&
    if t.received == s.received then WorkerRank(t.pool.workers[i]) < WorkerRank(s.pool.workers[i])
    else s.received < s.sent && t.received == s.received + 1 &&
         WorkerRank(t.pool.workers[i]) == WorkerRank(s.pool.workers[i]) + 11
  }

  lemma ChannelRank(s: State, i: nat, c: Choice)
    requires Enabled(s, Work(i, c)) && Next(s, Work(i, c)).fault.None? && OnChannel(s.pool.workers[i].pc)
    ensures RankDrops(s, Next(s, Work(i, c)), i)
  {
  }

  lemma WorkRank(s: State, i: nat, c: Choice)
    requires Enabled(s, Work(i, c)) && Next(s, Work(i, c)).fault.None?
    ensures RankDrops(s, Next(s, Work(i, c)), i)
  {
    if OnChannel(s.pool.workers[i].pc) { ChannelRank(s, i, c); }
  }

  lemma WorkMeasure(s: State, i: nat, c: Choice)
    requires Enabled(s, Work(i, c)) && Next(s, Work(i, c)).fault.None?
    ensures Measure(Next(s, Work(i, c))) < Measure(s)
  {
    var t := Next(s, Work(i, c));
    WorkRank(s, i, c);
    WorkJobFlow(s, i, c);
    SumUpdate(s.pool.workers, i, t.pool.workers[i], WorkerRank);
  }

  lemma CallRank(s: State, k: nat, drained: bool)
    requires k < |s.ctl.callers| && CallEnabled(s, k, drained)
    ensures CallerRank(Caller(s.ctl.callers[k].kind, CallPc(s, k, drained))) < CallerRank(s.ctl.callers[k])
  {
  }

  lemma CallMeasure(s: State, k: nat, drained: bool)
    requires Enabled(s, Call(k, drained)) && Next(s, Call(k, drained)).fault.None?
    ensures Measure(Next(s, Call(k, drained))) < Measure(s)
  {
    CallRank(s, k, drained);
    SumUpdate(s.ctl.callers, k, Caller(s.ctl.callers[k].kind, CallPc(s, k, drained)), CallerRank);
  }

  // ---------- stopping terminates ----------

  /** Steps of the engine itself, as opposed to the clock, the broker and new calls. */
  predicate IsSystem(e: Event) { !e.Clock? && !e.Broker? && !e.Invoke? }

  predicate NoInvoke(es: seq<Event>) { forall k :: 0 <= k < |es| ==> !es[k].Invoke? }

  function SystemSteps(es: seq<Event>): nat {
    if es == [] then 0 else (if IsSystem(es[0]) then 1 else 0) + SystemSteps(es[1..])
  }

  lemma StepMeasure(s: State, e: Event)
    requires Control.Inv(s) && s.ctl.stopClosed && Enabled(s, e) && !e.Invoke?
    requires Next(s, e).fault.None?
    ensures Next(s, e).ctl.stopClosed
    ensures Measure(Next(s, e)) + (if IsSystem(e) then 1 else 0) <= Measure(s)
  {
    assert s.ctl.callers != [];
    match e
    case Work(i, c) => WorkMeasure(s, i, c);
    case Call(k, drained) => CallMeasure(s, k, drained);
    case _ =>
  }

  ghost predicate SafeInv(s: State) {
    Control.Inv(s) && Handles.Inv(s) && Throttle.Inv(s) && Inv(s) && s.fault.None?
  }

  lemma SafeStep(s: State, e: Event)
    requires SafeInv(s) && Enabled(s, e)
    ensures SafeInv(Next(s, e))
  {
    Control.StepInv(s, e);
    Handles.StepInv(s, e);
    Throttle.StepInv(s, e);
    StepInv(s, e);
  }

  /** No run of the engine panics. */
  lemma NoPanic(s: State)
    requires Reachable(s)
    ensures SafeInv(s) && s.fault.None?
  {
    Control.ReachableInv(s);
    Handles.ReachableInv(s);
    Throttle.ReachableInv(s);
    ReachableInv(s);
  }

  lemma {:induction false} RunMeasure(s: State, es: seq<Event>, t: State)
    requires SafeInv(s) && s.ctl.stopClosed && Executes(s, es, t) && NoInvoke(es)
    ensures SystemSteps(es) + Measure(t) <= Measure(s)
    decreases |es|
  {
    if es != [] {
      SafeStep(s, es[0]);
      StepMeasure(s, es[0]);
      assert forall k :: 0 <= k < |es[1..]| ==> es[1..][k] == es[k + 1];
      RunMeasure(Next(s, es[0]), es[1..], t);
    }
  }

  /**
    Once the ticker is stopped, every run of ticker, workers and pending calls is finite: however
    the scheduler, the broker and the clock behave, at most Measure(s) engine steps remain.
   */
  lemma StopTerminates(s: State, es: seq<Event>, t: State)
    requires Reachable(s) && s.ctl.stopClosed
    requires Executes(s, es, t) && NoInvoke(es)
    ensures SystemSteps(es) <= Measure(s)
  {
    NoPanic(s);
    RunMeasure(s, es, t);
  }

  // ---------- a stop never gets stuck ----------

  ghost predicate StopPending(s: State) {
    exists k :: 0 <= k < |s.ctl.callers| && s.ctl.callers[k].kind.StopCall?
  }

  predicate AllReturned(cs: seq<Caller>) { forall k :: 0 <= k < |cs| ==> cs[k].pc.CallReturned? }

  ghost predicate Stopped(s: State) {
    && AllReturned(s.ctl.callers) && AllExited(s.pool.workers) && s.jobsClosed
    && (s.ctl.ticker.NotStarted? || s.ctl.ticker.TickerExited?)
  }

  lemma OneStep(s: State, e: Event)
    requires SafeInv(s) && Enabled(s, e)
    ensures Executes(s, [e], Next(s, e)) && SafeInv(Next(s, e))
  {
    SafeStep(s, e);
    assert [e][1..] == [];
  }

  /** The wait for the workers was given up. */
  predicate GaveUp(pc: CallerPc) {
    match pc
    case LoadTotal(drained) => !drained
    case LoadSuccess(drained, _) => !drained
    case Deleting(drained, _, _) => !drained
    case CallReturned(r) => r.Verdict? && !r.drained
    case _ => false
  }

  /** No call gives up waiting between `s` and `t`. */
  predicate Patient(s: State, t: State) {
    |t.ctl.callers| == |s.ctl.callers| &&
    forall k :: 0 <= k < |s.ctl.callers| && GaveUp(t.ctl.callers[k].pc) ==> GaveUp(s.ctl.callers[k].pc)
  }

  /** A stretch of the run that brings the end nearer and keeps the stop request. */
  ghost predicate Advances(s: State, es: seq<Event>, t: State) {
    && Executes(s, es, t) && NoInvoke(es) && SafeInv(t) && Measure(t) < Measure(s)
    && StopPending(t) && Patient(s, t)
  }

  lemma CallIsPatient(s: State, k: nat, drained: bool)
    requires Enabled(s, Call(k, drained)) && (s.ctl.callers[k].pc.WaitWorkers? ==> drained)
    ensures Patient(s, Next(s, Call(k, drained)))
  {
    var t := Next(s, Call(k, drained));
    assert GaveUp(CallPc(s, k, drained)) ==> GaveUp(s.ctl.callers[k].pc);
    assert forall j :: 0 <= j < |s.ctl.callers| && j != k ==> t.ctl.callers[j] == s.ctl.callers[j];
  }

  lemma CallKeepsPending(s: State, k: nat, drained: bool)
    requires StopPending(s) && Enabled(s, Call(k, drained))
    ensures StopPending(Next(s, Call(k, drained)))
  {
    var n :| 0 <= n < |s.ctl.callers| && s.ctl.callers[n].kind.StopCall?;
    assert Next(s, Call(k, drained)).ctl.callers[n].kind.StopCall?;
  }

  lemma CallAdvances(s: State, k: nat, drained: bool)
    requires SafeInv(s) && StopPending(s) && Enabled(s, Call(k, drained))
    requires s.ctl.callers[k].pc.WaitWorkers? ==> drained
    ensures Advances(s, [Call(k, drained)], Next(s, Call(k, drained)))
  {
    OneStep(s, Call(k, drained));
    CallMeasure(s, k, drained);
    CallKeepsPending(s, k, drained);
    CallIsPatient(s, k, drained);
  }

  lemma TickerAdvances(s: State, a: TickerAction)
    requires SafeInv(s) && StopPending(s) && s.ctl.stopClosed && Enabled(s, Ticker(a))
    ensures Advances(s, [Ticker(a)], Next(s, Ticker(a)))
  {
    var n :| 0 <= n < |s.ctl.callers| && s.ctl.callers[n].kind.StopCall?;
    OneStep(s, Ticker(a));
    StepMeasure(s, Ticker(a));
    assert Next(s, Ticker(a)).ctl.callers[n].kind.StopCall?;
  }

  /** The pending call that is next in line: the one inside a once if there is one. */
  lemma CallProgress(s: State, k: nat) returns (es: seq<Event>, t: State)
    requires SafeInv(s) && StopPending(s) && k < |s.ctl.callers| && !s.ctl.callers[k].pc.CallReturned?
    requires !s.ctl.callers[k].pc.WaitWorkers?
    requires s.ctl.stopOnce.Running? ==> s.ctl.stopOnce.owner == k
    requires s.ctl.jobsOnce.Running? && !s.ctl.stopOnce.Running? ==> s.ctl.jobsOnce.owner == k
    ensures Advances(s, es, t)
  {
    assert Control.CallerInv(s.ctl, s.ctl.callers[k]);
    assert Control.InStopOnce(s.ctl.callers[k].pc) <==> s.ctl.stopOnce == Running(k);
    assert Control.InJobsOnce(s.ctl.callers[k].pc) <==> s.ctl.jobsOnce == Running(k);
    if s.ctl.callers[k].pc.WaitTicker? && !Control.TickerGone(s.ctl) {
      var a := if s.ctl.ticker.Leaving? then SignalDone else SeeStop;
      TickerAdvances(s, a);
      es, t := [Ticker(a)], Next(s, Ticker(a));
    } else {
      CallAdvances(s, k, false);
      es, t := [Call(k, false)], Next(s, Call(k, false));
    }
  }

  /** With no call left but those waiting for the workers, the jobs channel is closed. */
  lemma JobsClosedByNow(s: State)
    requires SafeInv(s) && StopPending(s)
    requires forall k :: 0 <= k < |s.ctl.callers| ==> s.ctl.callers[k].pc.CallReturned? || s.ctl.callers[k].pc.WaitWorkers?
    ensures s.jobsClosed && (s.ctl.ticker.NotStarted? || s.ctl.ticker.TickerExited?)
  {
  }

  lemma WaitThenWork(s: State, i: nat, c: Choice)
    requires Enabled(s, Clock(REDIAL_MIN_INTERVAL)) && Enabled(Next(s, Clock(REDIAL_MIN_INTERVAL)), Work(i, c))
    ensures Executes(s, [Clock(REDIAL_MIN_INTERVAL), Work(i, c)], Next(Next(s, Clock(REDIAL_MIN_INTERVAL)), Work(i, c)))
  {
  }

  lemma WorkerReady(s: State, i: nat)
    requires SafeInv(s) && s.jobsClosed && i < |s.pool.workers| && !s.pool.workers[i].pc.Exited?
    ensures Enabled(Next(s, Clock(REDIAL_MIN_INTERVAL)), Work(i, Choice(false, false)))
  {
  }

  /** A worker that is not done can always take a step, if need be after the redial interval. */
  lemma WorkerProgress(s: State, i: nat) returns (es: seq<Event>, t: State)
    requires SafeInv(s) && StopPending(s) && s.jobsClosed
    requires i < |s.pool.workers| && !s.pool.workers[i].pc.Exited?
    ensures Advances(s, es, t)
  {
    var tick, c := Clock(REDIAL_MIN_INTERVAL), Choice(false, false);
    var m := Next(s, tick);
    WorkerReady(s, i);
    SafeStep(s, tick);
    SafeStep(m, Work(i, c));
    WorkMeasure(m, i, c);
    WaitThenWork(s, i, c);
    es, t := [tick, Work(i, c)], Next(m, Work(i, c));
  }

  lemma Progress(s: State) returns (es: seq<Event>, t: State)
    requires SafeInv(s) && StopPending(s) && !Stopped(s)
    ensures Advances(s, es, t)
  {
    var cs := s.ctl.callers;
    if s.ctl.stopOnce.Running? {
      es, t := CallProgress(s, s.ctl.stopOnce.owner);
    } else if s.ctl.jobsOnce.Running? {
      es, t := CallProgress(s, s.ctl.jobsOnce.owner);
    } else if k :| 0 <= k < |cs| && !cs[k].pc.CallReturned? && !cs[k].pc.WaitWorkers? {
      es, t := CallProgress(s, k);
    } else {
      JobsClosedByNow(s);
      if i :| 0 <= i < |s.pool.workers| && !s.pool.workers[i].pc.Exited? {
        es, t := WorkerProgress(s, i);
      } else {
        var k :| 0 <= k < |cs| && !cs[k].pc.CallReturned?;
        CallAdvances(s, k, true);
        es, t := [Call(k, true)], Next(s, Call(k, true));
      }
    }
  }

  lemma {:induction false} FinishFrom(s: State) returns (es: seq<Event>, t: State)
    requires SafeInv(s) && StopPending(s)
    ensures Executes(s, es, t) && NoInvoke(es) && Stopped(t) && Patient(s, t)
    decreases Measure(s)
  {
    if Stopped(s) {
      es, t := [], s;
    } else {
      var fs, m := Progress(s);
      var gs, u := FinishFrom(m);
      ExecutesConcat(s, fs, m, gs, u);
      es, t := fs + gs, u;
    }
  }

  /**
    From every reachable state in which a stop was requested - a full jobs buffer, no live worker,
    workers waiting for a confirm, other calls inside a once - the engine can run to the point
    where every call has returned, the ticker is gone and every worker is done; and no stop needs to
    give up waiting for the workers on the way, so one that has not already does not report less
    than the final counters.
   */
  lemma StopNeverStuck(s: State)
    requires Reachable(s) && StopPending(s)
    ensures exists es, t :: Executes(s, es, t) && NoInvoke(es) && Stopped(t) && Patient(s, t)
  {
    NoPanic(s);
    var es, t := FinishFrom(s);
  }
}
