/**
  Shutdown of a publish run: under every interleaving of start, ticker, workers, Status and
  stop calls nothing is sent on the closed jobs channel and no channel is closed twice.
 */
module EngineControl {
  import opened Wrappers
  import opened Engine

  predicate InStopOnce(pc: CallerPc) { pc.StopTimer? || pc.CloseStop? || pc.LeaveStop? }

  predicate InJobsOnce(pc: CallerPc) { pc.CloseJobs? || pc.LeaveJobs? }

  /** Past the wait for the ticker goroutine. */
  predicate PastTicker(pc: CallerPc) {
    pc.EnterJobs? || pc.CloseJobs? || pc.LeaveJobs? || PastJobs(pc)
  }

  /** Past the close of the jobs channel. */
  predicate PastJobs(pc: CallerPc) {
    pc.WaitWorkers? || pc.LoadTotal? || pc.LoadSuccess? || pc.Deleting? || (pc.CallReturned? && pc.result.Verdict?)
  }

  /** No ticker goroutine runs, and none will be started once a call is under way. */
  predicate TickerGone(c: Control) { c.start.NotCalled? || c.tickerDoneClosed }

  /** Each once is held by exactly the call that is inside it. */
  ghost predicate OnceHolder(c: Control) {
    forall k :: 0 <= k < |c.callers| ==>
      (InStopOnce(c.callers[k].pc) <==> c.stopOnce == Running(k)) &&
      (InJobsOnce(c.callers[k].pc) <==> c.jobsOnce == Running(k))
  }

  /** What has been closed is what the holders of the onces have done so far. */
  ghost predicate OnceFlags(c: Control, jobsClosed: bool) {
    && (c.stopOnce.Running? ==> c.stopOnce.owner < |c.callers|)
    && (c.jobsOnce.Running? ==> c.jobsOnce.owner < |c.callers|)
    && (c.stopClosed <==> c.stopOnce.Done? || (c.stopOnce.Running? && c.callers[c.stopOnce.owner].pc.LeaveStop?))
    && (jobsClosed <==> c.jobsOnce.Done? || (c.jobsOnce.Running? && c.callers[c.jobsOnce.owner].pc.LeaveJobs?))
    && (c.stopClosed || (c.stopOnce.Running? && c.callers[c.stopOnce.owner].pc.CloseStop?) ==> !c.timerLive)
    && (c.callers == [] ==> c.stopOnce.Unused? && c.jobsOnce.Unused?)
  }

  ghost predicate TickerInv(c: Control, sent: nat) {
    && c.start != StartReturnedEarly
    && (c.start.FirstSend? || c.start.Spawning? ==> c.callers == [])
    && (c.ticker.NotStarted? <==> !c.start.StartReturned?)
    && (c.start.NotCalled? || c.start.FirstSend? ==> sent == 0)
    && (c.tickerDoneClosed <==> c.ticker.TickerExited?)
    && (c.ticker.Leaving? || c.ticker.TickerExited? ==> c.stopClosed)
    && (!c.jobsOnce.Unused? ==> TickerGone(c))
    && (!c.inMap ==> c.jobsOnce.Done?)
  }

  ghost predicate CallerInv(c: Control, call: Caller) {
    && (call.kind.StatusCall? ==> !call.pc.WaitTicker? && !PastTicker(call.pc) && c.start.StartReturned?)
    && (call.pc.WaitTicker? || PastTicker(call.pc) ==> c.stopOnce.Done?)
    && (PastTicker(call.pc) ==> TickerGone(c))
    && (PastJobs(call.pc) ==> c.jobsOnce.Done?)
    && (call.kind.StopCall? && call.pc.CallReturned? ==> c.jobsOnce.Done?)
    && (call.kind.StopCall? ==> !call.pc.CheckingEnd?)
  }

  ghost predicate CallersInv(c: Control) {
    forall k :: 0 <= k < |c.callers| ==> CallerInv(c, c.callers[k])
  }

  ghost predicate Inv(s: State) {
    && s.cfg.maxConcurrent >= 1
    && (s.fault.None? || s.fault == Some(NilChannel))
    && OnceHolder(s.ctl)
    && OnceFlags(s.ctl, s.jobsClosed)
    && TickerInv(s.ctl, s.sent)
    && CallersInv(s.ctl)
    && s.sent <= s.received + s.cfg.maxConcurrent
  }

  /** A caller's own facts survive any change that keeps these monotone parts. */
  lemma CallersFrame(c: Control, d: Control)
    requires CallersInv(c) && d.callers == c.callers
    requires d.start == c.start || c.callers == []
    requires c.stopOnce.Done? ==> d.stopOnce.Done?
    requires c.jobsOnce.Done? ==> d.jobsOnce.Done?
    requires TickerGone(c) ==> TickerGone(d) || c.callers == []
    ensures CallersInv(d)
  {
  }

  lemma CallKeepsHolder(s: State, k: nat, drained: bool)
    requires OnceHolder(s.ctl) && Enabled(s, Call(k, drained))
    ensures OnceHolder(Next(s, Call(k, drained)).ctl)
  {
    var c, d := s.ctl, Next(s, Call(k, drained)).ctl;
    var pc := c.callers[k].pc;
    assert InStopOnce(pc) <==> c.stopOnce == Running(k);
    assert InJobsOnce(pc) <==> c.jobsOnce == Running(k);
    forall j | 0 <= j < |d.callers|
      ensures InStopOnce(d.callers[j].pc) <==> d.stopOnce == Running(j)
      ensures InJobsOnce(d.callers[j].pc) <==> d.jobsOnce == Running(j)
    {
      if j != k {
        assert InStopOnce(c.callers[j].pc) <==> c.stopOnce == Running(j);
        assert d.callers[j] == c.callers[j];
      }
    }
  }

  lemma CallKeepsFlags(s: State, k: nat, drained: bool)
    requires Inv(s) && Enabled(s, Call(k, drained))
    ensures OnceFlags(Next(s, Call(k, drained)).ctl, Next(s, Call(k, drained)).jobsClosed)
    ensures Next(s, Call(k, drained)).fault.None?
  {
  }

  lemma CallMonotone(s: State, k: nat, drained: bool)
    requires Enabled(s, Call(k, drained))
    ensures var c, d := s.ctl, Next(s, Call(k, drained)).ctl;
            d.start == c.start && (c.stopOnce.Done? ==> d.stopOnce.Done?) &&
            (c.jobsOnce.Done? ==> d.jobsOnce.Done?) && d.tickerDoneClosed == c.tickerDoneClosed
  {
  }

  lemma CallerKeepsItself(s: State, k: nat, drained: bool)
    requires Inv(s) && Enabled(s, Call(k, drained))
    ensures CallerInv(Next(s, Call(k, drained)).ctl, Next(s, Call(k, drained)).ctl.callers[k])
  {
    assert CallerInv(s.ctl, s.ctl.callers[k]);
  }

  lemma CallStepInv(s: State, k: nat, drained: bool)
    requires Inv(s) && Enabled(s, Call(k, drained))
    ensures Inv(Next(s, Call(k, drained)))
  {
    var t := Next(s, Call(k, drained));
    CallKeepsHolder(s, k, drained);
    CallKeepsFlags(s, k, drained);
    CallMonotone(s, k, drained);
    CallerKeepsItself(s, k, drained);
    forall j | 0 <= j < |t.ctl.callers| ensures CallerInv(t.ctl, t.ctl.callers[j]) {
      if j != k {
        assert t.ctl.callers[j] == s.ctl.callers[j];
        assert CallerInv(s.ctl, s.ctl.callers[j]);
      }
    }
    assert CallerInv(s.ctl, s.ctl.callers[k]);
  }

  lemma InvokeStepInv(s: State, kind: CallKind)
    requires Inv(s) && Enabled(s, Invoke(kind))
    ensures Inv(Next(s, Invoke(kind)))
  {
    var t := Next(s, Invoke(kind));
    forall j | 0 <= j < |t.ctl.callers| ensures CallerInv(t.ctl, t.ctl.callers[j]) {
      if j < |s.ctl.callers| { assert CallerInv(s.ctl, s.ctl.callers[j]); }
    }
  }

  /** A worker's step leaves the control part alone and only makes room in the buffer. */
  lemma WorkKeepsControl(s: State, i: nat, c: Choice)
    requires Enabled(s, Work(i, c))
    ensures var t := Next(s, Work(i, c));
            t.cfg == s.cfg && t.ctl == s.ctl && t.jobsClosed == s.jobsClosed && t.sent == s.sent &&
            t.received >= s.received && (t.fault == s.fault || t.fault == Some(NilChannel))
  {
  }

  lemma StepInv(s: State, e: Event)
    requires Inv(s) && Enabled(s, e)
    ensures Inv(Next(s, e))
  {
    var t := Next(s, e);
    match e
    case Call(k, drained) => CallStepInv(s, k, drained);
    case Invoke(kind) => InvokeStepInv(s, kind);
    case Work(i, c) => WorkKeepsControl(s, i, c);
    case Start(_) => CallersFrame(s.ctl, t.ctl);
    case Ticker(_) => CallersFrame(s.ctl, t.ctl);
    case _ =>
  }

  lemma {:induction false} RunInv(s: State, es: seq<Event>, t: State)
    requires Inv(s) && Executes(s, es, t)
    ensures Inv(t)
    decreases |es|
  {
    if es != [] {
      StepInv(s, es[0]);
      RunInv(Next(s, es[0]), es[1..], t);
    }
  }

  lemma ReachableInv(s: State)
    requires Reachable(s)
    ensures Inv(s)
  {
    var es :| Executes(Init(s.cfg), es, s);
    RunInv(Init(s.cfg), es, s);
  }

  /**
    Nothing is sent on the closed jobs channel and jobs, stopTicker and tickerDone are each
    closed at most once, whatever the interleaving. Start never takes its early return, so
    tickerDone is always closed in the end, and Start's first send never has to wait.
   */
  lemma ShutdownIsSafe(s: State)
    requires Reachable(s)
    ensures s.fault.None? || s.fault == Some(NilChannel)
    ensures s.ctl.start != StartReturnedEarly
    ensures s.ctl.start.FirstSend? ==> !JobsFull(s) && !s.jobsClosed
    ensures s.jobsClosed ==> s.ctl.ticker.NotStarted? || s.ctl.ticker.TickerExited?
    ensures s.sent <= s.received + s.cfg.maxConcurrent
  {
    ReachableInv(s);
  }

  /**
    A tick the ticker holds is enqueued without delay as long as fewer than maxConcurrent jobs are
    buffered, and has to wait exactly while that many are; the stop reaches the ticker in both cases.
   */
  lemma TickWaitsOnlyForRoom(s: State)
    requires Reachable(s) && s.fault.None? && s.ctl.ticker.Holding?
    ensures Enabled(s, Ticker(Send)) <==> s.sent < s.received + s.cfg.maxConcurrent
    ensures Enabled(s, Ticker(Send)) ==> Next(s, Ticker(Send)).sent == s.sent + 1 && Next(s, Ticker(Send)).fault.None?
    ensures s.ctl.stopClosed ==> Enabled(s, Ticker(SeeStop))
  {
    ReachableInv(s);
  }

  /** Jobs that can still be enqueued once the ticker is stopped: the tick already taken, if any. */
  function HeldTick(s: State): nat { if s.ctl.ticker.Holding? then 1 else 0 }

  lemma StoppedStep(s: State, e: Event)
    requires Inv(s) && s.ctl.stopClosed && Enabled(s, e)
    ensures Next(s, e).ctl.stopClosed
    ensures Next(s, e).sent + HeldTick(Next(s, e)) <= s.sent + HeldTick(s)
  {
  }

  lemma {:induction false} StoppedRun(s: State, es: seq<Event>, t: State)
    requires Inv(s) && s.ctl.stopClosed && Executes(s, es, t)
    ensures t.sent + HeldTick(t) <= s.sent + HeldTick(s)
    decreases |es|
  {
    if es != [] {
      StoppedStep(s, es[0]);
      StepInv(s, es[0]);
      StoppedRun(Next(s, es[0]), es[1..], t);
    }
  }

  /** After the ticker is stopped at most one further job is ever enqueued: the tick already held. */
  lemma AtMostOneMoreJob(s: State, es: seq<Event>, t: State)
    requires Reachable(s) && s.ctl.stopClosed && Executes(s, es, t)
    ensures t.sent <= s.sent + HeldTick(s) <= s.sent + 1
  {
    ReachableInv(s);
    StoppedRun(s, es, t);
  }
}
