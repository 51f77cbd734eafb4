/**
  A stop that gives up waiting while a worker is between publishing and counting: it reads the
  attempts before that worker counts and the successes after, and reports a rate of 200 percent.
 */
module EngineTimeout {
  import opened Wrappers
  import opened Engine

  const CFG := Config(1, None, 100)

  const GO := Choice(true, false)

  /** What all stages of the run have in common. */
  predicate Counted(s: State, pc: WorkerPc, requests: nat, successes: nat) {
    && s.cfg == CFG && s.fault.None? && |s.pool.channels| == 1
    && s.pool.workers == [Worker(pc, Some(0), None, None, [])]
    && s.pool.requests == requests && s.pool.successes == successes
  }

  const RUNNING := Control(StartReturned, Outer, true, false, false, Unused, Unused, true, [])

  lemma Started() returns (es: seq<Event>, s: State)
    ensures Executes(Init(CFG), es, s)
    ensures s == Init(CFG).(sent := 1, ctl := RUNNING)
  {
    es, s := [], Init(CFG);
    es, s := Extend(Init(CFG), es, s, Start(Begin));
    es, s := Extend(Init(CFG), es, s, Start(SendFirst));
    es, s := Extend(Init(CFG), es, s, Start(Spawn));
  }

  lemma FirstJobPublished() returns (es: seq<Event>, s: State)
    ensures Executes(Init(CFG), es, s) && Counted(s, Counting(0, true), 0, 0)
    ensures s.sent == 1 && s.received == 1 && !s.jobsClosed && s.ctl == RUNNING
  {
    es, s := Started();
    es, s := Extend(Init(CFG), es, s, Work(0, GO));
    assert s.pool.workers == [Worker(Receiving, Some(0), None, None, [])];
    es, s := Extend(Init(CFG), es, s, Work(0, GO));
    es, s := Extend(Init(CFG), es, s, Work(0, GO));
    assert s.pool.workers == [Worker(Publishing(0), Some(0), None, None, [])];
    es, s := Extend(Init(CFG), es, s, Work(0, GO));
  }

  lemma FirstJobDone() returns (es: seq<Event>, s: State)
    ensures Executes(Init(CFG), es, s) && Counted(s, Receiving, 1, 1)
    ensures s.sent == 1 && s.received == 1 && !s.jobsClosed && s.ctl == RUNNING
  {
    es, s := FirstJobPublished();
    es, s := Extend(Init(CFG), es, s, Work(0, GO));
    assert Counted(s, Crediting(0, None), 1, 0);
    es, s := Extend(Init(CFG), es, s, Work(0, GO));
  }

  lemma SecondJobTaken() returns (es: seq<Event>, s: State)
    ensures Executes(Init(CFG), es, s) && Counted(s, Publishing(1), 1, 1)
    ensures s.sent == 2 && s.received == 2 && !s.jobsClosed && s.ctl == RUNNING
  {
    es, s := FirstJobDone();
    es, s := Extend(Init(CFG), es, s, Ticker(Tick));
    es, s := Extend(Init(CFG), es, s, Ticker(Send));
    es, s := Extend(Init(CFG), es, s, Work(0, GO));
    assert Counted(s, Checking(1), 1, 1);
    es, s := Extend(Init(CFG), es, s, Work(0, GO));
  }

  lemma SecondJobPublished() returns (es: seq<Event>, s: State)
    ensures Executes(Init(CFG), es, s) && Counted(s, Counting(1, true), 1, 1)
    ensures s.sent == 2 && s.received == 2 && !s.jobsClosed && s.ctl == RUNNING
  {
    es, s := SecondJobTaken();
    es, s := Extend(Init(CFG), es, s, Work(0, GO));
  }

  lemma TimerStopped() returns (es: seq<Event>, s: State)
    ensures Executes(Init(CFG), es, s) && Counted(s, Counting(1, true), 1, 1) && !s.jobsClosed
    ensures s.ctl == RUNNING.(timerLive := false, stopOnce := Running(0), callers := [Caller(StopCall, CloseStop)])
  {
    es, s := SecondJobPublished();
    es, s := Extend(Init(CFG), es, s, Invoke(StopCall));
    es, s := Extend(Init(CFG), es, s, Call(0, false));
    es, s := Extend(Init(CFG), es, s, Call(0, false));
    es, s := Extend(Init(CFG), es, s, Call(0, false));
  }

  /** The stop has stopped the ticker, whose goroutine is gone. */
  lemma TickerGone() returns (es: seq<Event>, s: State)
    ensures Executes(Init(CFG), es, s) && Counted(s, Counting(1, true), 1, 1) && !s.jobsClosed
    ensures s.ctl.tickerDoneClosed && s.ctl.jobsOnce.Unused? && s.ctl.callers == [Caller(StopCall, WaitTicker)]
  {
    es, s := TimerStopped();
    es, s := Extend(Init(CFG), es, s, Call(0, false));
    es, s := Extend(Init(CFG), es, s, Call(0, false));
    es, s := Extend(Init(CFG), es, s, Ticker(SeeStop));
    es, s := Extend(Init(CFG), es, s, Ticker(SignalDone));
  }

  /** It has closed the jobs channel and waits for the workers. */
  lemma JobsClosed() returns (es: seq<Event>, s: State)
    ensures Executes(Init(CFG), es, s) && Counted(s, Counting(1, true), 1, 1)
    ensures s.ctl.callers == [Caller(StopCall, WaitWorkers)]
  {
    es, s := TickerGone();
    es, s := Extend(Init(CFG), es, s, Call(0, false));
    es, s := Extend(Init(CFG), es, s, Call(0, false));
    assert s.ctl.callers == [Caller(StopCall, CloseJobs)];
    es, s := Extend(Init(CFG), es, s, Call(0, false));
    es, s := Extend(Init(CFG), es, s, Call(0, false));
  }

  /** The wait times out and the total is read. */
  lemma TotalRead() returns (es: seq<Event>, s: State)
    ensures Executes(Init(CFG), es, s) && Counted(s, Counting(1, true), 1, 1)
    ensures s.ctl.callers == [Caller(StopCall, LoadSuccess(false, 1))]
  {
    es, s := JobsClosed();
    es, s := Extend(Init(CFG), es, s, Call(0, false));
    es, s := Extend(Init(CFG), es, s, Call(0, false));
  }

  /** Only now does the worker count its attempt and credit it. */
  lemma WorkerCaughtUp() returns (es: seq<Event>, s: State)
    ensures Executes(Init(CFG), es, s) && Counted(s, Receiving, 2, 2)
    ensures s.ctl.callers == [Caller(StopCall, LoadSuccess(false, 1))]
  {
    es, s := TotalRead();
    es, s := Extend(Init(CFG), es, s, Work(0, GO));
    assert Counted(s, Crediting(1, None), 2, 1);
    es, s := Extend(Init(CFG), es, s, Work(0, GO));
  }

  lemma SuccessesRead() returns (es: seq<Event>, s: State)
    ensures Executes(Init(CFG), es, s) && s.cfg == CFG && s.fault.None?
    ensures |s.ctl.callers| == 1 && s.ctl.callers[0].pc.Deleting?
    ensures var pc := s.ctl.callers[0].pc; !pc.drained && pc.total == 1 && pc.good == 2
  {
    es, s := WorkerCaughtUp();
    es, s := Extend(Init(CFG), es, s, Call(0, false));
  }

  /** A reachable state in which a stop has reported two successes out of one attempt. */
  lemma RateAboveHundredPercent()
    ensures exists s ::
              Reachable(s) && s.cfg == CFG && |s.ctl.callers| == 1 && s.ctl.callers[0].pc.CallReturned? &&
              var r := s.ctl.callers[0].pc.result; r.Verdict? && !r.drained && r.total == 1 && r.good == 2
  {
    var es, s := SuccessesRead();
    es, s := Extend(Init(CFG), es, s, Call(0, false));
    assert Reachable(s);
  }
}
