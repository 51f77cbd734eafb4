/**
  The verdict of a stop, over all interleavings of stops with the workers they wait for, and the
  completion a Status call reports.
 */
module EngineVerdict {
  import opened Wrappers
  import opened Engine
  import opened EngineCounts
  import SuccessRate

  // ---------- the verdict ----------

  /**
    What a call has read so far: a value each counter has had, and after a drained wait the final
    ones. The total is read before the successes, so only a drained call is sure to find no more
    successes than attempts.
   */
  ghost predicate ReadInv(s: State, pc: CallerPc) {
    var p := s.pool;
    match pc
    case LoadTotal(drained) => drained ==> AllExited(p.workers)
    case LoadSuccess(drained, total) =>
      0 < total <= p.requests && (drained ==> AllExited(p.workers) && total == p.requests)
    case Deleting(drained, total, good) =>
      total <= p.requests && good <= p.successes &&
      (drained ==> AllExited(p.workers) && total == p.requests && good == p.successes)
    case CallReturned(r) =>
      r.Verdict? ==>
        r.total <= p.requests && r.good <= p.successes &&
        r.failed == SuccessRate.BelowRate(s.cfg.successRate, r.total, r.good) &&
        (r.drained ==> AllExited(p.workers) && r.total == p.requests && r.good == p.successes)
    case _ => true
  }

  ghost predicate ReadsInv(s: State) {
    forall k :: 0 <= k < |s.ctl.callers| ==> ReadInv(s, s.ctl.callers[k].pc)
  }

  lemma CountersGrow(s: State, i: nat, c: Choice)
    requires Enabled(s, Work(i, c))
    ensures s.pool.requests <= Next(s, Work(i, c)).pool.requests
    ensures s.pool.successes <= Next(s, Work(i, c)).pool.successes
  {
  }

  lemma CallPcReads(s: State, k: nat, drained: bool)
    requires ReadsInv(s) && s.pool.successes <= s.pool.requests && k < |s.ctl.callers| && CallEnabled(s, k, drained)
    ensures ReadInv(s, CallPc(s, k, drained))
  {
    assert ReadInv(s, s.ctl.callers[k].pc);
  }

  lemma CallReads(s: State, k: nat, drained: bool)
    requires ReadsInv(s) && s.pool.successes <= s.pool.requests && Enabled(s, Call(k, drained))
    ensures ReadsInv(Next(s, Call(k, drained)))
  {
    var t := Next(s, Call(k, drained));
    CallPcReads(s, k, drained);
    forall j | 0 <= j < |t.ctl.callers| ensures ReadInv(t, t.ctl.callers[j].pc) {
      assert ReadInv(s, s.ctl.callers[j].pc);
      assert j != k ==> t.ctl.callers[j] == s.ctl.callers[j];
    }
  }

  /** What a call has read stays true while workers count on; once they have all finished none can. */
  lemma ReadsKept(s: State, t: State, pc: CallerPc)
    requires ReadInv(s, pc) && t.cfg == s.cfg
    requires s.pool.requests <= t.pool.requests && s.pool.successes <= t.pool.successes
    requires AllExited(s.pool.workers) ==>
               t.pool.workers == s.pool.workers && t.pool.requests == s.pool.requests && t.pool.successes == s.pool.successes
    ensures ReadInv(t, pc)
  {
  }

  lemma StepReads(s: State, e: Event)
    requires ReadsInv(s) && s.pool.successes <= s.pool.requests && Enabled(s, e)
    ensures ReadsInv(Next(s, e))
  {
    if e.Call? {
      CallReads(s, e.caller, e.drained);
    } else {
      var t := Next(s, e);
      assert e.Work? ==> !AllExited(s.pool.workers);
      if e.Work? { CountersGrow(s, e.worker, e.choice); }
      forall k | 0 <= k < |t.ctl.callers| ensures ReadInv(t, t.ctl.callers[k].pc) {
        if k < |s.ctl.callers| { ReadsKept(s, t, s.ctl.callers[k].pc); }
      }
    }
  }

  lemma {:induction false} RunReads(s: State, es: seq<Event>, t: State)
    requires ReadsInv(s) && Inv(s) && Executes(s, es, t)
    ensures ReadsInv(t)
    decreases |es|
  {
    if es != [] {
      StepReads(s, es[0]);
      StepInv(s, es[0]);
      RunReads(Next(s, es[0]), es[1..], t);
    }
  }

  lemma ReachableReads(s: State)
    requires Reachable(s)
    ensures ReadsInv(s)
  {
    InitInv(s.cfg);
    var es :| Executes(Init(s.cfg), es, s);
    RunReads(Init(s.cfg), es, s);
  }

  /**
    A stop that saw all workers finish judges the final counters, which stay as they are from then
    on: there are no more successes than attempts, and it fails exactly if the successes are below
    the required percentage of the attempts, a run without attempts counting as 0 percent, or at
    29, 57 or 58 percent if they are exactly at it.
   */
  lemma DrainedVerdict(s: State, k: nat)
    requires Reachable(s) && k < |s.ctl.callers|
    requires s.ctl.callers[k].pc.CallReturned? && s.ctl.callers[k].pc.result.Verdict?
    requires s.ctl.callers[k].pc.result.drained
    ensures AllExited(s.pool.workers)
    ensures var p, r, required := s.pool, s.ctl.callers[k].pc.result, s.cfg.successRate;
            && r.total == p.requests == |p.log| && r.good == p.successes == Successes(p.log) && r.good <= r.total
            && (p.requests < SuccessRate.MANY ==>
                  (r.failed <==> SuccessRate.FailsInWholeNumbers(required, p.requests, p.successes)))
  {
    ReachableReads(s);
    ReachableInv(s);
    assert ReadInv(s, s.ctl.callers[k].pc);
    SumZero(s.pool.workers, Unresolved);
    if s.pool.requests < SuccessRate.MANY {
      SuccessRate.VerdictIff(s.cfg.successRate, s.pool.requests, s.pool.successes);
    }
  }

  /** Concurrent stops that both saw the workers finish report the same verdict. */
  lemma DrainedVerdictsAgree(s: State, j: nat, k: nat)
    requires Reachable(s) && j < |s.ctl.callers| && k < |s.ctl.callers|
    requires s.ctl.callers[j].pc.CallReturned? && s.ctl.callers[j].pc.result.Verdict? && s.ctl.callers[j].pc.result.drained
    requires s.ctl.callers[k].pc.CallReturned? && s.ctl.callers[k].pc.result.Verdict? && s.ctl.callers[k].pc.result.drained
    ensures s.ctl.callers[j].pc.result == s.ctl.callers[k].pc.result
  {
    ReachableReads(s);
    assert ReadInv(s, s.ctl.callers[j].pc) && ReadInv(s, s.ctl.callers[k].pc);
  }

  // ---------- what an undrained stop has read ----------

  /** After the first `a` events of the run the counters were these. */
  ghost predicate CountersAt(cfg: Config, es: seq<Event>, a: nat, requests: nat, successes: nat) {
    a <= |es| && exists m ::
      Executes(Init(cfg), es[..a], m) && m.pool.requests == requests && m.pool.successes == successes
  }

  /** The total was the attempt counter at one moment of the run and the good ones the success counter later on. */
  ghost predicate ReadInOrder(cfg: Config, es: seq<Event>, total: nat, good: nat) {
    exists a: nat, b: nat, early: nat, late: nat ::
      a <= b && CountersAt(cfg, es, a, total, early) && CountersAt(cfg, es, b, late, good)
  }

  ghost predicate ReadHistory(cfg: Config, es: seq<Event>, pc: CallerPc) {
    match pc
    case LoadSuccess(_, total) => exists a: nat, early: nat :: CountersAt(cfg, es, a, total, early)
    case Deleting(_, total, good) => ReadInOrder(cfg, es, total, good)
    case CallReturned(r) => r.Verdict? ==> ReadInOrder(cfg, es, r.total, r.good)
    case _ => true
  }

  lemma CountersStay(cfg: Config, es: seq<Event>, e: Event, a: nat, requests: nat, successes: nat)
    requires CountersAt(cfg, es, a, requests, successes)
    ensures CountersAt(cfg, es + [e], a, requests, successes)
  {
    assert (es + [e])[..a] == es[..a];
  }

  lemma HistoryStays(cfg: Config, es: seq<Event>, e: Event, pc: CallerPc)
    requires ReadHistory(cfg, es, pc)
    ensures ReadHistory(cfg, es + [e], pc)
  {
    forall a: nat, r: nat, g: nat | CountersAt(cfg, es, a, r, g) ensures CountersAt(cfg, es + [e], a, r, g) {
      CountersStay(cfg, es, e, a, r, g);
    }
    match pc
    case LoadSuccess(_, total) =>
      var a: nat, early: nat :| CountersAt(cfg, es, a, total, early);
      assert CountersAt(cfg, es + [e], a, total, early);
    case Deleting(_, total, good) => OrderStays(cfg, es, e, total, good);
    case CallReturned(r) => if r.Verdict? { OrderStays(cfg, es, e, r.total, r.good); }
    case _ =>
  }

  lemma OrderStays(cfg: Config, es: seq<Event>, e: Event, total: nat, good: nat)
    requires ReadInOrder(cfg, es, total, good)
    ensures ReadInOrder(cfg, es + [e], total, good)
  {
    var a: nat, b: nat, early: nat, late: nat :|
      a <= b && CountersAt(cfg, es, a, total, early) && CountersAt(cfg, es, b, late, good);
    CountersStay(cfg, es, e, a, total, early);
    CountersStay(cfg, es, e, b, late, good);
  }

  /** A call reads the counters as they are now. */
  lemma CallHistory(cfg: Config, es: seq<Event>, s: State, k: nat, drained: bool)
    requires Executes(Init(cfg), es, s) && Inv(s) && Enabled(s, Call(k, drained))
    requires ReadHistory(cfg, es, s.ctl.callers[k].pc)
    ensures ReadHistory(cfg, es, CallPc(s, k, drained))
  {
    assert es[..|es|] == es;
    assert CountersAt(cfg, es, |es|, s.pool.requests, s.pool.successes);
    match s.ctl.callers[k].pc
    case LoadTotal(_) =>
      if s.pool.requests == 0 { assert ReadInOrder(cfg, es, 0, 0); }
    case LoadSuccess(_, total) =>
      var a: nat, early: nat :| CountersAt(cfg, es, a, total, early);
      assert ReadInOrder(cfg, es, total, s.pool.successes);
    case _ =>
  }

  ghost predicate HistoriesInv(cfg: Config, es: seq<Event>, s: State) {
    forall k :: 0 <= k < |s.ctl.callers| ==> ReadHistory(cfg, es, s.ctl.callers[k].pc)
  }

  lemma StepHistory(cfg: Config, es: seq<Event>, s: State, e: Event)
    requires Executes(Init(cfg), es, s) && Inv(s) && Enabled(s, e) && HistoriesInv(cfg, es, s)
    ensures HistoriesInv(cfg, es + [e], Next(s, e))
  {
    var t := Next(s, e);
    forall k | 0 <= k < |t.ctl.callers| ensures ReadHistory(cfg, es + [e], t.ctl.callers[k].pc) {
      if e.Call? && e.caller == k {
        CallHistory(cfg, es, s, k, e.drained);
        HistoryStays(cfg, es, e, s.ctl.callers[k].pc);
        HistoryStays(cfg, es, e, CallPc(s, k, e.drained));
      } else if k < |s.ctl.callers| {
        HistoryStays(cfg, es, e, s.ctl.callers[k].pc);
      }
    }
  }

  lemma {:induction false} RunHistory(cfg: Config, es: seq<Event>, s: State, fs: seq<Event>, t: State)
    requires Executes(Init(cfg), es, s) && Inv(s) && Executes(s, fs, t) && HistoriesInv(cfg, es, s)
    ensures HistoriesInv(cfg, es + fs, t)
    decreases |fs|
  {
    if fs == [] {
      assert es + fs == es;
    } else {
      StepHistory(cfg, es, s, fs[0]);
      StepInv(s, fs[0]);
      var gs, m := Extend(Init(cfg), es, s, fs[0]);
      RunHistory(cfg, gs, m, fs[1..], t);
      Regroup(es, fs);
    }
  }

  lemma Regroup(es: seq<Event>, fs: seq<Event>)
    requires fs != []
    ensures es + [fs[0]] + fs[1..] == es + fs
  {
  }

  /**
    Any verdict, drained or after the timeout, compares two values the counters really had: the
    total at one moment of the run, and the successes at a later one, when there were at least as
    many attempts. So the rate can exceed 100 percent only if attempts were counted between the two.
   */
  lemma {:induction false} VerdictOfWhatWasRead(cfg: Config, es: seq<Event>, s: State, k: nat) returns (a: nat, b: nat, late: nat)
    requires cfg.maxConcurrent >= 1 && Executes(Init(cfg), es, s) && k < |s.ctl.callers|
    requires s.ctl.callers[k].pc.CallReturned? && s.ctl.callers[k].pc.result.Verdict?
    ensures var r := s.ctl.callers[k].pc.result;
            && a <= b <= |es| && (exists early :: CountersAt(cfg, es, a, r.total, early))
            && CountersAt(cfg, es, b, late, r.good) && r.good <= late
            && r.failed == SuccessRate.BelowRate(cfg.successRate, r.total, r.good)
            && (s.pool.requests < SuccessRate.MANY && cfg.successRate <= 100 ==>
                  (r.failed <==> SuccessRate.FailsInWholeNumbers(cfg.successRate, r.total, r.good)))
            && r.total <= s.pool.requests && r.good <= s.pool.successes
  {
    var r := s.ctl.callers[k].pc.result;
    InitInv(cfg);
    assert [] + es == es;
    RunHistory(cfg, [], Init(cfg), es, s);
    RunReads(Init(cfg), es, s);
    RunInv(Init(cfg), es, s);
    assert ReadInv(s, s.ctl.callers[k].pc);
    assert ReadInOrder(cfg, es, r.total, r.good);
    var early: nat;
    a, b, early, late :| a <= b && CountersAt(cfg, es, a, r.total, early) && CountersAt(cfg, es, b, late, r.good);
    var m :| Executes(Init(cfg), es[..b], m) && m.pool.requests == late && m.pool.successes == r.good;
    RunInv(Init(cfg), es[..b], m);
    if s.pool.requests < SuccessRate.MANY && cfg.successRate <= 100 {
      SuccessRate.VerdictIff(cfg.successRate, r.total, r.good);
    }
  }

  // ---------- completion as Status reports it ----------

  /** A Status call has seen the counter at its target. */
  predicate SawEnd(c: Caller) {
    c.kind.StatusCall? && !c.pc.Loading? && !c.pc.CheckingEnd? &&
    !(c.pc.CallReturned? && (c.pc.result.NoRunData? || c.pc.result == StatusReport(false)))
  }

  ghost predicate EndSeenInv(s: State) {
    forall k :: 0 <= k < |s.ctl.callers| && SawEnd(s.ctl.callers[k]) ==> Ended(s.cfg, s.pool.requests)
  }

  lemma StepEndSeen(s: State, e: Event)
    requires EndSeenInv(s) && Enabled(s, e)
    ensures EndSeenInv(Next(s, e))
  {
    var t := Next(s, e);
    if e.Work? { CountersGrow(s, e.worker, e.choice); }
    assert forall k :: 0 <= k < |s.ctl.callers| && !(e.Call? && e.caller == k) ==>
        t.ctl.callers[k] == s.ctl.callers[k];
  }

  lemma {:induction false} RunEndSeen(s: State, es: seq<Event>, t: State)
    requires EndSeenInv(s) && Executes(s, es, t)
    ensures EndSeenInv(t)
    decreases |es|
  {
    if es != [] {
      StepEndSeen(s, es[0]);
      RunEndSeen(Next(s, es[0]), es[1..], t);
    }
  }

  /**
    When a Status call reports the run as completed, at least the requested number of messages has
    been attempted, at most maxConcurrent - 1 more, and with a single worker exactly that number.
   */
  lemma CompletedMeansPublished(s: State, k: nat)
    requires Reachable(s) && k < |s.ctl.callers| && s.ctl.callers[k] == Caller(StatusCall, CallReturned(StatusReport(true)))
    ensures s.cfg.limit.Some?
    ensures s.cfg.limit.value <= s.pool.requests <= s.cfg.limit.value + s.cfg.maxConcurrent - 1
  {
    var es :| Executes(Init(s.cfg), es, s);
    RunEndSeen(Init(s.cfg), es, s);
    assert SawEnd(s.ctl.callers[k]);
    OvershootBound(s);
  }
}
