/**
  Why attribution rests on the retry leaving nothing behind. After a failed retry the worker goes
  on with the same channel; if the failed call had reached the broker after all, its late ack can
  be credited to the worker's next job. That is so for every such leak in every run, as long as
  there is a next job.
 */
module EngineLeak {
  import opened Wrappers
  import opened Engine
  import opened EngineCounts
  import opened EngineDelivery
  import opened EngineAnswers
  import Control = EngineControl

  /** A job counted as a success although the broker rejected its message: the ack read was the one before. */
  predicate FalseSuccess(p: Pool, e: Entry) {
    e.outcome.Delivered? && Answered(p, e.job, e.outcome.chan, e.outcome.tag + 1, Nacked) && !Truthful(p, e)
  }

  /** A job is buffered, or the ticker can still deliver one. */
  predicate AnotherJobComes(s: State) {
    s.received < s.sent || s.ctl.ticker.Holding? || (s.ctl.ticker.Outer? && s.ctl.timerLive)
  }

  // ---------- the next job of a worker on a channel with a message left behind ----------

  lemma JobArrives(s: State) returns (es: seq<Event>, t: State)
    requires Reachable(s) && s.fault.None? && AnotherJobComes(s)
    ensures Executes(s, es, t) && t == s.(sent := t.sent, ctl := t.ctl) && t.received < t.sent
  {
    Control.ShutdownIsSafe(s);
    Conservation(s);
    es, t := [], s;
    if s.received >= s.sent {
      if s.ctl.ticker.Outer? { es, t := Extend(s, es, t, Ticker(Tick)); }
      es, t := Extend(s, es, t, Ticker(Send));
    }
  }

  lemma TakeJob(s: State, i: nat, id: nat, c: Channel)
    requires On(s, i, id, Receiving, c) && s.received < s.sent
    ensures Enabled(s, Work(i, GO))
    ensures var t := Next(s, Work(i, GO));
            On(t, i, id, Checking(s.received), c) && t.cfg == s.cfg && t.pool.requests == s.pool.requests
  {
  }

  lemma PassCheck(s: State, i: nat, id: nat, job: nat, c: Channel)
    requires On(s, i, id, Checking(job), c) && !Ended(s.cfg, s.pool.requests)
    ensures Enabled(s, Work(i, GO)) && On(Next(s, Work(i, GO)), i, id, Publishing(job), c)
  {
  }

  lemma SendOut(s: State, i: nat, id: nat, job: nat, c: Channel)
    requires On(s, i, id, Publishing(job), c)
    ensures Enabled(s, Work(i, GO))
    ensures On(Next(s, Work(i, GO)), i, id, Counting(job, true), c.(messages := c.messages + [Message(job, Pending)]))
  {
  }

  lemma CountAndWait(s: State, i: nat, id: nat, job: nat, c: Channel)
    requires On(s, i, id, Counting(job, true), c)
    ensures Enabled(s, Work(i, GO)) && On(Next(s, Work(i, GO)), i, id, Awaiting(job), c)
  {
  }

  lemma BrokerMoves(s: State, i: nat, id: nat, pc: WorkerPc, c: Channel, a: BrokerAction)
    requires On(s, i, id, pc, c) && BrokerEnabled(c, a) && !a.Drop?
    ensures Enabled(s, Broker(id, a)) && On(Next(s, Broker(id, a)), i, id, pc, BrokerNext(c, a))
  {
  }

  /** The worker takes the job and publishes it behind what is on the channel. */
  lemma PublishNextJob(s: State, i: nat, id: nat, c: Channel) returns (es: seq<Event>, t: State)
    requires On(s, i, id, Receiving, c) && s.received < s.sent && !Ended(s.cfg, s.pool.requests)
    ensures Executes(s, es, t)
    ensures On(t, i, id, Awaiting(s.received), c.(messages := c.messages + [Message(s.received, Pending)]))
  {
    var job := s.received;
    var d := c.(messages := c.messages + [Message(job, Pending)]);
    TakeJob(s, i, id, c);
    es, t := Extend(s, [], s, Work(i, GO));
    PassCheck(t, i, id, job, c);
    es, t := Extend(s, es, t, Work(i, GO));
    SendOut(t, i, id, job, c);
    es, t := Extend(s, es, t, Work(i, GO));
    CountAndWait(t, i, id, job, d);
    es, t := Extend(s, es, t, Work(i, GO));
  }

  /** The broker acks the message before the last and rejects the last one. */
  lemma BrokerAnswers(s: State, i: nat, id: nat, job: nat, c: Channel) returns (es: seq<Event>, t: State, d: Channel)
    requires On(s, i, id, Awaiting(job), c) && c.armed && !c.closed
    requires c.confirms == [] && c.returned == [] && |c.messages| >= 2
    requires c.messages[|c.messages| - 2].fate.Pending? && c.messages[|c.messages| - 1] == Message(job, Pending)
    ensures Executes(s, es, t) && On(t, i, id, Awaiting(job), d)
    ensures var tag := |c.messages| - 2;
            d == c.(messages := c.messages[tag := c.messages[tag].(fate := AckedRouted)][tag + 1 := Message(job, Nacked)],
                    confirms := [Confirm(tag, true), Confirm(tag + 1, false)])
  {
    var tag := |c.messages| - 2;
    BrokerMoves(s, i, id, Awaiting(job), c, Ack(tag));
    es, t := Extend(s, [], s, Broker(id, Ack(tag)));
    d := BrokerNext(c, Ack(tag));
    BrokerMoves(t, i, id, Awaiting(job), d, Nack(tag + 1));
    es, t := Extend(s, es, t, Broker(id, Nack(tag + 1)));
    d := BrokerNext(d, Nack(tag + 1));
  }

  /** The worker takes the first confirm for its own and finds no return. */
  lemma Misread(s: State, i: nat, id: nat, job: nat, tag: nat, c: Channel) returns (es: seq<Event>, t: State)
    requires On(s, i, id, Awaiting(job), c) && c.returned == [] && |c.messages| == tag + 2
    requires c.messages[tag].job != job && c.messages[tag + 1] == Message(job, Nacked)
    requires c.confirms == [Confirm(tag, true), Confirm(tag + 1, false)]
    ensures Executes(s, es, t)
    ensures |t.pool.log| > 0 && FalseSuccess(t.pool, t.pool.log[|t.pool.log| - 1])
  {
    ReadAck(s, i, id, job, tag, c);
    es, t := Extend(s, [], s, Work(i, GO));
    var d := c.(confirms := c.confirms[1..]);
    FindNoReturn(t, i, id, job, tag, d);
    es, t := Extend(s, es, t, Work(i, GO));
    CreditJob(t, i, id, job, tag, d);
    es, t := Extend(s, es, t, Work(i, GO));
  }

  /** From a leak to a worker that asks for its next job on a channel with the message left behind. */
  lemma AfterLeak(s: State, e: Event) returns (id: nat, c: Channel)
    requires ReachableLeakFree(s) && Enabled(s, e) && LeavesMessage(s, e)
    ensures On(Next(s, e), e.worker, id, Receiving, c) && c.armed && !c.closed
    ensures c.confirms == [] && c.returned == [] && |c.messages| > 0 && c.messages[|c.messages| - 1].fate.Pending?
    ensures c.messages[|c.messages| - 1].job < s.received
    ensures Next(s, e) == s.(pool := Next(s, e).pool) && Next(s, e).pool.requests == s.pool.requests
  {
    var w := s.pool.workers[e.worker];
    id := w.ch.value;
    EachJobOnce(s);
    EngineDelivery.ReachableInv(s);
    assert WorkerInv(s.pool, e.worker, w);
    c := Next(s, e).pool.channels[id];
  }

  /** The next job of a worker on a channel whose last message is still unanswered. */
  lemma NextJobMisread(s: State, i: nat, id: nat, c: Channel) returns (es: seq<Event>, t: State)
    requires On(s, i, id, Receiving, c) && s.received < s.sent && !Ended(s.cfg, s.pool.requests)
    requires c.armed && !c.closed && c.confirms == [] && c.returned == [] && |c.messages| > 0
    requires c.messages[|c.messages| - 1].fate.Pending? && c.messages[|c.messages| - 1].job < s.received
    ensures Executes(s, es, t)
    ensures |t.pool.log| > 0 && FalseSuccess(t.pool, t.pool.log[|t.pool.log| - 1])
  {
    var job := s.received;
    var d := c.(messages := c.messages + [Message(job, Pending)]);
    var m, fs;
    es, m := PublishNextJob(s, i, id, c);
    fs, t, d := BrokerAnswers(m, i, id, job, d);
    ExecutesConcat(s, es, m, fs, t);
    es, m := es + fs, t;
    fs, t := Misread(m, i, id, job, |c.messages| - 1, d);
    ExecutesConcat(s, es, m, fs, t);
    es := es + fs;
  }

  /**
    Every leak misleads: from any leak-free run that ends with a leak, if another job comes and the
    run has not ended, the engine can go on to count that job as a success although the broker
    rejected its message.
   */
  lemma EveryLeakMisleads(s: State, e: Event) returns (es: seq<Event>, t: State)
    requires ReachableLeakFree(s) && Enabled(s, e) && LeavesMessage(s, e)
    requires AnotherJobComes(s) && !Ended(s.cfg, s.pool.requests)
    ensures Executes(Next(s, e), es, t)
    ensures |t.pool.log| > 0 && FalseSuccess(t.pool, t.pool.log[|t.pool.log| - 1])
  {
    var id, c := AfterLeak(s, e);
    StepReachable(s, e);
    var m, fs;
    es, m := JobArrives(Next(s, e));
    fs, t := NextJobMisread(m, e.worker, id, c);
    ExecutesConcat(Next(s, e), es, m, fs, t);
    es := es + fs;
  }

  lemma StepReachable(s: State, e: Event)
    requires ReachableLeakFree(s) && Enabled(s, e)
    ensures Reachable(Next(s, e))
  {
    var es :| Executes(Init(s.cfg), es, s) && LeakFree(Init(s.cfg), es);
    var fs, t := Extend(Init(s.cfg), es, s, e);
    InitInv(s.cfg);
    EngineCounts.RunInv(Init(s.cfg), fs, t);
  }

  // ---------- such a run exists ----------

  const LEAKY := Config(1, None, 100)

  /** No publish reports an error for a message it has sent. */
  predicate ErrorsAreTrue(es: seq<Event>) {
    forall k :: 0 <= k < |es| && es[k].Work? ==> es[k].choice.ok || !es[k].choice.flag
  }

  lemma {:induction false} ThenLeakFree(s: State, es: seq<Event>, t: State)
    requires Executes(s, es, t) && ErrorsAreTrue(es)
    ensures LeakFree(s, es)
    decreases |es|
  {
    if es != [] {
      assert forall k :: 0 <= k < |es[1..]| ==> es[1..][k] == es[k + 1];
      ThenLeakFree(Next(s, es[0]), es[1..], t);
    }
  }

  /** Start has returned, one job is buffered, and the ticker goroutine runs. */
  lemma Started() returns (es: seq<Event>, s: State)
    ensures Executes(Init(LEAKY), es, s) && ErrorsAreTrue(es)
    ensures s == Init(LEAKY).(sent := 1, ctl := Control(StartReturned, Outer, true, false, false, Unused, Unused, true, []))
  {
    es, s := [], Init(LEAKY);
    es, s := Extend(Init(LEAKY), es, s, Start(Begin));
    es, s := Extend(Init(LEAKY), es, s, Start(SendFirst));
    es, s := Extend(Init(LEAKY), es, s, Start(Spawn));
  }

  lemma FirstJobTaken() returns (es: seq<Event>, s: State)
    ensures Executes(Init(LEAKY), es, s) && ErrorsAreTrue(es) && s.fault.None? && s.cfg == LEAKY
    ensures s.ctl.ticker.Outer? && s.ctl.timerLive
    ensures s.pool.workers == [Worker(Publishing(0), Some(0), Some(0), None, [])] && |s.pool.channels| == 1
  {
    es, s := Started();
    es, s := Extend(Init(LEAKY), es, s, Work(0, GO));
    assert s.pool.workers == [Worker(Receiving, Some(0), Some(0), None, [])];
    es, s := Extend(Init(LEAKY), es, s, Work(0, GO));
    es, s := Extend(Init(LEAKY), es, s, Work(0, GO));
  }

  /** The first publish of job 0 fails and is counted. */
  lemma FirstPublishFails() returns (es: seq<Event>, s: State)
    ensures Executes(Init(LEAKY), es, s) && ErrorsAreTrue(es) && s.fault.None? && s.cfg == LEAKY
    ensures s.ctl.ticker.Outer? && s.ctl.timerLive
    ensures s.pool.workers == [Worker(Throttled(0, true), Some(0), Some(0), None, [])] && |s.pool.channels| == 1
  {
    es, s := FirstJobTaken();
    es, s := Extend(Init(LEAKY), es, s, Work(0, Choice(false, false)));
    es, s := Extend(Init(LEAKY), es, s, Work(0, GO));
  }

  /** The worker has a new channel and is about to retry. */
  lemma AboutToRetry() returns (es: seq<Event>, s: State)
    ensures Executes(Init(LEAKY), es, s) && ErrorsAreTrue(es) && s.fault.None? && s.cfg == LEAKY
    ensures s.ctl.ticker.Outer? && s.ctl.timerLive
    ensures |s.pool.workers| == 1 && s.pool.workers[0].pc == Republishing(0) && s.pool.workers[0].ch == Some(1)
    ensures s.pool.workers[0].listen == Some(1) && |s.pool.channels| == 2
    ensures s.pool.channels[1] == Channel(0, true, false, [], [], [])
  {
    es, s := FirstPublishFails();
    es, s := Extend(Init(LEAKY), es, s, Work(0, GO));
    es, s := Extend(Init(LEAKY), es, s, Work(0, GO));
  }

  /** A reachable state in which the last job counts as a success although the broker rejected its message. */
  lemma LateAckCredited()
    ensures exists s :: Reachable(s) && |s.pool.log| > 0 && FalseSuccess(s.pool, s.pool.log[|s.pool.log| - 1])
  {
    var es, s := AboutToRetry();
    ThenLeakFree(Init(LEAKY), es, s);
    var leak := Work(0, Choice(false, true));
    var fs, t := EveryLeakMisleads(s, leak);
    var gs, m := Extend(Init(LEAKY), es, s, leak);
    ExecutesConcat(Init(LEAKY), gs, m, fs, t);
    InitInv(LEAKY);
    EngineCounts.RunInv(Init(LEAKY), gs + fs, t);
    assert Reachable(t);
  }
}
