/**
  `requestPublisherWorker` as the sequential code it is: local handles, shared counters and
  channels updated in place, and other processes acting between any two atomic actions, also while
  the worker sleeps. Whatever they do and whatever the network answers, what the worker does is
  proved to be a run of the engine, so every result about the engine's runs speaks about this code;
  in particular the channel it publishes on is never nil.
 */
module PublisherWorker {
  import opened Wrappers
  import opened Engine
  import opened EngineStop
  import EngineCounts
  import EngineHandles
  import EngineVerdict

  predicate Others(es: seq<Event>, id: nat) {
    forall k :: 0 <= k < |es| && es[k].Work? ==> es[k].worker != id
  }

  lemma {:induction false} OthersLeaveWorker(s: State, es: seq<Event>, t: State, id: nat)
    requires Executes(s, es, t) && Others(es, id) && id < |s.pool.workers|
    ensures t.cfg == s.cfg && s.now <= t.now
    ensures |t.pool.workers| == |s.pool.workers| && t.pool.workers[id] == s.pool.workers[id]
    decreases |es|
  {
    if es != [] {
      OtherStep(s, es[0], id);
      assert forall k :: 0 <= k < |es[1..]| ==> es[1..][k] == es[k + 1];
      OthersLeaveWorker(Next(s, es[0]), es[1..], t, id);
    }
  }

  lemma OtherStep(s: State, e: Event, id: nat)
    requires Enabled(s, e) && id < |s.pool.workers| && (e.Work? ==> e.worker != id)
    ensures var t := Next(s, e);
            t.cfg == s.cfg && s.now <= t.now && |t.pool.workers| == |s.pool.workers| &&
            t.pool.workers[id] == s.pool.workers[id]
  {
    if e.Work? { EngineCounts.WorkJobFlow(s, e.worker, e.choice); }
  }

  lemma {:induction false} RequestsGrow(s: State, es: seq<Event>, t: State)
    requires Executes(s, es, t)
    ensures s.pool.requests <= t.pool.requests
    decreases |es|
  {
    if es != [] {
      if es[0].Work? { EngineVerdict.CountersGrow(s, es[0].worker, es[0].choice); }
      RequestsGrow(Next(s, es[0]), es[1..], t);
    }
  }

  predicate SameJobs(t: State, s: State) {
    t.sent == s.sent && t.received == s.received && t.jobsClosed == s.jobsClosed
  }

  /** A state the processes can get to, in which the handles of worker `id` are in order. */
  lemma HandlesInOrder(s: State, id: nat)
    requires Reachable(s) && id < |s.pool.workers|
    ensures s.fault.None? && EngineHandles.WorkerInv(s.pool, id, s.pool.workers[id])
  {
    NoPanic(s);
  }

  lemma StaysReachable(s: State, es: seq<Event>, t: State)
    requires Reachable(s) && Executes(s, es, t)
    ensures Reachable(t)
  {
    var fs :| Executes(Init(s.cfg), fs, s);
    ExecutesConcat(Init(s.cfg), fs, s, es, t);
    EngineCounts.InitInv(s.cfg);
    EngineCounts.RunInv(Init(s.cfg), fs + es, t);
  }

  lemma SingleStep(s: State, e: Event)
    requires Reachable(s) && Enabled(s, e)
    ensures Executes(s, [e], Next(s, e)) && Reachable(Next(s, e))
  {
    NoPanic(s);
    OneStep(s, e);
    StaysReachable(s, [e], Next(s, e));
  }

  /** What is left of a state for this worker's purposes. */
  ghost predicate Leaves(t: State, s: State, id: nat, w: Engine.Worker, channels: seq<Channel>) {
    && t.cfg == s.cfg && t.now == s.now && SameJobs(t, s) && t.pool.requests == s.pool.requests && t.pool.successes == s.pool.successes
    && id < |t.pool.workers| && t.pool.workers[id] == w && t.pool.channels == channels
  }

  lemma ConnectStep(s: State, id: nat, armed: bool)
    requires id < |s.pool.workers| && s.pool.workers[id].pc.Redialing? && Enabled(s, Work(id, Choice(true, armed)))
    ensures var w, n := s.pool.workers[id], |s.pool.channels|;
            Leaves(Next(s, Work(id, Choice(true, armed))), s, id,
                   w.(pc := if w.pc.retry then Republishing(w.pc.job) else Publishing(w.pc.job),
                      ch := Some(n), listen := if armed then Some(n) else None),
                   s.pool.channels + [Channel(id, armed, false, [], [], [])])
  {
  }

  lemma StampStep(s: State, id: nat, c: Choice)
    requires id < |s.pool.workers| && s.pool.workers[id].pc.Throttled? && Enabled(s, Work(id, c))
    ensures var w := s.pool.workers[id];
            Leaves(Next(s, Work(id, c)), s, id,
                   w.(pc := Redialing(w.pc.job, w.pc.retry), lastRedial := Some(s.now), redials := w.redials + [s.now]),
                   if w.ch.None? then s.pool.channels
                   else s.pool.channels[w.ch.value := s.pool.channels[w.ch.value].(closed := true)])
  {
  }

  lemma DialStep(s: State, id: nat, armed: bool)
    requires id < |s.pool.workers| && s.pool.workers[id].pc.Dialing? && Enabled(s, Work(id, Choice(true, armed)))
    ensures var w, n := s.pool.workers[id], |s.pool.channels|;
            Leaves(Next(s, Work(id, Choice(true, armed))), s, id,
                   w.(pc := Receiving, ch := Some(n), listen := if armed then Some(n) else None),
                   s.pool.channels + [Channel(id, armed, false, [], [], [])])
  {
  }

  /** Joins two stretches of a run. */
  lemma Chain(s: State, es: seq<Event>, m: State, fs: seq<Event>, t: State) returns (gs: seq<Event>)
    requires Executes(s, es, m) && Executes(m, fs, t)
    ensures Executes(s, gs, t)
  {
    ExecutesConcat(s, es, m, fs, t);
    gs := es + fs;
  }

  datatype PublishOutcome = PublishDelivered | PublishNotDelivered | PublishStateUnknown

  /**
    The run data and the network as the processes share them. `st` is the engine state they make
    up, with what the other processes know besides; the worker's own actions never read it.
   */
  class Run {
    const cfg: Config
    var now: nat
    var sent: nat
    var received: nat
    var jobsClosed: bool
    var requests: nat
    var successes: nat
    var channels: seq<Channel>
    var st: State

    ghost predicate Valid()
      reads this
    {
      && Reachable(st) && st.cfg == cfg && st.now == now
      && st.sent == sent && st.received == received && st.jobsClosed == jobsClosed
      && st.pool.requests == requests && st.pool.successes == successes && st.pool.channels == channels
    }

    constructor (cfg: Config)
      requires cfg.maxConcurrent >= 1
      ensures Valid() && st == Init(cfg)
    {
      this.cfg := cfg;
      now, sent, received, jobsClosed, requests, successes, channels := 0, 0, 0, false, 0, 0, [];
      st := Init(cfg);
      new;
      assert Executes(Init(cfg), [], st);
    }
  }

  class Worker {
    const run: Run
    const id: nat
    var ch: Option<nat>
    var listen: Option<nat>
    var lastRedial: Option<nat>

    /** The worker is at this program point, and its variables are the engine's. */
    ghost predicate At(pc: WorkerPc)
      reads this, run
    {
      run.Valid() && id < |run.st.pool.workers| &&
      var w := run.st.pool.workers[id];
      w.pc == pc && w.ch == ch && w.listen == listen && w.lastRedial == lastRedial
    }

    /** A worker as `prepareCommon` spawns it. */
    constructor (run: Run, id: nat)
      requires run.Valid() && id < |run.st.pool.workers| && run.st.pool.workers[id] == FreshWorker
      ensures this.run == run && this.id == id && At(Dialing)
    {
      this.run, this.id := run, id;
      ch, listen, lastRedial := None, None, None;
    }

    /** Any number of actions of the other processes, the broker and the clock. */
    method Interfere(ghost pc: WorkerPc) returns (ghost es: seq<Event>)
      requires At(pc)
      modifies run
      ensures At(pc) && Others(es, id) && Executes(old(run.st), es, run.st)
      ensures run.now >= old(run.now)
    {
      es := [];
      var events: seq<Event> := *;
      var after: State := *;
      if Others(events, id) && Executes(run.st, events, after) {
        OthersLeaveWorker(run.st, events, after, id);
        StaysReachable(run.st, events, after);
        es := events;
        run.st, run.now := after, after.now;
        run.sent, run.received, run.jobsClosed := after.sent, after.received, after.jobsClosed;
        run.requests, run.successes, run.channels := after.pool.requests, after.pool.successes, after.pool.channels;
      }
    }

    /** The engine's account of one atomic action of this worker. */
    method Advance(c: Choice)
      requires Reachable(run.st) && Enabled(run.st, Work(id, c))
      modifies run`st
      ensures Reachable(run.st) && run.st == Next(old(run.st), Work(id, c))
      ensures Executes(old(run.st), [Work(id, c)], run.st)
    {
      SingleStep(run.st, Work(id, c));
      run.st := Next(run.st, Work(id, c));
    }

    /** `checkEnded` and, if the run goes on, the test whether there is a channel. */
    method CheckEnded(job: nat) returns (ended: bool, ghost es: seq<Event>)
      requires At(Checking(job))
      modifies run
      ensures ended == (run.cfg.limit.Some? && run.requests >= run.cfg.limit.value) && run.requests == old(run.requests)
      ensures At(if ended then Receiving else if ch.None? then Throttled(job, false) else Publishing(job))
      ensures Executes(old(run.st), es, run.st)
    {
      HandlesInOrder(run.st, id);
      ended := run.cfg.limit.Some? && run.requests >= run.cfg.limit.value;
      var c := Choice(false, false);
      Advance(c);
      es := [Work(id, c)];
    }

    /** The throttle of `redial`: sleeps until the interval since the last redial has passed, while others go on. */
    method Throttle(job: nat, retry: bool) returns (ghost es: seq<Event>)
      requires At(Throttled(job, retry))
      modifies run
      ensures At(Throttled(job, retry)) && Executes(old(run.st), es, run.st)
      ensures lastRedial.Some? ==> run.now >= lastRedial.value + REDIAL_MIN_INTERVAL
    {
      ghost var s0 := run.st;
      es := Interfere(Throttled(job, retry));
      if lastRedial.Some? && run.now < lastRedial.value + REDIAL_MIN_INTERVAL {
        ghost var s1 := run.st;
        ghost var fs := Sleep(job, retry, lastRedial.value + REDIAL_MIN_INTERVAL);
        es := Chain(s0, es, s1, fs, run.st);
      }
    }

    method Sleep(job: nat, retry: bool, until: nat) returns (ghost es: seq<Event>)
      requires At(Throttled(job, retry))
      modifies run
      ensures At(Throttled(job, retry)) && Executes(old(run.st), es, run.st) && run.now >= until
    {
      ghost var s0 := run.st;
      es := Interfere(Throttled(job, retry));
      if run.now < until {
        ghost var s1 := run.st;
        var rest := until - run.now;
        HandlesInOrder(run.st, id);
        SingleStep(run.st, Clock(rest));
        run.now := run.now + rest;
        run.st := Next(run.st, Clock(rest));
        es := Chain(s0, es, s1, [Clock(rest)], run.st);
      }
      ghost var s2 := run.st;
      ghost var fs := Interfere(Throttled(job, retry));
      es := Chain(s0, es, s2, fs, run.st);
    }

    /** `redial` stamps the time and closes what it had. */
    method StampAndClose(job: nat, retry: bool) returns (ghost es: seq<Event>)
      requires At(Throttled(job, retry))
      requires lastRedial.Some? ==> run.now >= lastRedial.value + REDIAL_MIN_INTERVAL
      modifies run, this`lastRedial
      ensures At(Redialing(job, retry)) && Executes(old(run.st), es, run.st)
    {
      HandlesInOrder(run.st, id);
      lastRedial := Some(run.now);
      if ch.Some? {
        run.channels := run.channels[ch.value := run.channels[ch.value].(closed := true)];
      }
      var c := Choice(false, false);
      StampStep(run.st, id, c);
      Advance(c);
      es := [Work(id, c)];
    }

    /** A dial of `redial` that succeeds, with `armChannel` applied to the new channel. */
    method Connect(job: nat, retry: bool, armed: bool) returns (ghost es: seq<Event>)
      requires At(Redialing(job, retry))
      modifies run, this`ch, this`listen
      ensures At(if retry then Republishing(job) else Publishing(job)) && Executes(old(run.st), es, run.st)
    {
      HandlesInOrder(run.st, id);
      ch := Some(|run.channels|);
      listen := if armed then Some(|run.channels|) else None;
      run.channels := run.channels + [Channel(id, armed, false, [], [], [])];
      var c := Choice(true, armed);
      ConnectStep(run.st, id, armed);
      Advance(c);
      es := [Work(id, c)];
    }

    /** A dial of `redial` that fails; the old streams stay in `listen`. */
    method DialFailed(job: nat, retry: bool) returns (ghost es: seq<Event>)
      requires At(Redialing(job, retry))
      modifies run, this`ch
      ensures At(if retry then Receiving else CountingSkip(job)) && Executes(old(run.st), es, run.st)
    {
      HandlesInOrder(run.st, id);
      ch := None;
      var c := Choice(false, false);
      Advance(c);
      es := [Work(id, c)];
    }

    /** `redial`: throttle, stamp, close, dial. */
    method Redial(job: nat, retry: bool) returns (ok: bool, ghost es: seq<Event>)
      requires At(Throttled(job, retry))
      modifies run, this`ch, this`listen, this`lastRedial
      ensures At(if ok then (if retry then Republishing(job) else Publishing(job))
                 else if retry then Receiving else CountingSkip(job))
      ensures Executes(old(run.st), es, run.st)
    {
      ghost var s0 := run.st;
      es := Throttle(job, retry);
      ghost var s1 := run.st;
      ghost var fs := StampAndClose(job, retry);
      es := Chain(s0, es, s1, fs, run.st);
      ghost var s2 := run.st;
      fs := Interfere(Redialing(job, retry));
      es := Chain(s0, es, s2, fs, run.st);
      ghost var s3 := run.st;
      ok := *;
      if ok {
        var armed: bool := *;
        fs := Connect(job, retry, armed);
      } else {
        fs := DialFailed(job, retry);
      }
      es := Chain(s0, es, s3, fs, run.st);
    }

    /** `requestCounter.Add(1)` for an attempt without a connection. */
    method CountSkip(job: nat) returns (ghost es: seq<Event>)
      requires At(CountingSkip(job))
      modifies run
      ensures At(Receiving) && Executes(old(run.st), es, run.st)
      ensures run.requests == old(run.requests) + 1 && run.successes == old(run.successes)
    {
      HandlesInOrder(run.st, id);
      run.requests := run.requests + 1;
      var c := Choice(false, false);
      Advance(c);
      es := [Work(id, c)];
    }

    /** The channels with a message for `job` sent on the channel in use. */
    function SentOn(channels: seq<Channel>, job: nat): seq<Channel>
      requires ch.Some? && ch.value < |channels|
      reads this
    {
      channels[ch.value := channels[ch.value].(messages := channels[ch.value].messages + [Message(job, Pending)])]
    }

    /** The message goes out on the channel in use, which is never nil here. */
    method Send(job: nat)
      requires run.Valid() && ch.Some? && ch.value < |run.channels|
      modifies run`channels
      ensures run.channels == SentOn(old(run.channels), job)
    {
      var c := run.channels[ch.value];
      run.channels := run.channels[ch.value := c.(messages := c.messages + [Message(job, Pending)])];
    }

    /** The first `PublishWithContext`. A failing call may have sent its message nevertheless. */
    method Publish(job: nat) returns (ok: bool, ghost es: seq<Event>)
      requires At(Publishing(job))
      modifies run
      ensures At(Counting(job, ok)) && Executes(old(run.st), es, run.st)
      ensures ok ==> ch.Some? && ch.value < |old(run.channels)| && run.channels == SentOn(old(run.channels), job)
    {
      HandlesInOrder(run.st, id);
      ok := *;
      var leaked: bool := *;
      if ok || leaked {
        Send(job);
      }
      var c := Choice(ok, leaked);
      Advance(c);
      es := [Work(id, c)];
    }

    /** `requestCounter.Add(1)` after the first publish call. */
    method CountAttempt(job: nat, ok: bool) returns (ghost es: seq<Event>)
      requires At(Counting(job, ok))
      modifies run
      ensures At(if !ok then Throttled(job, true) else if listen.None? then Crediting(job, None) else Awaiting(job))
      ensures Executes(old(run.st), es, run.st)
      ensures run.requests == old(run.requests) + 1 && run.successes == old(run.successes)
    {
      HandlesInOrder(run.st, id);
      run.requests := run.requests + 1;
      var c := Choice(false, false);
      Advance(c);
      es := [Work(id, c)];
    }

    /** The publish after a redial. It too may have sent its message although it reports an error. */
    method Republish(job: nat) returns (ok: bool, ghost es: seq<Event>)
      requires At(Republishing(job))
      modifies run
      ensures At(if !ok then Receiving else if listen.None? then Crediting(job, None) else Awaiting(job))
      ensures Executes(old(run.st), es, run.st)
      ensures ok ==> ch.Some? && ch.value < |old(run.channels)| && run.channels == SentOn(old(run.channels), job)
    {
      HandlesInOrder(run.st, id);
      ok := *;
      var leaked: bool := *;
      if ok || leaked {
        Send(job);
      }
      var c := Choice(ok, leaked);
      Advance(c);
      es := [Work(id, c)];
    }

    /** The first select of `awaitPublishOutcome`: a confirm, a closed stream, or the timeout. */
    method ReadConfirm(job: nat, timeout: bool) returns (outcome: PublishOutcome, ghost tag: nat, ghost es: seq<Event>)
      requires At(Awaiting(job))
      modifies run
      ensures listen.Some? && listen.value < |old(run.channels)|
      ensures var confirms := old(run.channels)[listen.value].confirms;
              outcome == if timeout || confirms == [] then PublishStateUnknown
                         else if confirms[0].ack then PublishDelivered else PublishNotDelivered
      ensures At(if outcome.PublishDelivered? then Acked(job, tag)
                 else if outcome.PublishNotDelivered? then Receiving else Awaiting(job))
      ensures Executes(old(run.st), es, run.st)
    {
      HandlesInOrder(run.st, id);
      var confirms := run.channels[listen.value].confirms;
      es, tag := [], 0;
      if timeout || confirms == [] {
        outcome := PublishStateUnknown;
      } else {
        var c := confirms[0];
        run.channels := run.channels[listen.value := run.channels[listen.value].(confirms := confirms[1..])];
        outcome := if c.ack then PublishDelivered else PublishNotDelivered;
        tag := c.tag;
        var choice := Choice(true, false);
        Advance(choice);
        es := [Work(id, choice)];
      }
    }

    /** The second select: a return already readable means the acked message was unroutable. */
    method ReadReturn(job: nat, ghost tag: nat) returns (delivered: bool, ghost es: seq<Event>)
      requires At(Acked(job, tag))
      modifies run
      ensures listen.Some? && listen.value < |old(run.channels)|
      ensures delivered == (old(run.channels)[listen.value].returned == [])
      ensures At(if delivered then Crediting(job, Some((listen.value, tag))) else Receiving)
      ensures Executes(old(run.st), es, run.st)
    {
      HandlesInOrder(run.st, id);
      var returned := run.channels[listen.value].returned;
      delivered := returned == [];
      if !delivered {
        run.channels := run.channels[listen.value := run.channels[listen.value].(returned := returned[1..])];
      }
      var c := Choice(false, false);
      Advance(c);
      es := [Work(id, c)];
    }

    /** An unknown outcome: close the connection and forget it together with its streams. */
    method DropConnection(job: nat) returns (ghost es: seq<Event>)
      requires At(Awaiting(job))
      modifies run, this`ch, this`listen
      ensures At(Receiving) && ch.None? && Executes(old(run.st), es, run.st)
    {
      HandlesInOrder(run.st, id);
      if ch.Some? {
        run.channels := run.channels[ch.value := run.channels[ch.value].(closed := true)];
      }
      ch, listen := None, None;
      var c := Choice(false, false);
      Advance(c);
      es := [Work(id, c)];
    }

    /** `requestSuccessCounter.Add(1)`. */
    method Credit(job: nat, ghost evidence: Option<(nat, nat)>) returns (ghost es: seq<Event>)
      requires At(Crediting(job, evidence))
      modifies run
      ensures At(Receiving) && Executes(old(run.st), es, run.st)
      ensures run.successes == old(run.successes) + 1 && run.requests == old(run.requests)
    {
      HandlesInOrder(run.st, id);
      run.successes := run.successes + 1;
      var c := Choice(false, false);
      Advance(c);
      es := [Work(id, c)];
    }

    /** The wait for the broker's answer and what follows from it, once a message is out. */
    method AwaitAndCredit(job: nat) returns (ghost es: seq<Event>)
      requires At(if listen.None? then Crediting(job, None) else Awaiting(job))
      modifies run, this`ch, this`listen
      ensures At(Receiving) && Executes(old(run.st), es, run.st)
    {
      ghost var s0 := run.st;
      if listen.None? {
        es := Interfere(Crediting(job, None));
        ghost var s1 := run.st;
        ghost var gs := Credit(job, None);
        es := Chain(s0, es, s1, gs, run.st);
        return;
      }
      ghost var fs;
      es := Interfere(Awaiting(job));
      ghost var s1 := run.st;
      var outcome; ghost var tag;
      var timeout: bool := *;
      outcome, tag, fs := ReadConfirm(job, timeout);
      es := Chain(s0, es, s1, fs, run.st);
      ghost var s2 := run.st;
      match outcome {
        case PublishNotDelivered =>
        case PublishStateUnknown =>
          fs := Interfere(Awaiting(job));
          es := Chain(s0, es, s2, fs, run.st);
          ghost var s3 := run.st;
          fs := DropConnection(job);
          es := Chain(s0, es, s3, fs, run.st);
        case PublishDelivered =>
          fs := Interfere(Acked(job, tag));
          es := Chain(s0, es, s2, fs, run.st);
          es := FinishAcked(s0, es, job, tag);
      }
    }

    method FinishAcked(ghost s0: State, ghost before: seq<Event>, job: nat, ghost tag: nat) returns (ghost es: seq<Event>)
      requires At(Acked(job, tag)) && Executes(s0, before, run.st)
      modifies run
      ensures At(Receiving) && Executes(s0, es, run.st)
    {
      ghost var s1 := run.st;
      var delivered; ghost var fs;
      delivered, fs := ReadReturn(job, tag);
      es := Chain(s0, before, s1, fs, run.st);
      if delivered {
        ghost var evidence := Some((listen.value, tag));
        ghost var s2 := run.st;
        fs := Interfere(Crediting(job, evidence));
        es := Chain(s0, es, s2, fs, run.st);
        ghost var s3 := run.st;
        fs := Credit(job, evidence);
        es := Chain(s0, es, s3, fs, run.st);
      }
    }

    /** Publishes with a channel in hand: one retry after a redial, then the wait for the answer. The attempt is counted. */
    method PublishJob(job: nat) returns (ghost es: seq<Event>)
      requires At(Publishing(job))
      modifies run, this`ch, this`listen, this`lastRedial
      ensures At(Receiving) && Executes(old(run.st), es, run.st)
      ensures run.requests > old(run.requests)
    {
      ghost var s0 := run.st;
      var ok; ghost var fs;
      ok, es := Publish(job);
      ghost var s1 := run.st;
      fs := Interfere(Counting(job, ok));
      es := Chain(s0, es, s1, fs, run.st);
      ghost var s2 := run.st;
      RequestsGrow(s0, es, s2);
      fs := CountAttempt(job, ok);
      es := Chain(s0, es, s2, fs, run.st);
      if !ok {
        ghost var s3 := run.st;
        ok, fs := RetryPublish(job);
        RequestsGrow(s3, fs, run.st);
        es := Chain(s0, es, s3, fs, run.st);
        if !ok {
          return;
        }
      }
      ghost var s4 := run.st;
      fs := AwaitAndCredit(job);
      RequestsGrow(s4, fs, run.st);
      es := Chain(s0, es, s4, fs, run.st);
    }

    /** The single retry. Both ways of failing end the job. */
    method RetryPublish(job: nat) returns (ok: bool, ghost es: seq<Event>)
      requires At(Throttled(job, true))
      modifies run, this`ch, this`listen, this`lastRedial
      ensures At(if !ok then Receiving else if listen.None? then Crediting(job, None) else Awaiting(job))
      ensures Executes(old(run.st), es, run.st)
    {
      ghost var s0 := run.st;
      ghost var fs;
      ok, es := Redial(job, true);
      if ok {
        ghost var s1 := run.st;
        fs := Interfere(Republishing(job));
        es := Chain(s0, es, s1, fs, run.st);
        ghost var s2 := run.st;
        ok, fs := Republish(job);
        es := Chain(s0, es, s2, fs, run.st);
      }
    }

    /**
      The body of the worker's loop for one job. Whatever the network answers and whatever the
      other processes do in between, it is a run of the engine from the state in which the job was
      taken to one in which the worker asks for the next job, and the job is counted as an attempt
      unless the run has ended.
     */
    method HandleJob(job: nat) returns (ghost es: seq<Event>)
      requires At(Checking(job))
      modifies run, this`ch, this`listen, this`lastRedial
      ensures At(Receiving) && Executes(old(run.st), es, run.st)
      ensures run.requests > old(run.requests) || (run.cfg.limit.Some? && run.requests >= run.cfg.limit.value)
    {
      ghost var s0 := run.st;
      es := Interfere(Checking(job));
      ghost var s1 := run.st;
      RequestsGrow(s0, es, s1);
      var ended; ghost var fs;
      ended, fs := CheckEnded(job);
      es := Chain(s0, es, s1, fs, run.st);
      if ended {
        return;
      }
      if ch.None? {
        var ok;
        ghost var s2 := run.st;
        ok, fs := Reconnect(job);
        RequestsGrow(s2, fs, run.st);
        es := Chain(s0, es, s2, fs, run.st);
        if !ok {
          return;
        }
      }
      ghost var s3 := run.st;
      fs := Interfere(Publishing(job));
      RequestsGrow(s3, fs, run.st);
      es := Chain(s0, es, s3, fs, run.st);
      ghost var s4 := run.st;
      fs := PublishJob(job);
      es := Chain(s0, es, s4, fs, run.st);
    }

    /** The redial of a worker without a channel; a failed one is counted as an attempt. */
    method Reconnect(job: nat) returns (ok: bool, ghost es: seq<Event>)
      requires At(Throttled(job, false))
      modifies run, this`ch, this`listen, this`lastRedial
      ensures At(if ok then Publishing(job) else Receiving) && Executes(old(run.st), es, run.st)
      ensures !ok ==> run.requests > old(run.requests)
    {
      ghost var s0 := run.st;
      ok, es := Redial(job, false);
      if !ok {
        ghost var s1 := run.st;
        ghost var fs := Interfere(CountingSkip(job));
        es := Chain(s0, es, s1, fs, run.st);
        ghost var s2 := run.st;
        RequestsGrow(s0, es, s2);
        fs := CountSkip(job);
        es := Chain(s0, es, s2, fs, run.st);
      }
    }

    /** The first dial. A worker that cannot connect gives up. */
    method Dial() returns (ok: bool, ghost es: seq<Event>)
      requires At(Dialing)
      modifies run, this`ch, this`listen
      ensures At(if ok then Receiving else Exited(false)) && Executes(old(run.st), es, run.st)
    {
      HandlesInOrder(run.st, id);
      ok := *;
      if ok {
        var armed: bool := *;
        es := Connected(armed);
      } else {
        var c := Choice(false, false);
        Advance(c);
        es := [Work(id, c)];
      }
    }

    /** `armChannel` on the first channel. */
    method Connected(armed: bool) returns (ghost es: seq<Event>)
      requires At(Dialing)
      modifies run, this`ch, this`listen
      ensures At(Receiving) && Executes(old(run.st), es, run.st)
    {
      HandlesInOrder(run.st, id);
      ch := Some(|run.channels|);
      listen := if armed then ch else None;
      run.channels := run.channels + [Channel(id, armed, false, [], [], [])];
      var c := Choice(true, armed);
      DialStep(run.st, id, armed);
      Advance(c);
      es := [Work(id, c)];
    }

    /** One look at the jobs channel: a job, the end of the closed and empty channel, or nothing yet. */
    method Receive() returns (job: Option<nat>, closed: bool, ghost es: seq<Event>)
      requires At(Receiving)
      modifies run
      ensures At(if job.Some? then Checking(job.value) else if closed then Closing else Receiving)
      ensures Executes(old(run.st), es, run.st)
    {
      HandlesInOrder(run.st, id);
      es, job, closed := [], None, false;
      if run.received < run.sent || run.jobsClosed {
        if run.received < run.sent {
          job := Some(run.received);
          run.received := run.received + 1;
        } else {
          closed := true;
        }
        var c := Choice(false, false);
        Advance(c);
        es := [Work(id, c)];
      }
    }

    /** Closes the connection when the jobs are done. */
    method CloseDown() returns (ghost es: seq<Event>)
      requires At(Closing)
      modifies run
      ensures At(Exited(true)) && Executes(old(run.st), es, run.st)
    {
      HandlesInOrder(run.st, id);
      if ch.Some? {
        run.channels := run.channels[ch.value := run.channels[ch.value].(closed := true)];
      }
      var c := Choice(false, false);
      Advance(c);
      es := [Work(id, c)];
    }

    /**
      The life of a worker up to its `looks`-th look at the jobs channel: dial, handle jobs until
      the channel is closed and empty, close. All of it is a run of the engine.
     */
    method Live(looks: nat) returns (done: bool, ghost es: seq<Event>)
      requires At(Dialing)
      modifies run, this`ch, this`listen, this`lastRedial
      ensures Executes(old(run.st), es, run.st)
      ensures if done then exists connected :: At(Exited(connected)) else At(Receiving)
    {
      ghost var s0 := run.st;
      es := Interfere(Dialing);
      ghost var s1 := run.st;
      var ok; ghost var fs;
      ok, fs := Dial();
      es := Chain(s0, es, s1, fs, run.st);
      if !ok {
        return true, es;
      }
      for n := 0 to looks
        invariant At(Receiving) && Executes(s0, es, run.st)
      {
        var closed;
        ghost var s2 := run.st;
        closed, fs := Round();
        es := Chain(s0, es, s2, fs, run.st);
        if closed {
          return true, es;
        }
      }
      done := false;
    }

    /** One turn of the loop. */
    method Round() returns (closed: bool, ghost es: seq<Event>)
      requires At(Receiving)
      modifies run, this`ch, this`listen, this`lastRedial
      ensures At(if closed then Exited(true) else Receiving) && Executes(old(run.st), es, run.st)
    {
      ghost var s0 := run.st;
      es := Interfere(Receiving);
      ghost var s1 := run.st;
      var job; ghost var fs;
      job, closed, fs := Receive();
      es := Chain(s0, es, s1, fs, run.st);
      ghost var s2 := run.st;
      if job.Some? {
        closed := false;
        fs := HandleJob(job.value);
        es := Chain(s0, es, s2, fs, run.st);
      } else if closed {
        fs := Interfere(Closing);
        es := Chain(s0, es, s2, fs, run.st);
        ghost var s3 := run.st;
        fs := CloseDown();
        es := Chain(s0, es, s3, fs, run.st);
      }
    }
  }
}
