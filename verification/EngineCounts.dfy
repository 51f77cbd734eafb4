/**
  Counting: where every enqueued job is, what the two counters stand for, and how far a
  fixed-amount run can overshoot although the check and the increment are separate steps.
 */
module EngineCounts {
  import opened Wrappers
  import opened Engine
  import EngineControl

  // ---------- what a worker is holding ----------

  /** The job is taken but not yet in the attempt counter. */
  function Uncounted(w: Worker): nat {
    if w.pc.Checking? || PastCheck(w) == 1 then 1 else 0
  }

  /** The ended check is passed but the attempt is not yet counted. */
  function PastCheck(w: Worker): nat {
    match w.pc
    case Throttled(_, retry) => if retry then 0 else 1
    case Redialing(_, retry) => if retry then 0 else 1
    case Publishing(_) => 1
    case Counting(_, _) => 1
    case CountingSkip(_) => 1
    case _ => 0
  }

  /** The attempt is counted but its outcome is still open. */
  function Unresolved(w: Worker): nat {
    match w.pc
    case Throttled(_, retry) => if retry then 1 else 0
    case Redialing(_, retry) => if retry then 1 else 0
    case Republishing(_) => 1
    case Awaiting(_) => 1
    case Acked(_, _) => 1
    case Crediting(_, _) => 1
    case _ => 0
  }

  /** A message is published whose attempt is not yet counted. */
  function OutUncounted(w: Worker): nat { if w.pc.Counting? && w.pc.ok then 1 else 0 }

  /** An attempt is counted whose message is still to be published by the retry. */
  function CountedNotOut(w: Worker): nat {
    match w.pc
    case Throttled(_, retry) => if retry then 1 else 0
    case Redialing(_, retry) => if retry then 1 else 0
    case Republishing(_) => 1
    case _ => 0
  }

  function JobOf(pc: WorkerPc): Option<nat> {
    match pc
    case Checking(job) => Some(job)
    case Throttled(job, _) => Some(job)
    case Redialing(job, _) => Some(job)
    case Publishing(job) => Some(job)
    case Counting(job, _) => Some(job)
    case CountingSkip(job) => Some(job)
    case Republishing(job) => Some(job)
    case Awaiting(job) => Some(job)
    case Acked(job, _) => Some(job)
    case Crediting(job, _) => Some(job)
    case _ => None
  }

  // ---------- sums over a pool ----------

  function Sum<T>(ws: seq<T>, f: T -> nat): nat {
    if ws == [] then 0 else f(ws[0]) + Sum(ws[1..], f)
  }

  lemma {:induction false} SumUpdate<T>(ws: seq<T>, i: nat, w: T, f: T -> nat)
    requires i < |ws|
    ensures Sum(ws[i := w], f) + f(ws[i]) == Sum(ws, f) + f(w)
    decreases |ws|
  {
    if i == 0 {
      assert ws[0 := w][1..] == ws[1..];
    } else {
      assert ws[i := w][1..] == ws[1..][i - 1 := w];
      SumUpdate(ws[1..], i - 1, w, f);
    }
  }

  lemma {:induction false} SumZero<T>(ws: seq<T>, f: T -> nat)
    requires forall i :: 0 <= i < |ws| ==> f(ws[i]) == 0
    ensures Sum(ws, f) == 0
  {
    if ws != [] {
      assert forall i :: 0 <= i < |ws[1..]| ==> ws[1..][i] == ws[i + 1];
      SumZero(ws[1..], f);
    }
  }

  lemma {:induction false} SumBound<T>(ws: seq<T>, f: T -> nat)
    requires forall i :: 0 <= i < |ws| ==> f(ws[i]) <= 1
    ensures Sum(ws, f) <= |ws|
  {
    if ws != [] {
      assert forall i :: 0 <= i < |ws[1..]| ==> ws[1..][i] == ws[i + 1];
      SumBound(ws[1..], f);
    }
  }

  // ---------- successes in the log ----------

  predicate IsSuccess(e: Entry) { e.outcome.Delivered? || e.outcome.Unconfirmed? }

  function Successes(log: seq<Entry>): (n: nat)
    ensures n <= |log|
  {
    if log == [] then 0
    else Successes(log[..|log| - 1]) + if IsSuccess(log[|log| - 1]) then 1 else 0
  }

  lemma SuccessesAppend(log: seq<Entry>, e: Entry)
    ensures Successes(log + [e]) == Successes(log) + if IsSuccess(e) then 1 else 0
  {
  }

  // ---------- one worker step ----------

  /** How the job a worker holds moves on: taken from the channel, kept, dropped, or logged. */
  ghost predicate JobFlow(s: State, t: State, i: nat) {
    && i < |s.pool.workers| && |t.pool.workers| == |s.pool.workers|
    && t.pool.workers == s.pool.workers[i := t.pool.workers[i]]
    && var h, h' := JobOf(s.pool.workers[i].pc), JobOf(t.pool.workers[i].pc);
       if t.received != s.received then
         t.received == s.received + 1 && h.None? && h' == Some(s.received) && t.pool.log == s.pool.log
       else if t.pool.log == s.pool.log then
         h' == h || h'.None?
       else
         h.Some? && h'.None? && |t.pool.log| == |s.pool.log| + 1 &&
         t.pool.log == s.pool.log + [t.pool.log[|s.pool.log|]] && t.pool.log[|s.pool.log|].job == h.value
  }

  predicate OnChannel(pc: WorkerPc) {
    pc.Publishing? || pc.Republishing? || pc.Awaiting? || pc.Acked?
  }

  lemma ChannelJobFlow(s: State, i: nat, c: Choice)
    requires Enabled(s, Work(i, c)) && OnChannel(s.pool.workers[i].pc)
    ensures JobFlow(s, Next(s, Work(i, c)), i)
  {
  }

  lemma WorkJobFlow(s: State, i: nat, c: Choice)
    requires Enabled(s, Work(i, c))
    ensures JobFlow(s, Next(s, Work(i, c)), i)
  {
    if OnChannel(s.pool.workers[i].pc) {
      ChannelJobFlow(s, i, c);
    } else {
      var t := Next(s, Work(i, c));
      if |t.pool.log| == |s.pool.log| + 1 {
        assert t.pool.log == s.pool.log + [t.pool.log[|s.pool.log|]];
      }
    }
  }

  /** The change of every counter matches the change of what the worker holds. */
  ghost predicate CounterFlow(s: State, t: State, i: nat)
    requires i < |s.pool.workers| && i < |t.pool.workers|
  {
    var p, q := s.pool, t.pool;
    var w, w' := p.workers[i], q.workers[i];
    && t.received + p.skipped + p.requests + Uncounted(w) == s.received + q.skipped + q.requests + Uncounted(w')
    && q.requests + |p.log| + Unresolved(w) == p.requests + |q.log| + Unresolved(w')
    && q.published + CountedNotOut(w') + p.requests + OutUncounted(w)
       <= p.published + CountedNotOut(w) + q.requests + OutUncounted(w')
    && (q.requests + PastCheck(w') <= p.requests + PastCheck(w) ||
        (PastCheck(w) == 0 && !Ended(s.cfg, p.requests) && q.requests == p.requests))
    && q.successes - p.successes == (if |q.log| > |p.log| && IsSuccess(q.log[|p.log|]) then 1 else 0)
  }

  lemma ChannelCounterFlow(s: State, i: nat, c: Choice)
    requires Enabled(s, Work(i, c)) && Next(s, Work(i, c)).fault.None? && OnChannel(s.pool.workers[i].pc)
    ensures CounterFlow(s, Next(s, Work(i, c)), i)
  {
  }

  predicate Counts(pc: WorkerPc) {
    pc.Checking? || pc.CountingSkip? || pc.Counting? || pc.Crediting?
  }

  lemma CountingCounterFlow(s: State, i: nat, c: Choice)
    requires Enabled(s, Work(i, c)) && Next(s, Work(i, c)).fault.None? && Counts(s.pool.workers[i].pc)
    ensures CounterFlow(s, Next(s, Work(i, c)), i)
  {
  }

  lemma WorkCounterFlow(s: State, i: nat, c: Choice)
    requires Enabled(s, Work(i, c)) && Next(s, Work(i, c)).fault.None?
    ensures CounterFlow(s, Next(s, Work(i, c)), i)
  {
    var pc := s.pool.workers[i].pc;
    if OnChannel(pc) {
      ChannelCounterFlow(s, i, c);
    } else if Counts(pc) {
      CountingCounterFlow(s, i, c);
    }
  }

  // ---------- conservation ----------

  ghost predicate CountInv(s: State) {
    && var p := s.pool;
    && |p.workers| == s.cfg.maxConcurrent
    && s.received <= s.sent
    && s.received == p.skipped + p.requests + Sum(p.workers, Uncounted)
    && p.requests == |p.log| + Sum(p.workers, Unresolved)
    && p.successes == Successes(p.log)
    && p.published + Sum(p.workers, CountedNotOut) <= p.requests + Sum(p.workers, OutUncounted)
    && (s.cfg.limit.Some? ==>
          p.requests + Sum(p.workers, PastCheck) <= s.cfg.limit.value + s.cfg.maxConcurrent - 1)
  }

  /** The sums move with the counters, so the balance carries over to the state after the step. */
  lemma FlowKeepsCounts(s: State, t: State, i: nat)
    requires CountInv(s) && s.cfg.maxConcurrent >= 1 && t.cfg == s.cfg
    requires t.received <= t.sent && JobFlow(s, t, i) && CounterFlow(s, t, i)
    ensures CountInv(t)
  {
    var ws, w' := s.pool.workers, t.pool.workers[i];
    SumUpdate(ws, i, w', Uncounted);
    SumUpdate(ws, i, w', Unresolved);
    SumUpdate(ws, i, w', CountedNotOut);
    SumUpdate(ws, i, w', OutUncounted);
    SumUpdate(ws, i, w', PastCheck);
    SumBound(t.pool.workers, PastCheck);
    if |t.pool.log| > |s.pool.log| { SuccessesAppend(s.pool.log, t.pool.log[|s.pool.log|]); }
  }

  lemma WorkCountInv(s: State, i: nat, c: Choice)
    requires CountInv(s) && s.cfg.maxConcurrent >= 1
    requires Enabled(s, Work(i, c)) && Next(s, Work(i, c)).fault.None?
    ensures CountInv(Next(s, Work(i, c)))
  {
    WorkJobFlow(s, i, c);
    WorkCounterFlow(s, i, c);
    FlowKeepsCounts(s, Next(s, Work(i, c)), i);
  }

  /** A worker that connected leaves its loop only once the closed channel is empty. */
  predicate Finished(pc: WorkerPc) { pc.Closing? || (pc.Exited? && pc.connected) }

  ghost predicate ExitInv(s: State) {
    forall i :: 0 <= i < |s.pool.workers| && Finished(s.pool.workers[i].pc) ==> s.jobsClosed && s.received == s.sent
  }

  lemma WorkExitInv(s: State, i: nat, c: Choice)
    requires ExitInv(s) && s.received <= s.sent && Enabled(s, Work(i, c))
    ensures ExitInv(Next(s, Work(i, c)))
  {
    var t := Next(s, Work(i, c));
    WorkJobFlow(s, i, c);
    assert Finished(t.pool.workers[i].pc) ==>
        s.pool.workers[i].pc.Closing? || (s.pool.workers[i].pc.Receiving? && s.received >= s.sent && s.jobsClosed);
  }

  ghost predicate Inv(s: State) {
    s.cfg.maxConcurrent >= 1 && CountInv(s) && ExitInv(s)
  }

  lemma StepInv(s: State, e: Event)
    requires Inv(s) && Enabled(s, e)
    ensures Inv(Next(s, e)) && s.pool.skipped <= Next(s, e).pool.skipped
  {
    if e.Work? {
      WorkExitInv(s, e.worker, e.choice);
      if Next(s, e).fault.None? {
        WorkCountInv(s, e.worker, e.choice);
        SkippedGrows(s, e.worker, e.choice);
      }
    }
  }

  lemma SkippedGrows(s: State, i: nat, c: Choice)
    requires Enabled(s, Work(i, c))
    ensures s.pool.skipped <= Next(s, Work(i, c)).pool.skipped
  {
  }

  lemma InitInv(cfg: Config)
    requires cfg.maxConcurrent >= 1
    ensures Inv(Init(cfg))
  {
    var ws := Init(cfg).pool.workers;
    SumZero(ws, Uncounted);
    SumZero(ws, Unresolved);
    SumZero(ws, CountedNotOut);
    SumZero(ws, OutUncounted);
    SumZero(ws, PastCheck);
  }

  lemma {:induction false} RunInv(s: State, es: seq<Event>, t: State)
    requires Inv(s) && Executes(s, es, t)
    ensures Inv(t) && s.pool.skipped <= t.pool.skipped && t.cfg == s.cfg
    decreases |es|
  {
    if es != [] {
      StepInv(s, es[0]);
      RunInv(Next(s, es[0]), es[1..], t);
    }
  }

  lemma ReachableInv(s: State)
    requires Reachable(s)
    ensures Inv(s)
  {
    InitInv(s.cfg);
    var es :| Executes(Init(s.cfg), es, s);
    RunInv(Init(s.cfg), es, s);
  }

  // ---------- jobs are never confused ----------

  /** Jobs in workers' hands and jobs in the log are distinct and were taken from the channel. */
  ghost predicate JobsInv(s: State) {
    var p := s.pool;
    && (forall i :: 0 <= i < |p.workers| && JobOf(p.workers[i].pc).Some? ==> JobOf(p.workers[i].pc).value < s.received)
    && (forall i, j :: 0 <= i < j < |p.workers| && JobOf(p.workers[i].pc).Some? ==>
         JobOf(p.workers[i].pc) != JobOf(p.workers[j].pc))
    && (forall k :: 0 <= k < |p.log| ==> p.log[k].job < s.received)
    && (forall k, l :: 0 <= k < l < |p.log| ==> p.log[k].job != p.log[l].job)
    && (forall k, i :: 0 <= k < |p.log| && 0 <= i < |p.workers| ==> JobOf(p.workers[i].pc) != Some(p.log[k].job))
  }

  lemma FlowKeepsJobs(s: State, t: State, i: nat)
    requires JobsInv(s) && JobFlow(s, t, i)
    ensures JobsInv(t)
  {
  }

  lemma StepJobs(s: State, e: Event)
    requires JobsInv(s) && Enabled(s, e)
    ensures JobsInv(Next(s, e))
  {
    if e.Work? {
      WorkJobFlow(s, e.worker, e.choice);
      FlowKeepsJobs(s, Next(s, e), e.worker);
    }
  }

  lemma {:induction false} RunJobs(s: State, es: seq<Event>, t: State)
    requires JobsInv(s) && Executes(s, es, t)
    ensures JobsInv(t)
    decreases |es|
  {
    if es != [] {
      StepJobs(s, es[0]);
      RunJobs(Next(s, es[0]), es[1..], t);
    }
  }

  /** In every reachable state no two workers hold the same job, and no job is resolved twice or while it is held. */
  lemma EachJobOnce(s: State)
    requires Reachable(s)
    ensures JobsInv(s)
  {
    var es :| Executes(Init(s.cfg), es, s);
    RunJobs(Init(s.cfg), es, s);
  }

  // ---------- main results ----------

  /**
    Every job ever enqueued is in the buffer, dropped as ended, held uncounted by a worker, or
    counted; every counted attempt is logged with its outcome or held with its outcome open;
    and the success counter is the number of successful outcomes, so it never exceeds the attempts.
   */
  lemma Conservation(s: State)
    requires Reachable(s)
    ensures s.received <= s.sent
    ensures s.sent == (s.sent - s.received) + s.pool.skipped + Sum(s.pool.workers, Uncounted) + s.pool.requests
    ensures s.pool.requests == |s.pool.log| + Sum(s.pool.workers, Unresolved)
    ensures s.pool.successes == Successes(s.pool.log) <= s.pool.requests
  {
    ReachableInv(s);
  }

  /** Once all workers are done the books balance with nothing in flight; the buffer is empty if any worker connected. */
  lemma DrainedBalance(s: State)
    requires Reachable(s) && AllExited(s.pool.workers)
    ensures s.sent == (s.sent - s.received) + s.pool.skipped + s.pool.requests
    ensures s.pool.requests == |s.pool.log|
    ensures s.pool.requests == s.pool.successes + |s.pool.log| - Successes(s.pool.log)
    ensures (exists i :: 0 <= i < |s.pool.workers| && s.pool.workers[i].pc == Exited(true)) ==> s.sent == s.received
  {
    ReachableInv(s);
    SumZero(s.pool.workers, Uncounted);
    SumZero(s.pool.workers, Unresolved);
  }

  lemma {:induction false} SumMonotone<T>(ws: seq<T>, f: T -> nat, g: T -> nat)
    requires forall i :: 0 <= i < |ws| ==> f(ws[i]) <= g(ws[i])
    ensures Sum(ws, f) <= Sum(ws, g)
  {
    if ws != [] {
      assert forall i :: 0 <= i < |ws[1..]| ==> ws[1..][i] == ws[i + 1];
      SumMonotone(ws[1..], f, g);
    }
  }

  /**
    A fixed-amount run of n messages makes at most n + maxConcurrent - 1 attempts, counting the
    workers that have passed the check but not yet the counter, and publishes no more messages
    than that. With one worker a run seen as complete has made exactly n attempts.
   */
  lemma OvershootBound(s: State)
    requires Reachable(s) && s.cfg.limit.Some?
    ensures s.pool.requests + Sum(s.pool.workers, PastCheck) <= s.cfg.limit.value + s.cfg.maxConcurrent - 1
    ensures s.pool.published <= s.cfg.limit.value + s.cfg.maxConcurrent - 1
    ensures s.cfg.maxConcurrent == 1 && Ended(s.cfg, s.pool.requests) ==> s.pool.requests == s.cfg.limit.value
  {
    ReachableInv(s);
    SumMonotone(s.pool.workers, OutUncounted, PastCheck);
  }

  /**
    In every reachable state the published messages, with those a retry still has to publish, are
    at most the counted attempts and those about to be counted; so no more messages than attempts
    once the last attempt is counted.
   */
  lemma PublishedWithinAttempts(s: State)
    requires Reachable(s)
    ensures s.pool.published + Sum(s.pool.workers, CountedNotOut) <= s.pool.requests + Sum(s.pool.workers, OutUncounted)
    ensures Sum(s.pool.workers, OutUncounted) == 0 ==> s.pool.published <= s.pool.requests
    ensures AllExited(s.pool.workers) ==> s.pool.published <= s.pool.requests
  {
    ReachableInv(s);
    if AllExited(s.pool.workers) { SumZero(s.pool.workers, OutUncounted); }
  }

  /** After the ticker is stopped, later attempts are bounded by buffered jobs, jobs in workers' hands, and one. */
  lemma AttemptsAfterStop(s: State, es: seq<Event>, t: State)
    requires Reachable(s) && s.ctl.stopClosed && Executes(s, es, t)
    ensures t.pool.requests <= s.pool.requests + (s.sent - s.received) + Sum(s.pool.workers, Uncounted) + 1
  {
    ReachableInv(s);
    RunInv(s, es, t);
    EngineControl.AtMostOneMoreJob(s, es, t);
  }
}
