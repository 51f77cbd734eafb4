/**
  What becomes of each job, counted over whole runs: when a job may be dropped, where every
  published message and every redial went, and that no channel is left open.
 */
module EngineOutcomes {
  import opened Wrappers
  import opened Engine
  import opened EngineCounts
  import EngineControl
  import EngineHandles

  /** The attempt ended with a message published without error. */
  predicate WasPublished(e: Entry) { !e.outcome.PublishFailed? && !e.outcome.ConnectFailed? }

  function PublishedEntries(log: seq<Entry>): (n: nat)
    ensures n <= |log|
  {
    if log == [] then 0
    else PublishedEntries(log[..|log| - 1]) + if WasPublished(log[|log| - 1]) then 1 else 0
  }

  lemma PublishedEntriesAppend(log: seq<Entry>, e: Entry)
    ensures PublishedEntries(log + [e]) == PublishedEntries(log) + if WasPublished(e) then 1 else 0
  {
  }

  /** A message is out and its job not yet resolved. */
  function OutOpen(w: Worker): nat {
    match w.pc
    case Counting(_, ok) => if ok then 1 else 0
    case Awaiting(_) => 1
    case Acked(_, _) => 1
    case Crediting(_, _) => 1
    case _ => 0
  }

  /** A redial was made whose job can still end as failed for it. */
  function RedialOpen(w: Worker): nat {
    if w.pc.Redialing? || w.pc.CountingSkip? || w.pc.Republishing? then 1 else 0
  }

  function RedialCount(w: Worker): nat { |w.redials| }

  /** What one worker step adds on either side of each account. */
  ghost predicate OutcomeFlow(s: State, t: State, i: nat)
    requires i < |s.pool.workers| && i < |t.pool.workers|
  {
    var p, q := s.pool, t.pool;
    var w, w' := p.workers[i], q.workers[i];
    var logged := |q.log| > |p.log|;
    && (q.skipped == p.skipped || (q.skipped == p.skipped + 1 && Ended(s.cfg, p.requests)))
    && p.requests <= q.requests
    && q.published - p.published ==
       OutOpen(w') - OutOpen(w) + (if logged && WasPublished(q.log[|p.log|]) then 1 else 0)
    && RedialOpen(w') - RedialOpen(w) + (if logged && !WasPublished(q.log[|p.log|]) then 1 else 0)
       <= RedialCount(w') - RedialCount(w)
  }

  lemma ChannelOutcomeFlow(s: State, i: nat, c: Choice)
    requires Enabled(s, Work(i, c)) && Next(s, Work(i, c)).fault.None? && OnChannel(s.pool.workers[i].pc)
    ensures OutcomeFlow(s, Next(s, Work(i, c)), i)
  {
  }

  lemma CountingOutcomeFlow(s: State, i: nat, c: Choice)
    requires Enabled(s, Work(i, c)) && Counts(s.pool.workers[i].pc)
    ensures OutcomeFlow(s, Next(s, Work(i, c)), i)
  {
  }

  lemma WorkOutcomeFlow(s: State, i: nat, c: Choice)
    requires Enabled(s, Work(i, c)) && Next(s, Work(i, c)).fault.None?
    ensures OutcomeFlow(s, Next(s, Work(i, c)), i)
  {
    var pc := s.pool.workers[i].pc;
    if OnChannel(pc) { ChannelOutcomeFlow(s, i, c); } else if Counts(pc) { CountingOutcomeFlow(s, i, c); }
  }

  ghost predicate Inv(s: State) {
    var p := s.pool;
    && (p.skipped > 0 ==> Ended(s.cfg, p.requests))
    && p.published == PublishedEntries(p.log) + Sum(p.workers, OutOpen)
    && |p.log| - PublishedEntries(p.log) + Sum(p.workers, RedialOpen) <= Sum(p.workers, RedialCount)
  }

  lemma StepInv(s: State, e: Event)
    requires Inv(s) && Enabled(s, e)
    ensures Next(s, e).fault.None? ==> Inv(Next(s, e))
  {
    var t := Next(s, e);
    if e.Work? && t.fault.None? {
      WorkJobFlow(s, e.worker, e.choice);
      WorkOutcomeFlow(s, e.worker, e.choice);
      FlowKeepsInv(s, t, e.worker);
    }
  }

  lemma FlowKeepsInv(s: State, t: State, i: nat)
    requires Inv(s) && t.cfg == s.cfg && JobFlow(s, t, i) && OutcomeFlow(s, t, i)
    ensures Inv(t)
  {
    var ws, w' := s.pool.workers, t.pool.workers[i];
    SumUpdate(ws, i, w', OutOpen);
    SumUpdate(ws, i, w', RedialOpen);
    SumUpdate(ws, i, w', RedialCount);
    if |t.pool.log| > |s.pool.log| { PublishedEntriesAppend(s.pool.log, t.pool.log[|s.pool.log|]); }
  }

  lemma InitInv(cfg: Config)
    ensures Inv(Init(cfg))
  {
    var ws := Init(cfg).pool.workers;
    SumZero(ws, OutOpen);
    SumZero(ws, RedialOpen);
    SumZero(ws, RedialCount);
  }

  lemma {:induction false} RunInv(s: State, es: seq<Event>, t: State)
    requires Inv(s) && Executes(s, es, t) && t.fault.None?
    ensures Inv(t)
    decreases |es|
  {
    if es != [] {
      assert es[1..] == [] || Enabled(Next(s, es[0]), es[1..][0]);
      StepInv(s, es[0]);
      RunInv(Next(s, es[0]), es[1..], t);
    }
  }

  lemma ReachableInv(s: State)
    requires Reachable(s)
    ensures Inv(s)
  {
    EngineControl.ShutdownIsSafe(s);
    EngineHandles.ReachableInv(s);
    InitInv(s.cfg);
    var es :| Executes(Init(s.cfg), es, s);
    RunInv(Init(s.cfg), es, s);
  }

  // ---------- main results: the accounts ----------

  /**
    A job is dropped uncounted only if the run has ended: in a periodic run none is, and every job
    taken is an attempt or still in a worker's hands.
   */
  lemma SkippedOnlyWhenEnded(s: State)
    requires Reachable(s)
    ensures s.pool.skipped > 0 ==> s.cfg.limit.Some? && s.pool.requests >= s.cfg.limit.value
    ensures s.cfg.limit.None? ==> s.pool.skipped == 0 && s.received == s.pool.requests + Sum(s.pool.workers, Uncounted)
  {
    ReachableInv(s);
    EngineCounts.ReachableInv(s);
  }

  /**
    Every message published without error belongs to an attempt that is logged as delivered,
    unconfirmed, unroutable, rejected or unknown, or whose answer is still awaited; so no attempt
    counts as a success without such a message.
   */
  lemma PublishedAreAccounted(s: State)
    requires Reachable(s)
    ensures s.pool.published == PublishedEntries(s.pool.log) + Sum(s.pool.workers, OutOpen)
    ensures s.pool.successes <= s.pool.published
  {
    ReachableInv(s);
    EngineCounts.ReachableInv(s);
    SuccessesArePublished(s.pool.log);
  }

  lemma {:induction false} SuccessesArePublished(log: seq<Entry>)
    ensures Successes(log) <= PublishedEntries(log)
  {
    if log != [] { SuccessesArePublished(log[..|log| - 1]); }
  }

  /** No attempt is given up without a redial: attempts that failed to connect or to publish are at most the redials stamped. */
  lemma FailuresFollowRedials(s: State)
    requires Reachable(s)
    ensures |s.pool.log| - PublishedEntries(s.pool.log) <= Sum(s.pool.workers, RedialCount)
  {
    ReachableInv(s);
  }
}
