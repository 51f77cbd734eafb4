/**
  The handles of a worker: whatever the network does, a worker publishes only on a channel of its
  own and waits for confirms only on that channel's streams.
 */
module EngineHandles {
  import opened Wrappers
  import opened Engine
  import opened EngineCounts

  /** The channel in use is the worker's own, and it listens on it exactly if confirms are enabled. */
  ghost predicate HandlesInv(p: Pool, i: nat, w: Worker) {
    && HandleOk(p, w.ch) && HandleOk(p, w.listen)
    && (w.ch.Some? ==>
          p.channels[w.ch.value].owner == i &&
          w.listen == if p.channels[w.ch.value].armed then w.ch else None)
  }

  ghost predicate WorkerInv(p: Pool, i: nat, w: Worker) {
    && HandlesInv(p, i, w)
    && (w.pc.Publishing? || w.pc.Republishing? || w.pc.Counting? ==> w.ch.Some?)
    && (w.pc.Awaiting? || w.pc.Acked? ==> w.ch.Some? && w.listen.Some?)
  }

  ghost predicate Inv(s: State) {
    forall i :: 0 <= i < |s.pool.workers| ==> WorkerInv(s.pool, i, s.pool.workers[i])
  }

  lemma WorkerHandles(s: State, i: nat)
    requires Inv(s) && i < |s.pool.workers|
    ensures WorkerInv(s.pool, i, s.pool.workers[i])
  {
  }

  /** Channels are only added, and never change owner or mode. */
  ghost predicate Keeps(p: Pool, q: Pool) {
    |p.channels| <= |q.channels| &&
    forall id :: 0 <= id < |p.channels| ==>
      q.channels[id].owner == p.channels[id].owner && q.channels[id].armed == p.channels[id].armed
  }

  lemma ChannelStep(s: State, i: nat, c: Choice)
    requires Inv(s) && Enabled(s, Work(i, c)) && OnChannel(s.pool.workers[i].pc)
    ensures var t := Next(s, Work(i, c));
            Keeps(s.pool, t.pool) && t.fault.None? && WorkerInv(t.pool, i, t.pool.workers[i])
  {
    assert WorkerInv(s.pool, i, s.pool.workers[i]);
  }

  predicate Reconnects(pc: WorkerPc) { pc.Dialing? || pc.Throttled? || pc.Redialing? || pc.Closing? }

  lemma ReconnectStep(s: State, i: nat, c: Choice)
    requires Inv(s) && Enabled(s, Work(i, c)) && Reconnects(s.pool.workers[i].pc)
    ensures var t := Next(s, Work(i, c));
            Keeps(s.pool, t.pool) && t.fault.None? && WorkerInv(t.pool, i, t.pool.workers[i])
  {
    assert WorkerInv(s.pool, i, s.pool.workers[i]);
  }

  lemma WorkStep(s: State, i: nat, c: Choice)
    requires Inv(s) && Enabled(s, Work(i, c))
    ensures var t := Next(s, Work(i, c));
            Keeps(s.pool, t.pool) && t.fault.None? && WorkerInv(t.pool, i, t.pool.workers[i])
  {
    assert WorkerInv(s.pool, i, s.pool.workers[i]);
    var pc := s.pool.workers[i].pc;
    if OnChannel(pc) { ChannelStep(s, i, c); } else if Reconnects(pc) { ReconnectStep(s, i, c); }
  }

  lemma StepInv(s: State, e: Event)
    requires Inv(s) && Enabled(s, e)
    ensures Inv(Next(s, e)) && Next(s, e).fault != Some(NilChannel)
  {
    var t := Next(s, e);
    if e.Work? {
      WorkStep(s, e.worker, e.choice);
      WorkJobFlow(s, e.worker, e.choice);
    }
    forall j | 0 <= j < |t.pool.workers| ensures WorkerInv(t.pool, j, t.pool.workers[j]) {
      assert WorkerInv(s.pool, j, s.pool.workers[j]);
      if !(e.Work? && j == e.worker) { assert t.pool.workers[j] == s.pool.workers[j]; }
    }
  }

  lemma {:induction false} RunInv(s: State, es: seq<Event>, t: State)
    requires Inv(s) && s.fault != Some(NilChannel) && Executes(s, es, t)
    ensures Inv(t) && t.fault != Some(NilChannel)
    decreases |es|
  {
    if es != [] {
      StepInv(s, es[0]);
      RunInv(Next(s, es[0]), es[1..], t);
    }
  }

  lemma ReachableInv(s: State)
    requires Reachable(s)
    ensures Inv(s) && s.fault != Some(NilChannel)
  {
    var es :| Executes(Init(s.cfg), es, s);
    RunInv(Init(s.cfg), es, s);
  }

  // ---------- an unknown outcome replaces the channel ----------

  /** Worker `i` holds no channel older than `n`. */
  predicate OnlyNewer(s: State, i: nat, n: nat) {
    i < |s.pool.workers| && n <= |s.pool.channels| &&
    (s.pool.workers[i].ch.Some? ==> s.pool.workers[i].ch.value >= n)
  }

  lemma ChannelKeepsNewer(s: State, i: nat, c: Choice, n: nat)
    requires Enabled(s, Work(i, c)) && OnlyNewer(s, i, n) && OnChannel(s.pool.workers[i].pc)
    ensures OnlyNewer(Next(s, Work(i, c)), i, n)
  {
  }

  lemma ReconnectKeepsNewer(s: State, i: nat, c: Choice, n: nat)
    requires Enabled(s, Work(i, c)) && OnlyNewer(s, i, n) && Reconnects(s.pool.workers[i].pc)
    ensures OnlyNewer(Next(s, Work(i, c)), i, n)
  {
  }

  lemma WorkKeepsNewer(s: State, i: nat, c: Choice, n: nat)
    requires Enabled(s, Work(i, c)) && OnlyNewer(s, i, n)
    ensures OnlyNewer(Next(s, Work(i, c)), i, n)
  {
    var pc := s.pool.workers[i].pc;
    if OnChannel(pc) { ChannelKeepsNewer(s, i, c, n); } else if Reconnects(pc) { ReconnectKeepsNewer(s, i, c, n); }
  }

  lemma StepKeepsNewer(s: State, e: Event, i: nat, n: nat)
    requires Inv(s) && Enabled(s, e) && OnlyNewer(s, i, n)
    ensures OnlyNewer(Next(s, e), i, n)
  {
    if e.Work? {
      WorkStep(s, e.worker, e.choice);
      WorkJobFlow(s, e.worker, e.choice);
      if e.worker == i { WorkKeepsNewer(s, i, e.choice, n); }
    }
  }

  lemma {:induction false} RunKeepsNewer(s: State, es: seq<Event>, t: State, i: nat, n: nat)
    requires Inv(s) && Executes(s, es, t) && OnlyNewer(s, i, n)
    ensures OnlyNewer(t, i, n)
    decreases |es|
  {
    if es != [] {
      StepKeepsNewer(s, es[0], i, n);
      StepInv(s, es[0]);
      RunKeepsNewer(Next(s, es[0]), es[1..], t, i, n);
    }
  }

  /**
    A worker whose attempt ends as unknown is left without channel and streams, and whatever
    happens afterwards, every later publish of this worker is on a channel opened after that.
   */
  lemma UnknownReplacesChannel(s: State, i: nat, c: Choice, es: seq<Event>, t: State)
    requires Reachable(s) && Enabled(s, Work(i, c))
    requires var m := Next(s, Work(i, c)); m.pool.log != s.pool.log && m.pool.log[|m.pool.log| - 1].outcome.Unknown?
    requires Executes(Next(s, Work(i, c)), es, t)
    ensures var m := Next(s, Work(i, c)); m.pool.workers[i].ch.None? && m.pool.workers[i].listen.None?
    ensures i < |t.pool.workers|
    ensures t.pool.workers[i].pc.Publishing? || t.pool.workers[i].pc.Republishing? ==>
              t.pool.workers[i].ch.Some? && t.pool.workers[i].ch.value >= |s.pool.channels|
  {
    var m := Next(s, Work(i, c));
    ReachableInv(s);
    StepInv(s, Work(i, c));
    WorkJobFlow(s, i, c);
    UnknownStep(s, i, c);
    RunKeepsNewer(m, es, t, i, |s.pool.channels|);
    RunInv(m, es, t);
    assert WorkerInv(t.pool, i, t.pool.workers[i]);
  }

  lemma UnknownStep(s: State, i: nat, c: Choice)
    requires Enabled(s, Work(i, c))
    requires var m := Next(s, Work(i, c)); m.pool.log != s.pool.log && m.pool.log[|m.pool.log| - 1].outcome.Unknown?
    ensures var m := Next(s, Work(i, c));
            m.pool.workers[i].ch.None? && m.pool.workers[i].listen.None? && |m.pool.channels| == |s.pool.channels|
  {
    var pc := s.pool.workers[i].pc;
    if !OnChannel(pc) { KnownOffChannel(s, i, c); } else if !pc.Awaiting? { KnownOnChannel(s, i, c); }
  }

  lemma KnownOffChannel(s: State, i: nat, c: Choice)
    requires Enabled(s, Work(i, c)) && !OnChannel(s.pool.workers[i].pc)
    ensures var m := Next(s, Work(i, c)); m.pool.log == s.pool.log || !m.pool.log[|m.pool.log| - 1].outcome.Unknown?
  {
  }

  lemma KnownOnChannel(s: State, i: nat, c: Choice)
    requires Enabled(s, Work(i, c)) && OnChannel(s.pool.workers[i].pc) && !s.pool.workers[i].pc.Awaiting?
    ensures var m := Next(s, Work(i, c)); m.pool.log == s.pool.log || !m.pool.log[|m.pool.log| - 1].outcome.Unknown?
  {
  }
}
