/**
  The channels of the workers over whole runs: which are open, who has one, and what happens when
  the network never fails.
 */
module EngineChannels {
  import opened Wrappers
  import opened Engine
  import opened EngineCounts
  import Handles = EngineHandles

  // ---------- open channels ----------

  /** An open channel is the one its owner uses; a worker that redials or is done has none. */
  ghost predicate InUse(p: Pool, id: nat)
    requires id < |p.channels|
  {
    var owner := p.channels[id].owner;
    owner < |p.workers| && p.workers[owner].ch == Some(id) &&
    !p.workers[owner].pc.Redialing? && !p.workers[owner].pc.Exited?
  }

  predicate NeverConnected(pc: WorkerPc) { pc.Dialing? || pc == Exited(false) }

  predicate HasHadChannel(p: Pool, i: nat) { exists id :: 0 <= id < |p.channels| && p.channels[id].owner == i }

  ghost predicate WorkerInv(p: Pool, i: nat)
    requires i < |p.workers|
  {
    if NeverConnected(p.workers[i].pc) then p.workers[i].ch.None? else HasHadChannel(p, i)
  }

  ghost predicate Inv(s: State) {
    var p := s.pool;
    && (forall id :: 0 <= id < |p.channels| && !p.channels[id].closed ==> InUse(p, id))
    && (forall i :: 0 <= i < |p.workers| ==> WorkerInv(p, i))
  }

  /** What a step of worker `i` does to the channels. */
  ghost predicate Moves(p: Pool, q: Pool, i: nat) {
    && |p.channels| <= |q.channels| && i < |q.workers| == |p.workers|
    && q.workers == p.workers[i := q.workers[i]]
    && (forall id :: 0 <= id < |p.channels| ==>
          q.channels[id].owner == p.channels[id].owner &&
          (p.channels[id].owner != i ==> q.channels[id].closed == p.channels[id].closed) &&
          (p.channels[id].closed ==> q.channels[id].closed))
    && (forall id :: 0 <= id < |q.channels| && q.channels[id].owner == i && !q.channels[id].closed ==> InUse(q, id))
    && (forall id :: |p.channels| <= id < |q.channels| ==> q.channels[id].owner == i)
    && var pc, pc' := p.workers[i].pc, q.workers[i].pc;
       (NeverConnected(pc') ==> NeverConnected(pc) && q.workers[i].ch.None?) &&
       (NeverConnected(pc) && !NeverConnected(pc') ==> |q.channels| > |p.channels|)
  }

  lemma PublishMoves(s: State, i: nat, c: Choice)
    requires Inv(s) && Handles.Inv(s) && Enabled(s, Work(i, c))
    requires s.pool.workers[i].pc.Publishing? || s.pool.workers[i].pc.Republishing?
    ensures Moves(s.pool, Next(s, Work(i, c)).pool, i)
  {
    Handles.WorkerHandles(s, i);
    assert WorkerInv(s.pool, i);
  }

  lemma AnswerMoves(s: State, i: nat, c: Choice)
    requires Inv(s) && Handles.Inv(s) && Enabled(s, Work(i, c))
    requires s.pool.workers[i].pc.Awaiting? || s.pool.workers[i].pc.Acked?
    ensures Moves(s.pool, Next(s, Work(i, c)).pool, i)
  {
    Handles.WorkerHandles(s, i);
    assert WorkerInv(s.pool, i);
    var p, w, q := s.pool, s.pool.workers[i], Next(s, Work(i, c)).pool;
    assert q.channels == p.channels[w.ch.value := q.channels[w.ch.value]];
  }

  lemma DialMoves(s: State, i: nat, c: Choice)
    requires Inv(s) && Handles.Inv(s) && Enabled(s, Work(i, c))
    requires s.pool.workers[i].pc.Dialing? || s.pool.workers[i].pc.Redialing?
    ensures Moves(s.pool, Next(s, Work(i, c)).pool, i)
  {
    Handles.WorkerHandles(s, i);
    assert WorkerInv(s.pool, i);
  }

  lemma CloseMoves(s: State, i: nat, c: Choice)
    requires Inv(s) && Handles.Inv(s) && Enabled(s, Work(i, c))
    requires s.pool.workers[i].pc.Throttled? || s.pool.workers[i].pc.Closing?
    ensures Moves(s.pool, Next(s, Work(i, c)).pool, i)
  {
    Handles.WorkerHandles(s, i);
    assert WorkerInv(s.pool, i);
  }

  lemma WorkMoves(s: State, i: nat, c: Choice)
    requires Inv(s) && Handles.Inv(s) && Enabled(s, Work(i, c))
    ensures Moves(s.pool, Next(s, Work(i, c)).pool, i)
  {
    match s.pool.workers[i].pc
    case Awaiting(_) => AnswerMoves(s, i, c);
    case Acked(_, _) => AnswerMoves(s, i, c);
    case Publishing(_) => PublishMoves(s, i, c);
    case Republishing(_) => PublishMoves(s, i, c);
    case Dialing => DialMoves(s, i, c);
    case Redialing(_, _) => DialMoves(s, i, c);
    case Throttled(_, _) => CloseMoves(s, i, c);
    case Closing => CloseMoves(s, i, c);
    case _ => QuietMoves(s, i, c);
  }

  lemma QuietMoves(s: State, i: nat, c: Choice)
    requires Inv(s) && Enabled(s, Work(i, c))
    requires !OnChannel(s.pool.workers[i].pc) && !Handles.Reconnects(s.pool.workers[i].pc)
    ensures Moves(s.pool, Next(s, Work(i, c)).pool, i)
  {
    WorkJobFlow(s, i, c);
    assert WorkerInv(s.pool, i);
    assert Next(s, Work(i, c)).pool.channels == s.pool.channels;
  }

  lemma MovesKeepInv(s: State, t: State, i: nat)
    requires Inv(s) && Moves(s.pool, t.pool, i)
    ensures Inv(t)
  {
    var p, q := s.pool, t.pool;
    forall id | 0 <= id < |q.channels| && !q.channels[id].closed ensures InUse(q, id) {
      if q.channels[id].owner != i { assert InUse(p, id); }
    }
    forall j | 0 <= j < |q.workers| ensures WorkerInv(q, j) {
      assert WorkerInv(p, j);
      if !NeverConnected(p.workers[j].pc) {
        var id :| 0 <= id < |p.channels| && p.channels[id].owner == j;
        assert q.channels[id].owner == j;
      } else if !NeverConnected(q.workers[j].pc) {
        assert q.channels[|p.channels|].owner == j;
      }
    }
  }

  lemma StepInv(s: State, e: Event)
    requires Inv(s) && Handles.Inv(s) && Enabled(s, e)
    ensures Inv(Next(s, e))
  {
    var t := Next(s, e);
    if e.Work? {
      WorkMoves(s, e.worker, e.choice);
      MovesKeepInv(s, t, e.worker);
    } else if e.Broker? {
      assert forall id :: 0 <= id < |s.pool.channels| && !t.pool.channels[id].closed ==> InUse(s.pool, id);
      forall i | 0 <= i < |t.pool.workers| ensures WorkerInv(t.pool, i) {
        assert WorkerInv(s.pool, i);
        if !NeverConnected(s.pool.workers[i].pc) {
          var id :| 0 <= id < |s.pool.channels| && s.pool.channels[id].owner == i;
          assert t.pool.channels[id].owner == i;
        }
      }
    } else {
      assert t.pool == s.pool;
    }
  }

  lemma {:induction false} RunInv(s: State, es: seq<Event>, t: State)
    requires Inv(s) && Handles.Inv(s) && Executes(s, es, t)
    ensures Inv(t)
    decreases |es|
  {
    if es != [] {
      StepInv(s, es[0]);
      Handles.StepInv(s, es[0]);
      RunInv(Next(s, es[0]), es[1..], t);
    }
  }

  /**
    In every reachable state a channel that is still open is the one its owner uses, so every
    abandoned channel is closed and each worker holds at most one open; once all workers are done
    none is open. And a worker that never connected has had no channel and, unless it is still
    dialing, is gone.
   */
  lemma AbandonedChannelsAreClosed(s: State)
    requires Reachable(s)
    ensures forall id :: 0 <= id < |s.pool.channels| && !s.pool.channels[id].closed ==> InUse(s.pool, id)
    ensures forall a, b :: 0 <= a < b < |s.pool.channels| && s.pool.channels[a].owner == s.pool.channels[b].owner ==>
              s.pool.channels[a].closed || s.pool.channels[b].closed
    ensures AllExited(s.pool.workers) ==>
              forall id :: 0 <= id < |s.pool.channels| ==> s.pool.channels[id].closed
    ensures forall i :: 0 <= i < |s.pool.workers| && !NeverConnected(s.pool.workers[i].pc) ==> HasHadChannel(s.pool, i)
  {
    var es :| Executes(Init(s.cfg), es, s);
    RunInv(Init(s.cfg), es, s);
    assert forall id :: 0 <= id < |s.pool.channels| && !s.pool.channels[id].closed ==> InUse(s.pool, id);
    forall i | 0 <= i < |s.pool.workers| && !NeverConnected(s.pool.workers[i].pc) ensures HasHadChannel(s.pool, i) {
      assert WorkerInv(s.pool, i);
    }
  }

  // ---------- runs in which the network never fails ----------

  /** Every dial and publish succeeds, every awaited answer comes in time, and no connection drops. */
  predicate Smooth(es: seq<Event>) {
    forall k :: 0 <= k < |es| ==> (es[k].Work? ==> es[k].choice.ok) && (es[k].Broker? ==> !es[k].act.Drop?)
  }

  /** A worker that has not had to redial, with its one channel open. */
  ghost predicate Undisturbed(p: Pool, w: Worker) {
    && w.redials == [] && w.lastRedial.None?
    && match w.pc
       case Dialing => true
       case Exited(connected) => connected
       case Throttled(_, _) => false
       case Redialing(_, _) => false
       case CountingSkip(_) => false
       case Republishing(_) => false
       case Counting(_, ok) => ok && HoldsOpen(p, w)
       case _ => HoldsOpen(p, w)
  }

  predicate HoldsOpen(p: Pool, w: Worker) {
    w.ch.Some? && w.ch.value < |p.channels| && !p.channels[w.ch.value].closed
  }

  /** The broker's answer, or without confirms the publish itself, decided the attempt. */
  predicate Decided(e: Entry) {
    e.outcome.Delivered? || e.outcome.Unroutable? || e.outcome.Rejected? || e.outcome.Unconfirmed?
  }

  ghost predicate SmoothInv(s: State) {
    var p := s.pool;
    && (forall i :: 0 <= i < |p.workers| ==> Undisturbed(p, p.workers[i]))
    && (forall k :: 0 <= k < |p.log| ==> Decided(p.log[k]))
  }

  ghost predicate SmoothStep(p: Pool, q: Pool, i: nat) {
    && i < |q.workers| == |p.workers| && Undisturbed(q, q.workers[i])
    && (q.log == p.log || (|q.log| == |p.log| + 1 && q.log[..|p.log|] == p.log && Decided(q.log[|p.log|])))
  }

  lemma SmoothChannelStep(s: State, i: nat, c: Choice)
    requires SmoothInv(s) && Handles.Inv(s) && Enabled(s, Work(i, c)) && c.ok && OnChannel(s.pool.workers[i].pc)
    ensures SmoothStep(s.pool, Next(s, Work(i, c)).pool, i)
  {
    Handles.WorkerHandles(s, i);
    assert Undisturbed(s.pool, s.pool.workers[i]);
  }

  lemma SmoothWorkStep(s: State, i: nat, c: Choice)
    requires SmoothInv(s) && Handles.Inv(s) && Enabled(s, Work(i, c)) && c.ok
    ensures SmoothStep(s.pool, Next(s, Work(i, c)).pool, i)
  {
    assert Undisturbed(s.pool, s.pool.workers[i]);
    if OnChannel(s.pool.workers[i].pc) { SmoothChannelStep(s, i, c); }
  }

  lemma SmoothStepInv(s: State, e: Event)
    requires SmoothInv(s) && Inv(s) && Handles.Inv(s) && Enabled(s, e) && Smooth([e])
    ensures SmoothInv(Next(s, e))
  {
    assert [e][0] == e;
    var p, q := s.pool, Next(s, e).pool;
    if e.Work? {
      SmoothWorkStep(s, e.worker, e.choice);
      WorkMoves(s, e.worker, e.choice);
      OthersUndisturbed(s, q, e.worker);
      assert forall k :: 0 <= k < |p.log| ==> q.log[k] == p.log[k];
    } else {
      forall j | 0 <= j < |q.workers| ensures Undisturbed(q, q.workers[j]) { assert Undisturbed(p, p.workers[j]); }
    }
  }

  lemma OthersUndisturbed(s: State, q: Pool, i: nat)
    requires SmoothInv(s) && Handles.Inv(s) && Moves(s.pool, q, i) && Undisturbed(q, q.workers[i])
    ensures forall j :: 0 <= j < |q.workers| ==> Undisturbed(q, q.workers[j])
  {
    forall j | 0 <= j < |q.workers| ensures Undisturbed(q, q.workers[j]) {
      if j != i {
        assert Undisturbed(s.pool, s.pool.workers[j]);
        Handles.WorkerHandles(s, j);
      }
    }
  }

  lemma {:induction false} SmoothRunInv(s: State, es: seq<Event>, t: State)
    requires SmoothInv(s) && Inv(s) && Handles.Inv(s) && Executes(s, es, t) && Smooth(es)
    ensures SmoothInv(t)
    decreases |es|
  {
    if es != [] {
      assert [es[0]][0] == es[0];
      SmoothStepInv(s, es[0]);
      StepInv(s, es[0]);
      Handles.StepInv(s, es[0]);
      assert forall k :: 0 <= k < |es[1..]| ==> es[1..][k] == es[k + 1];
      SmoothRunInv(Next(s, es[0]), es[1..], t);
    }
  }

  /**
    As long as the network does not fail, no worker ever redials, every attempt is decided by the
    broker's answer to it, and every worker that has left its loop left it connected.
   */
  lemma SmoothRunsNeverRedial(cfg: Config, es: seq<Event>, s: State)
    requires Executes(Init(cfg), es, s) && Smooth(es)
    ensures forall i :: 0 <= i < |s.pool.workers| ==> s.pool.workers[i].redials == []
    ensures forall k :: 0 <= k < |s.pool.log| ==> Decided(s.pool.log[k])
    ensures forall i :: 0 <= i < |s.pool.workers| ==> s.pool.workers[i].pc != Exited(false)
  {
    SmoothRunInv(Init(cfg), es, s);
    assert forall i :: 0 <= i < |s.pool.workers| ==> Undisturbed(s.pool, s.pool.workers[i]);
  }
}
