/**
  The converse of attribution: an answer of the broker that a worker finds in time is heard. Also
  the single steps of a worker on a channel with confirms.
 */
module EngineAnswers {
  import opened Wrappers
  import opened Engine
  import opened EngineCounts
  import opened EngineDelivery

  /** Worker `i` is at `pc` on channel `id`, which is `c`, and listens on it. */
  predicate On(s: State, i: nat, id: nat, pc: WorkerPc, c: Channel) {
    && s.fault.None? && i < |s.pool.workers| && id < |s.pool.channels|
    && s.pool.workers[i].pc == pc && s.pool.workers[i].ch == Some(id) && s.pool.workers[i].listen == Some(id)
    && s.pool.channels[id] == c
  }

  const GO := Choice(true, true)

  /** Another job is done: `t` is `s` with this outcome logged and counted. */
  ghost predicate Resolved(s: State, t: State, i: nat, job: nat, outcome: Outcome) {
    && i < |s.pool.workers| && t.pool.workers == s.pool.workers[i := s.pool.workers[i].(pc := Receiving)]
    && t.pool.log == s.pool.log + [Entry(job, outcome)] && t.pool.requests == s.pool.requests
    && t.pool.successes == s.pool.successes + if outcome.Delivered? then 1 else 0
  }

  /** A step of worker `i` that changes nothing but its program point and its channel. */
  ghost predicate StillOpen(s: State, t: State, i: nat) {
    && i < |s.pool.workers| && i < |t.pool.workers|
    && t.pool.workers == s.pool.workers[i := s.pool.workers[i].(pc := t.pool.workers[i].pc)]
    && t.pool.log == s.pool.log && t.pool.requests == s.pool.requests && t.pool.successes == s.pool.successes
  }

  lemma ReadNack(s: State, i: nat, id: nat, job: nat, tag: nat, c: Channel)
    requires On(s, i, id, Awaiting(job), c) && c.confirms != [] && c.confirms[0] == Confirm(tag, false)
    ensures Enabled(s, Work(i, GO)) && Resolved(s, Next(s, Work(i, GO)), i, job, Rejected(id, tag))
  {
  }

  lemma ReadAck(s: State, i: nat, id: nat, job: nat, tag: nat, c: Channel)
    requires On(s, i, id, Awaiting(job), c) && c.confirms != [] && c.confirms[0] == Confirm(tag, true)
    ensures Enabled(s, Work(i, GO))
    ensures On(Next(s, Work(i, GO)), i, id, Acked(job, tag), c.(confirms := c.confirms[1..]))
    ensures StillOpen(s, Next(s, Work(i, GO)), i)
  {
  }

  lemma FindNoReturn(s: State, i: nat, id: nat, job: nat, tag: nat, c: Channel)
    requires On(s, i, id, Acked(job, tag), c) && c.returned == []
    ensures Enabled(s, Work(i, GO)) && On(Next(s, Work(i, GO)), i, id, Crediting(job, Some((id, tag))), c)
    ensures StillOpen(s, Next(s, Work(i, GO)), i)
  {
  }

  lemma FindReturn(s: State, i: nat, id: nat, job: nat, tag: nat, c: Channel)
    requires On(s, i, id, Acked(job, tag), c) && c.returned != []
    ensures Enabled(s, Work(i, GO)) && Resolved(s, Next(s, Work(i, GO)), i, job, Unroutable(id, c.returned[0]))
  {
  }

  lemma CreditJob(s: State, i: nat, id: nat, job: nat, tag: nat, c: Channel)
    requires On(s, i, id, Crediting(job, Some((id, tag))), c)
    ensures Enabled(s, Work(i, GO)) && Resolved(s, Next(s, Work(i, GO)), i, job, Delivered(id, tag))
    ensures Next(s, Work(i, GO)).pool.channels == s.pool.channels
  {
  }

  // ---------- answers are heard ----------

  /** What a worker should make of the fate of its message. */
  function OutcomeOf(fate: Fate, id: nat, tag: nat): Outcome
    requires Settled(fate)
  {
    match fate
    case AckedRouted => Delivered(id, tag)
    case AckedUnroutable => Unroutable(id, tag)
    case Nacked => Rejected(id, tag)
  }

  /** The next steps of worker `i` with nothing in between, as long as it can make them without a failure. */
  function Alone(s: State, i: nat, steps: nat): State
    decreases steps
  {
    if steps == 0 || !Enabled(s, Work(i, GO)) then s else Alone(Next(s, Work(i, GO)), i, steps - 1)
  }

  lemma {:induction false} OneMore(s: State, i: nat, steps: nat)
    requires Enabled(s, Work(i, GO))
    ensures Alone(s, i, steps + 1) == Alone(Next(s, Work(i, GO)), i, steps)
  {
  }

  /** A worker that has found a confirm is waiting for its own message, and that one is answered. */
  lemma OwnAnswer(s: State, i: nat, id: nat, job: nat, c: Channel)
    requires ReachableLeakFree(s) && On(s, i, id, Awaiting(job), c) && c.confirms != []
    ensures InFlight(c) && LastJob(c, job) && Settled(c.messages[|c.messages| - 1].fate)
  {
    EngineDelivery.ReachableInv(s);
    assert WorkerInv(s.pool, i, s.pool.workers[i]);
  }

  /**
    In a leak-free run a worker that finds an answer in time makes of it what the broker meant: a
    rejected message is a failure, a returned one is a failure, and a routed and acked one is
    credited; nothing else happens to the counters or to the worker.
   */
  lemma AnswersAreHeard(s: State, i: nat, id: nat, job: nat, c: Channel) returns (steps: nat)
    requires ReachableLeakFree(s) && On(s, i, id, Awaiting(job), c) && c.confirms != []
    ensures c.messages != []
    ensures var last := |c.messages| - 1;
            c.messages[last].job == job && Settled(c.messages[last].fate) &&
            Resolved(s, Alone(s, i, steps), i, job, OutcomeOf(c.messages[last].fate, id, last))
  {
    OwnAnswer(s, i, id, job, c);
    var tag := |c.messages| - 1;
    var m := Next(s, Work(i, GO));
    if c.messages[tag].fate.Nacked? {
      ReadNack(s, i, id, job, tag, c);
      OneMore(s, i, 0);
      steps := 1;
    } else {
      ReadAck(s, i, id, job, tag, c);
      var rest := AckIsHeard(m, i, id, job, tag, c.(confirms := []), c.messages[tag].fate.AckedRouted?);
      OneMore(s, i, rest);
      steps := rest + 1;
    }
  }

  lemma AckIsHeard(s: State, i: nat, id: nat, job: nat, tag: nat, c: Channel, routed: bool) returns (steps: nat)
    requires On(s, i, id, Acked(job, tag), c) && c.returned == if routed then [] else [tag]
    ensures Resolved(s, Alone(s, i, steps), i, job, if routed then Delivered(id, tag) else Unroutable(id, tag))
  {
    var m := Next(s, Work(i, GO));
    if routed {
      FindNoReturn(s, i, id, job, tag, c);
      OneMore(s, i, 1);
      CreditJob(m, i, id, job, tag, c);
      OneMore(m, i, 0);
      steps := 2;
    } else {
      FindReturn(s, i, id, job, tag, c);
      OneMore(s, i, 0);
      steps := 1;
    }
  }
}
