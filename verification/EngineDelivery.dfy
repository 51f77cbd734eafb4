/**
  Attribution: in a run in which no failing retry leaves its message behind, a success is only
  ever counted on the evidence of the broker's answer to that job's own message. A late ack or a
  stale return is never credited to another message.
 */
module EngineDelivery {
  import opened Wrappers
  import opened Engine
  import opened EngineCounts
  import Handles = EngineHandles

  predicate Settled(f: Fate) { f.AckedRouted? || f.AckedUnroutable? || f.Nacked? }

  // ---------- the three shapes of a confirm-enabled channel ----------

  ghost predicate OlderSettled(c: Channel) {
    forall t :: 0 <= t < |c.messages| - 1 ==> Settled(c.messages[t].fate)
  }

  /** In sync: every message answered, nothing unread in the streams. */
  ghost predicate Clean(c: Channel) {
    && (forall t :: 0 <= t < |c.messages| ==> Settled(c.messages[t].fate))
    && c.confirms == [] && c.returned == []
  }

  /** One message outstanding, and the streams hold exactly the broker's answers to it so far. */
  ghost predicate InFlight(c: Channel) {
    && c.messages != [] && OlderSettled(c)
    && var last := |c.messages| - 1;
       match c.messages[last].fate
       case Pending => c.confirms == [] && c.returned == []
       case Returned => c.confirms == [] && c.returned == [last]
       case AckedRouted => c.confirms == [Confirm(last, true)] && c.returned == []
       case AckedUnroutable => c.confirms == [Confirm(last, true)] && c.returned == [last]
       case Nacked => c.confirms == [Confirm(last, false)] && c.returned == []
  }

  /** The ack of the last message has been read; its return, if any, is still unread. */
  ghost predicate AckTaken(c: Channel) {
    && c.messages != [] && OlderSettled(c) && c.confirms == []
    && var last := |c.messages| - 1;
       match c.messages[last].fate
       case AckedRouted => c.returned == []
       case AckedUnroutable => c.returned == [last]
       case _ => false
  }

  /** Closed with nothing left to read: whatever is still published on it ends as unknown. */
  ghost predicate Dead(c: Channel) { c.closed && c.confirms == [] && c.returned == [] }

  /** Fit for the next publish. */
  ghost predicate Quiet(c: Channel) { Clean(c) || Dead(c) }

  /** The message published last is the one for `job`, and its answer is the next thing to read. */
  ghost predicate Busy(c: Channel, job: nat) { (InFlight(c) && LastJob(c, job)) || Dead(c) }

  predicate LastJob(c: Channel, job: nat) {
    c.messages != [] && c.messages[|c.messages| - 1].job == job
  }

  ghost predicate ChannelInv(c: Channel) {
    if c.armed then Clean(c) || InFlight(c) || AckTaken(c) || Dead(c) else c.confirms == [] && c.returned == []
  }

  // ---------- workers and the log ----------

  ghost predicate WorkerInv(p: Pool, i: nat, w: Worker) {
    && Handles.HandlesInv(p, i, w)
    && var armed := w.ch.Some? && p.channels[w.ch.value].armed;
       match w.pc
       case Dialing => w.ch.None?
       case Receiving => armed ==> Quiet(p.channels[w.ch.value])
       case Checking(_) => armed ==> Quiet(p.channels[w.ch.value])
       case Throttled(_, retry) => !retry ==> w.ch.None?
       case Publishing(_) => w.ch.Some? && (armed ==> Quiet(p.channels[w.ch.value]))
       case Republishing(_) => w.ch.Some? && (armed ==> Quiet(p.channels[w.ch.value]))
       case Counting(job, ok) =>
         w.ch.Some? && (ok && armed ==> Busy(p.channels[w.ch.value], job))
       case Awaiting(job) => armed && Busy(p.channels[w.ch.value], job)
       case Acked(job, tag) =>
         armed && AckTaken(p.channels[w.ch.value]) && LastJob(p.channels[w.ch.value], job) &&
         tag == |p.channels[w.ch.value].messages| - 1
       case Crediting(job, evidence) =>
         if evidence.None? then w.ch.Some? && !armed
         else armed && Clean(p.channels[w.ch.value]) && w.ch == Some(evidence.value.0) &&
              Answered(p, job, evidence.value.0, evidence.value.1, AckedRouted)
       case CountingSkip(_) => w.ch.None?
       case _ => true
  }

  /** The message with delivery tag `tag` on channel `id` was published for `job` and met this fate. */
  predicate Answered(p: Pool, job: nat, id: nat, tag: nat, fate: Fate) {
    id < |p.channels| && tag < |p.channels[id].messages| && p.channels[id].messages[tag] == Message(job, fate)
  }

  /** What a log entry claims is what the broker did with that job's own message. */
  predicate Truthful(p: Pool, e: Entry) {
    match e.outcome
    case Delivered(id, tag) => Answered(p, e.job, id, tag, AckedRouted)
    case Unroutable(id, tag) => Answered(p, e.job, id, tag, AckedUnroutable)
    case Rejected(id, tag) => Answered(p, e.job, id, tag, Nacked)
    case Unconfirmed(id) => id.Some? && id.value < |p.channels| && !p.channels[id.value].armed
    case _ => true
  }

  ghost predicate PoolInv(p: Pool) {
    && (forall id :: 0 <= id < |p.channels| ==> ChannelInv(p.channels[id]))
    && (forall i :: 0 <= i < |p.workers| ==> WorkerInv(p, i, p.workers[i]))
    && (forall k :: 0 <= k < |p.log| ==> Truthful(p, p.log[k]))
  }

  // ---------- channels under single actions ----------

  /** Answered messages keep their fate, and a channel never changes hands. */
  ghost predicate Extends(c: Channel, d: Channel) {
    && d.owner == c.owner && d.armed == c.armed && |c.messages| <= |d.messages|
    && (forall t :: 0 <= t < |c.messages| && Settled(c.messages[t].fate) ==> d.messages[t] == c.messages[t])
  }

  lemma BrokerKeepsShape(c: Channel, a: BrokerAction)
    requires BrokerEnabled(c, a)
    ensures Extends(c, BrokerNext(c, a))
    ensures ChannelInv(c) ==> ChannelInv(BrokerNext(c, a))
    ensures c.armed && Clean(c) ==> Clean(BrokerNext(c, a))
    ensures c.armed && InFlight(c) ==> InFlight(BrokerNext(c, a))
    ensures c.armed && AckTaken(c) ==> AckTaken(BrokerNext(c, a))
    ensures |BrokerNext(c, a).messages| == |c.messages|
    ensures forall job :: LastJob(c, job) ==> LastJob(BrokerNext(c, a), job)
  {
  }

  lemma AppendKeepsShape(c: Channel, job: nat)
    ensures var d := c.(messages := c.messages + [Message(job, Pending)]);
            Extends(c, d) && (Quiet(c) ==> Busy(d, job)) && (Dead(c) ==> Dead(d))
  {
  }

  // ---------- the pool under one worker step ----------

  /** What a step of worker `i` leaves alone: other workers, and every channel it does not own. */
  ghost predicate Frame(p: Pool, q: Pool, i: nat) {
    && |q.workers| == |p.workers| && |p.channels| <= |q.channels|
    && (forall j :: 0 <= j < |p.workers| && j != i ==> q.workers[j] == p.workers[j])
    && (forall id :: 0 <= id < |p.channels| ==>
         Extends(p.channels[id], q.channels[id]) &&
         (p.channels[id].owner != i ==> q.channels[id] == p.channels[id]))
  }

  lemma FrameKeepsWorker(p: Pool, q: Pool, i: nat, j: nat)
    requires Frame(p, q, i) && j < |p.workers| && j != i
    requires WorkerInv(p, j, p.workers[j])
    ensures WorkerInv(q, j, q.workers[j])
  {
  }

  lemma FrameKeepsTruth(p: Pool, q: Pool, i: nat, e: Entry)
    requires Frame(p, q, i) && Truthful(p, e)
    ensures Truthful(q, e)
  {
  }

  /** Worker `i` made a step from `p` to `q` that keeps everything the invariant asks for. */
  ghost predicate GoodStep(p: Pool, q: Pool, i: nat) {
    && i < |p.workers| && Frame(p, q, i)
    && (forall id :: 0 <= id < |q.channels| ==> ChannelInv(q.channels[id]))
    && WorkerInv(q, i, q.workers[i])
    && (q.log == p.log || (|q.log| == |p.log| + 1 && q.log[..|p.log|] == p.log && Truthful(q, q.log[|p.log|])))
  }

  lemma GoodStepInv(p: Pool, q: Pool, i: nat)
    requires PoolInv(p) && GoodStep(p, q, i)
    ensures PoolInv(q)
  {
    forall j | 0 <= j < |q.workers| ensures WorkerInv(q, j, q.workers[j]) {
      if j != i { FrameKeepsWorker(p, q, i, j); }
    }
    forall k | 0 <= k < |q.log| ensures Truthful(q, q.log[k]) {
      if k < |p.log| {
        assert q.log[k] == p.log[k];
        FrameKeepsTruth(p, q, i, p.log[k]);
      }
    }
  }

  /** Only the worker itself changes. */
  lemma LocalFrame(p: Pool, q: Pool, i: nat)
    requires PoolInv(p) && i < |p.workers| && |q.workers| == |p.workers|
    requires q.workers == p.workers[i := q.workers[i]] && q.channels == p.channels
    ensures Frame(p, q, i) && forall id :: 0 <= id < |q.channels| ==> ChannelInv(q.channels[id])
  {
  }

  /** The worker also changes one of its own channels. */
  lemma ChannelFrame(p: Pool, q: Pool, i: nat, id: nat, d: Channel)
    requires PoolInv(p) && i < |p.workers| && |q.workers| == |p.workers| && id < |p.channels|
    requires q.workers == p.workers[i := q.workers[i]] && q.channels == p.channels[id := d]
    requires p.channels[id].owner == i && Extends(p.channels[id], d) && ChannelInv(d)
    ensures Frame(p, q, i) && forall id :: 0 <= id < |q.channels| ==> ChannelInv(q.channels[id])
  {
  }

  lemma OpenStep(p: Pool, i: nat, w: Worker, armed: bool, pc: WorkerPc)
    requires PoolInv(p) && i < |p.workers|
    requires pc.Receiving? || pc.Publishing? || pc.Republishing?
    ensures GoodStep(p, OpenChannel(p, i, w, armed, pc), i)
  {
  }

  /** Steps that touch no channel. */
  lemma IdleStep(s: State, i: nat, c: Choice)
    requires Enabled(s, Work(i, c)) && PoolInv(s.pool)
    requires var pc := s.pool.workers[i].pc;
             (pc.Dialing? && !c.ok) || pc.Receiving? || (pc.Redialing? && !c.ok) || pc.CountingSkip?
    ensures GoodStep(s.pool, Next(s, Work(i, c)).pool, i)
  {
    assert WorkerInv(s.pool, i, s.pool.workers[i]);
    LocalFrame(s.pool, Next(s, Work(i, c)).pool, i);
  }

  lemma CountStep(s: State, i: nat, c: Choice)
    requires Enabled(s, Work(i, c)) && PoolInv(s.pool)
    requires var pc := s.pool.workers[i].pc; pc.Checking? || pc.Counting? || pc.Crediting?
    ensures GoodStep(s.pool, Next(s, Work(i, c)).pool, i)
  {
    assert WorkerInv(s.pool, i, s.pool.workers[i]);
    LocalFrame(s.pool, Next(s, Work(i, c)).pool, i);
  }

  lemma CloseStep(s: State, i: nat, c: Choice)
    requires Enabled(s, Work(i, c)) && PoolInv(s.pool)
    requires s.pool.workers[i].pc.Throttled? || s.pool.workers[i].pc.Closing?
    ensures GoodStep(s.pool, Next(s, Work(i, c)).pool, i)
  {
    var p, w := s.pool, s.pool.workers[i];
    assert WorkerInv(p, i, w);
    if w.ch.None? {
      LocalFrame(p, Next(s, Work(i, c)).pool, i);
    } else {
      ChannelFrame(p, Next(s, Work(i, c)).pool, i, w.ch.value, p.channels[w.ch.value].(closed := true));
    }
  }

  lemma PublishStep(p: Pool, i: nat, job: nat, c: Choice)
    requires PoolInv(p) && i < |p.workers| && p.workers[i].pc == Publishing(job)
    ensures p.workers[i].ch.Some? && p.workers[i].ch.value < |p.channels|
    ensures GoodStep(p, PublishNext(p, i, p.workers[i], job, c), i)
  {
    var w := p.workers[i];
    assert WorkerInv(p, i, w);
    var q := PublishNext(p, i, w, job, c);
    var chan := p.channels[w.ch.value];
    AppendKeepsShape(chan, job);
    if c.ok || c.flag {
      ChannelFrame(p, q, i, w.ch.value, q.channels[w.ch.value]);
    } else {
      LocalFrame(p, q, i);
    }
  }

  lemma RepublishStep(s: State, i: nat, c: Choice)
    requires Enabled(s, Work(i, c)) && PoolInv(s.pool) && s.pool.workers[i].pc.Republishing?
    requires !LeavesMessage(s, Work(i, c))
    ensures GoodStep(s.pool, Next(s, Work(i, c)).pool, i)
  {
    var p, w, q := s.pool, s.pool.workers[i], Next(s, Work(i, c)).pool;
    assert WorkerInv(p, i, w);
    AppendKeepsShape(p.channels[w.ch.value], w.pc.job);
    if c.ok || c.flag {
      ChannelFrame(p, q, i, w.ch.value, q.channels[w.ch.value]);
    } else {
      LocalFrame(p, q, i);
    }
  }

  lemma AwaitStep(p: Pool, i: nat, job: nat, c: Choice)
    requires PoolInv(p) && i < |p.workers| && p.workers[i].pc == Awaiting(job)
    ensures Handles.HandlesInv(p, i, p.workers[i]) && p.workers[i].listen.Some?
    ensures GoodStep(p, AwaitNext(p, i, p.workers[i], job, c), i)
  {
  }

  lemma AckedStep(p: Pool, i: nat, job: nat, tag: nat)
    requires PoolInv(p) && i < |p.workers| && p.workers[i].pc == Acked(job, tag)
    ensures Handles.HandlesInv(p, i, p.workers[i]) && p.workers[i].listen.Some?
    ensures GoodStep(p, AckedNext(p, i, p.workers[i], job, tag), i)
  {
    var w := p.workers[i];
    assert WorkerInv(p, i, w);
    var q := AckedNext(p, i, w, job, tag);
    if p.channels[w.ch.value].returned == [] {
      LocalFrame(p, q, i);
    } else {
      ChannelFrame(p, q, i, w.ch.value, q.channels[w.ch.value]);
    }
  }

  lemma WorkStepInv(s: State, i: nat, c: Choice)
    requires Enabled(s, Work(i, c)) && PoolInv(s.pool) && !LeavesMessage(s, Work(i, c))
    ensures PoolInv(Next(s, Work(i, c)).pool)
  {
    var p, w, q := s.pool, s.pool.workers[i], Next(s, Work(i, c)).pool;
    match w.pc {
      case Publishing(job) => PublishStep(p, i, job, c);
      case Republishing(_) => RepublishStep(s, i, c);
      case Awaiting(job) => AwaitStep(p, i, job, c);
      case Acked(job, tag) => AckedStep(p, i, job, tag);
      case Throttled(_, _) => CloseStep(s, i, c);
      case Closing => CloseStep(s, i, c);
      case Redialing(job, retry) =>
        if c.ok { OpenStep(p, i, w, c.flag, if retry then Republishing(job) else Publishing(job)); }
        else { IdleStep(s, i, c); }
      case Dialing => if c.ok { OpenStep(p, i, w, c.flag, Receiving); } else { IdleStep(s, i, c); }
      case Receiving => IdleStep(s, i, c);
      case CountingSkip(_) => IdleStep(s, i, c);
      case _ => CountStep(s, i, c);
    }
    GoodStepInv(p, q, i);
  }

  lemma BrokerStepInv(p: Pool, id: nat, a: BrokerAction)
    requires PoolInv(p) && id < |p.channels| && BrokerEnabled(p.channels[id], a)
    ensures PoolInv(p.(channels := p.channels[id := BrokerNext(p.channels[id], a)]))
  {
    var q := p.(channels := p.channels[id := BrokerNext(p.channels[id], a)]);
    BrokerKeepsShape(p.channels[id], a);
    assert forall j :: 0 <= j < |p.channels| ==> Extends(p.channels[j], q.channels[j]);
    forall i | 0 <= i < |q.workers| ensures WorkerInv(q, i, q.workers[i]) {
      assert WorkerInv(p, i, p.workers[i]);
    }
    forall k | 0 <= k < |q.log| ensures Truthful(q, q.log[k]) {
      assert Truthful(p, p.log[k]);
    }
  }

  // ---------- whole runs ----------

  lemma StepInv(s: State, e: Event)
    requires PoolInv(s.pool) && Enabled(s, e) && !LeavesMessage(s, e)
    ensures PoolInv(Next(s, e).pool)
  {
    if e.Work? {
      WorkStepInv(s, e.worker, e.choice);
    } else if e.Broker? {
      BrokerStepInv(s.pool, e.chan, e.act);
    }
  }

  lemma {:induction false} RunInv(s: State, es: seq<Event>, t: State)
    requires PoolInv(s.pool) && Executes(s, es, t) && LeakFree(s, es)
    ensures PoolInv(t.pool)
    decreases |es|
  {
    if es != [] {
      StepInv(s, es[0]);
      RunInv(Next(s, es[0]), es[1..], t);
    }
  }

  lemma ReachableInv(s: State)
    requires ReachableLeakFree(s)
    ensures PoolInv(s.pool)
  {
    var es :| Executes(Init(s.cfg), es, s) && LeakFree(Init(s.cfg), es);
    RunInv(Init(s.cfg), es, s);
  }

  // ---------- main results ----------

  /**
    After every leak-free run every logged outcome is the truth about that job's own message: a
    success counted on a confirm means the broker routed and acked the message published for this
    very job, a failure counted on a return or a nack means the broker returned or rejected it.
    No job is counted twice, and a success without a confirm occurs only on a channel for which
    confirms are unavailable.
   */
  lemma Attribution(s: State)
    requires ReachableLeakFree(s)
    ensures forall k :: 0 <= k < |s.pool.log| ==> Truthful(s.pool, s.pool.log[k])
    ensures forall k, l :: 0 <= k < l < |s.pool.log| ==> s.pool.log[k].job != s.pool.log[l].job
    ensures s.pool.successes == Successes(s.pool.log)
  {
    ReachableInv(s);
    EngineCounts.ReachableInv(s);
    EachJobOnce(s);
  }

  /** If every channel of the run has confirms, each counted success is a distinct job the broker routed and acked. */
  lemma ConfirmedSuccesses(s: State, k: nat)
    requires ReachableLeakFree(s) && k < |s.pool.log| && IsSuccess(s.pool.log[k])
    requires forall id :: 0 <= id < |s.pool.channels| ==> s.pool.channels[id].armed
    ensures var e := s.pool.log[k];
            e.outcome.Delivered? && Answered(s.pool, e.job, e.outcome.chan, e.outcome.tag, AckedRouted)
  {
    Attribution(s);
    assert Truthful(s.pool, s.pool.log[k]);
  }

  /**
    In a leak-free run the streams never fill, on live and abandoned channels alike: at most one
    confirm and one return are ever unread, below the capacity of 2 * maxConcurrent the listeners
    are given. A worker that is about to publish holds a channel with nothing unread and, as long
    as it is open, nothing outstanding. (That it holds a new one after an unknown outcome is
    `EngineHandles.UnknownReplacesChannel`.)
   */
  lemma StreamsStayInSync(s: State)
    requires ReachableLeakFree(s)
    ensures forall id :: 0 <= id < |s.pool.channels| ==>
              |s.pool.channels[id].confirms| <= 1 && |s.pool.channels[id].returned| <= 1 < 2 * s.cfg.maxConcurrent
    ensures forall i :: 0 <= i < |s.pool.workers| ==>
              var w := s.pool.workers[i];
              (w.pc.Publishing? || w.pc.Republishing? ==>
                w.ch.Some? && w.ch.value < |s.pool.channels| &&
                (s.pool.channels[w.ch.value].armed ==> Quiet(s.pool.channels[w.ch.value]) && w.listen == w.ch))
  {
    ReachableInv(s);
    assert forall id :: 0 <= id < |s.pool.channels| ==> ChannelInv(s.pool.channels[id]);
    assert forall i :: 0 <= i < |s.pool.workers| ==> WorkerInv(s.pool, i, s.pool.workers[i]);
  }
}
