/**
  The publish run engine of extrabbitmq/publish.go as a state machine.

  The processes of one run are the caller of `start`, the ticker goroutine, `maxConcurrent`
  publisher workers, any number of concurrent `stop` and Status calls, and the broker. Every
  event is one atomic action of one process; a run is any sequence of enabled events, so a
  statement about all runs is a statement about all interleavings. What the code leaves to the
  network (dial, publish and confirm results, timeouts) is chosen by the event.
 */
module Engine {
  import opened Wrappers
  import SuccessRate

  /** Minimum time between two reconnect attempts of one worker, in milliseconds. */
  const REDIAL_MIN_INTERVAL: nat := 1000

  /** `limit` is the number of messages of a fixed-amount run and absent for a periodic run. */
  datatype Config = Config(maxConcurrent: nat, limit: Option<nat>, successRate: int)

  // ---------- the broker's side ----------

  /** What the broker did with one message. Returned means basic.return was sent and the ack is still due. */
  datatype Fate = Pending | Returned | AckedRouted | AckedUnroutable | Nacked

  datatype Message = Message(job: nat, fate: Fate)

  datatype Confirm = Confirm(tag: nat, ack: bool)

  /**
    An AMQP channel with the streams registered on it. The delivery tag of a message is its
    index in `messages`. `armed` says that publisher confirms are enabled; `closed` that the
    streams are closed, in which case elements already buffered can still be read.
   */
  datatype Channel = Channel(owner: nat, armed: bool, closed: bool, messages: seq<Message>,
                             confirms: seq<Confirm>, returned: seq<nat>)

  // ---------- workers ----------

  /** How the attempt for one job ended, with the channel and delivery tag the worker relied on. */
  datatype Outcome =
    | Delivered(chan: nat, tag: nat)   // acked, no return read
    | Unconfirmed(on: Option<nat>)      // counted as success because the channel has no confirms
    | Unroutable(chan: nat, tag: nat)  // acked, and this return was read
    | Rejected(chan: nat, tag: nat)    // nacked
    | Unknown                          // timeout or closed confirm stream
    | PublishFailed                    // publish failed and so did the retry
    | ConnectFailed                    // no channel, and the redial failed

  datatype Entry = Entry(job: nat, outcome: Outcome)

  datatype WorkerPc =
    | Dialing
    | Receiving
    | Checking(job: nat)
    | Throttled(job: nat, retry: bool)
    | Redialing(job: nat, retry: bool)
    | Publishing(job: nat)
    | Counting(job: nat, ok: bool)
    | CountingSkip(job: nat)
    | Republishing(job: nat)
    | Awaiting(job: nat)
    | Acked(job: nat, tag: nat)
    | Crediting(job: nat, evidence: Option<(nat, nat)>)
    | Closing
    | Exited(connected: bool)

  /** `ch` is the local `ch`/`conn` pair, `listen` the local `confirms`/`returns` pair. */
  datatype Worker = Worker(pc: WorkerPc, ch: Option<nat>, listen: Option<nat>,
                           lastRedial: Option<nat>, redials: seq<nat>)

  // ---------- start, ticker and callers ----------

  datatype StartPc = NotCalled | FirstSend | Spawning | StartReturned | StartReturnedEarly

  datatype TickerPc = NotStarted | Outer | Holding | Leaving | TickerExited

  datatype Once = Unused | Running(owner: nat) | Done

  datatype CallKind = StopCall | StatusCall

  datatype CallResult =
    | NoRunData
    | StatusReport(completed: bool)
    | Verdict(drained: bool, total: nat, good: nat, failed: bool)

  datatype CallerPc =
    | Loading
    | CheckingEnd
    | EnterStop | StopTimer | CloseStop | LeaveStop
    | WaitTicker
    | EnterJobs | CloseJobs | LeaveJobs
    | WaitWorkers
    | LoadTotal(drained: bool)
    | LoadSuccess(drained: bool, total: nat)
    | Deleting(drained: bool, total: nat, good: nat)
    | CallReturned(result: CallResult)

  datatype Caller = Caller(kind: CallKind, pc: CallerPc)

  /** The run-time panics a Go program of this shape can die of. */
  datatype Fault = SendOnClosedJobs | JobsClosedTwice | StopTickerClosedTwice | TickerDoneClosedTwice | NilChannel

  /**
    The `jobs` channel is first-in first-out, so it is described by the number of jobs sent
    and received: job ids count the sends, and the buffer holds the ids received..sent-1.
    `skipped`, `published` and `log` are history: jobs dropped because the run had ended,
    publish calls that succeeded, and how every counted attempt ended.
   */
  datatype State = State(
    cfg: Config,
    now: nat,
    sent: nat, received: nat, jobsClosed: bool,
    ctl: Control,
    pool: Pool,
    fault: Option<Fault>)

  /** What start, the ticker goroutine and the calls work on. */
  datatype Control = Control(
    start: StartPc, ticker: TickerPc, timerLive: bool, tickerDoneClosed: bool,
    stopClosed: bool, stopOnce: Once, jobsOnce: Once, inMap: bool,
    callers: seq<Caller>)

  /** What the workers and the broker work on. */
  datatype Pool = Pool(
    workers: seq<Worker>, channels: seq<Channel>,
    requests: nat, successes: nat,
    skipped: nat, published: nat, log: seq<Entry>)

  const FreshWorker := Worker(Dialing, None, None, None, [])

  /** The state `prepareCommon` leaves behind: run data registered, all workers spawned. */
  function Init(cfg: Config): State {
    State(cfg, 0, 0, 0, false,
          Control(NotCalled, NotStarted, false, false, false, Unused, Unused, true, []),
          Pool(seq(cfg.maxConcurrent, _ => FreshWorker), [], 0, 0, 0, 0, []),
          None)
  }

  // ---------- events ----------

  /** `ok`: the network call succeeded, or a confirm event is read rather than the timeout.
      `flag`: confirms could be enabled on a new channel, or a failed publish left its message behind. */
  datatype Choice = Choice(ok: bool, flag: bool)

  datatype BrokerAction = Return(tag: nat) | Ack(tag: nat) | Nack(tag: nat) | Drop

  datatype TickerAction = Tick | Send | SeeStop | SignalDone

  datatype StartAction = Begin | SendFirst | SeeStopEarly | Spawn

  datatype Event =
    | Clock(delta: nat)
    | Start(step: StartAction)
    | Ticker(action: TickerAction)
    | Work(worker: nat, choice: Choice)
    | Broker(chan: nat, act: BrokerAction)
    | Invoke(kind: CallKind)
    | Call(caller: nat, drained: bool)

  predicate JobsFull(s: State) { s.sent >= s.received + s.cfg.maxConcurrent }

  /** `checkEnded`: never for a periodic run, the attempt counter against the limit otherwise. */
  predicate Ended(cfg: Config, requests: nat) { cfg.limit.Some? && requests >= cfg.limit.value }

  predicate AllExited(ws: seq<Worker>) { forall i :: 0 <= i < |ws| ==> ws[i].pc.Exited? }

  predicate Enabled(s: State, e: Event) {
    s.fault.None? &&
    match e
    case Clock(_) => true
    case Start(a) => StartEnabled(s, a)
    case Ticker(a) => TickerEnabled(s, a)
    case Work(i, c) => i < |s.pool.workers| && WorkEnabled(s, i, c)
    case Broker(c, a) => c < |s.pool.channels| && BrokerEnabled(s.pool.channels[c], a)
    case Invoke(kind) => InvokeEnabled(s.ctl, kind)
    case Call(k, drained) => k < |s.ctl.callers| && CallEnabled(s, k, drained)
  }

  function Next(s: State, e: Event): State
    requires Enabled(s, e)
  {
    match e
    case Clock(d) => s.(now := s.now + d)
    case Start(a) => StartNext(s, a)
    case Ticker(a) => TickerNext(s, a)
    case Work(i, c) => WorkNext(s, i, c)
    case Broker(c, a) =>
      s.(pool := s.pool.(channels := s.pool.channels[c := BrokerNext(s.pool.channels[c], a)]))
    case Invoke(kind) => s.(ctl := s.ctl.(callers := s.ctl.callers + [Caller(kind, Loading)]))
    case Call(k, drained) => CallNext(s, k, drained)
  }

  /** `es` is a run from `s` to `t`. */
  predicate Executes(s: State, es: seq<Event>, t: State)
    decreases |es|
  {
    if es == [] then s == t
    else Enabled(s, es[0]) && Executes(Next(s, es[0]), es[1..], t)
  }

  ghost predicate Reachable(s: State) {
    s.cfg.maxConcurrent >= 1 && exists es :: Executes(Init(s.cfg), es, s)
  }

  /**
    A failing retry leaves its message with the broker, on an open channel with confirms that the
    worker goes on using.
   */
  predicate LeavesMessage(s: State, e: Event) {
    e.Work? && e.worker < |s.pool.workers| &&
    var w := s.pool.workers[e.worker];
    w.pc.Republishing? && !e.choice.ok && e.choice.flag &&
    w.ch.Some? && w.ch.value < |s.pool.channels| &&
    s.pool.channels[w.ch.value].armed && !s.pool.channels[w.ch.value].closed
  }

  /** A run in which no failing retry leaves its message behind. */
  ghost predicate LeakFree(s: State, es: seq<Event>)
    decreases |es|
  {
    es == [] || (Enabled(s, es[0]) && !LeavesMessage(s, es[0]) && LeakFree(Next(s, es[0]), es[1..]))
  }

  /** Reachable by such a run. */
  ghost predicate ReachableLeakFree(s: State) {
    s.cfg.maxConcurrent >= 1 && exists es :: Executes(Init(s.cfg), es, s) && LeakFree(Init(s.cfg), es)
  }

  lemma {:induction false} ExecutesConcat(s: State, es: seq<Event>, m: State, fs: seq<Event>, t: State)
    requires Executes(s, es, m) && Executes(m, fs, t)
    ensures Executes(s, es + fs, t)
    decreases |es|
  {
    if es == [] {
      assert es + fs == fs;
    } else {
      assert (es + fs)[1..] == es[1..] + fs;
      ExecutesConcat(Next(s, es[0]), es[1..], m, fs, t);
    }
  }

  /** Extends a run by one event. */
  lemma Extend(s: State, es: seq<Event>, m: State, e: Event) returns (fs: seq<Event>, t: State)
    requires Executes(s, es, m) && Enabled(m, e)
    ensures fs == es + [e] && t == Next(m, e) && Executes(s, fs, t)
  {
    fs, t := es + [e], Next(m, e);
    assert [e][1..] == [];
    assert Executes(m, [e], t);
    ExecutesConcat(s, es, m, [e], t);
  }

  // ---------- start and the ticker goroutine ----------

  predicate StartEnabled(s: State, a: StartAction) {
    match a
    case Begin => s.ctl.start.NotCalled? && s.ctl.callers == []  // Start precedes every Status and Stop
    case SendFirst => s.ctl.start.FirstSend? && (s.jobsClosed || !JobsFull(s))
    case SeeStopEarly => s.ctl.start.FirstSend? && s.ctl.stopClosed
    case Spawn => s.ctl.start.Spawning?
  }

  function StartNext(s: State, a: StartAction): State
    requires StartEnabled(s, a)
  {
    match a
    case Begin =>
      s.(ctl := s.ctl.(timerLive := true, stopClosed := false, tickerDoneClosed := false, start := FirstSend))
    case SendFirst =>
      if s.jobsClosed then s.(fault := Some(SendOnClosedJobs))
      else s.(sent := s.sent + 1, ctl := s.ctl.(start := Spawning))
    case SeeStopEarly => s.(ctl := s.ctl.(start := StartReturnedEarly))
    case Spawn => s.(ctl := s.ctl.(start := StartReturned, ticker := Outer))
  }

  predicate TickerEnabled(s: State, a: TickerAction) {
    match a
    case Tick => s.ctl.ticker.Outer? && s.ctl.timerLive
    case Send => s.ctl.ticker.Holding? && (s.jobsClosed || !JobsFull(s))
    case SeeStop => (s.ctl.ticker.Outer? || s.ctl.ticker.Holding?) && s.ctl.stopClosed
    case SignalDone => s.ctl.ticker.Leaving?
  }

  function TickerNext(s: State, a: TickerAction): State
    requires TickerEnabled(s, a)
  {
    match a
    case Tick => s.(ctl := s.ctl.(ticker := Holding))
    case Send =>
      if s.jobsClosed then s.(fault := Some(SendOnClosedJobs))
      else s.(sent := s.sent + 1, ctl := s.ctl.(ticker := Outer))
    case SeeStop => s.(ctl := s.ctl.(ticker := Leaving))
    case SignalDone =>
      if s.ctl.tickerDoneClosed then s.(fault := Some(TickerDoneClosedTwice))
      else s.(ctl := s.ctl.(tickerDoneClosed := true, ticker := TickerExited))
  }

  // ---------- the broker ----------

  /** The broker sends a return only before the ack of the same message, and never with a nack. */
  predicate BrokerEnabled(c: Channel, a: BrokerAction) {
    !c.closed &&
    match a
    case Return(t) => c.armed && t < |c.messages| && c.messages[t].fate.Pending?
    case Ack(t) => c.armed && t < |c.messages| && (c.messages[t].fate.Pending? || c.messages[t].fate.Returned?)
    case Nack(t) => c.armed && t < |c.messages| && c.messages[t].fate.Pending?
    case Drop => true
  }

  function BrokerNext(c: Channel, a: BrokerAction): Channel
    requires BrokerEnabled(c, a)
  {
    match a
    case Return(t) => SetFate(c, t, Returned).(returned := c.returned + [t])
    case Ack(t) =>
      SetFate(c, t, if c.messages[t].fate.Pending? then AckedRouted else AckedUnroutable)
        .(confirms := c.confirms + [Confirm(t, true)])
    case Nack(t) => SetFate(c, t, Nacked).(confirms := c.confirms + [Confirm(t, false)])
    case Drop => c.(closed := true)
  }

  function SetFate(c: Channel, t: nat, fate: Fate): Channel
    requires t < |c.messages|
  {
    c.(messages := c.messages[t := c.messages[t].(fate := fate)])
  }

  // ---------- workers ----------

  predicate HandleOk(p: Pool, h: Option<nat>) { h.None? || h.value < |p.channels| }

  predicate WorkEnabled(s: State, i: nat, c: Choice)
    requires i < |s.pool.workers|
  {
    var w := s.pool.workers[i];
    HandleOk(s.pool, w.ch) && HandleOk(s.pool, w.listen) &&
    match w.pc
    case Receiving => s.received < s.sent || s.jobsClosed
    case Throttled(_, _) => w.lastRedial.None? || s.now >= w.lastRedial.value + REDIAL_MIN_INTERVAL
    case Awaiting(_) =>
      w.listen.Some? &&
      (c.ok ==> s.pool.channels[w.listen.value].confirms != [] || s.pool.channels[w.listen.value].closed)
    case Acked(_, _) => w.listen.Some?
    case Exited(_) => false
    case _ => true
  }

  function WorkNext(s: State, i: nat, c: Choice): State
    requires i < |s.pool.workers| && WorkEnabled(s, i, c)
  {
    var w := s.pool.workers[i];
    if (w.pc.Publishing? || w.pc.Republishing?) && w.ch.None? then s.(fault := Some(NilChannel))
    else if w.pc.Receiving? && s.received < s.sent then
      s.(received := s.received + 1, pool := SetWorker(s.pool, i, w.(pc := Checking(s.received))))
    else s.(pool := PoolNext(s, i, c))
  }

  function SetWorker(p: Pool, i: nat, w: Worker): Pool
    requires i < |p.workers|
  {
    p.(workers := p.workers[i := w])
  }

  function SetChannel(p: Pool, id: nat, c: Channel): Pool
    requires id < |p.channels|
  {
    p.(channels := p.channels[id := c])
  }

  /** Worker `i` finishes its job: the attempt is logged and the worker returns to the job loop. */
  function Resolve(p: Pool, i: nat, w: Worker, entry: Entry): Pool
    requires i < |p.workers|
  {
    p.(workers := p.workers[i := w.(pc := Receiving)], log := p.log + [entry])
  }

  function CloseHandle(p: Pool, h: Option<nat>): Pool
    requires HandleOk(p, h)
  {
    if h.None? then p else SetChannel(p, h.value, p.channels[h.value].(closed := true))
  }

  /** A new channel with `armChannel` applied; `armed` says whether confirms could be enabled. */
  function OpenChannel(p: Pool, i: nat, w: Worker, armed: bool, pc: WorkerPc): Pool
    requires i < |p.workers|
  {
    var id := |p.channels|;
    p.(channels := p.channels + [Channel(i, armed, false, [], [], [])],
       workers := p.workers[i := w.(pc := pc, ch := Some(id), listen := if armed then Some(id) else None)])
  }

  /** A message for `job` goes out on channel `id`. */
  function Append(p: Pool, id: nat, job: nat): Pool
    requires id < |p.channels|
  {
    SetChannel(p, id, p.channels[id].(messages := p.channels[id].messages + [Message(job, Pending)]))
  }

  /** Where a worker goes once its message is out: wait for the confirm, or count it at once. */
  function AfterPublish(w: Worker, job: nat): WorkerPc {
    if w.listen.None? then Crediting(job, None) else Awaiting(job)
  }

  function PublishNext(p: Pool, i: nat, w: Worker, job: nat, c: Choice): Pool
    requires i < |p.workers| && w.ch.Some? && w.ch.value < |p.channels|
  {
    if c.ok then
      SetWorker(Append(p, w.ch.value, job), i, w.(pc := Counting(job, true))).(published := p.published + 1)
    else
      SetWorker(if c.flag then Append(p, w.ch.value, job) else p, i, w.(pc := Counting(job, false)))
  }

  function RepublishNext(p: Pool, i: nat, w: Worker, job: nat, c: Choice): Pool
    requires i < |p.workers| && w.ch.Some? && w.ch.value < |p.channels|
  {
    if c.ok then
      SetWorker(Append(p, w.ch.value, job), i, w.(pc := AfterPublish(w, job))).(published := p.published + 1)
    else
      Resolve(if c.flag then Append(p, w.ch.value, job) else p, i, w, Entry(job, PublishFailed))
  }

  /** The first select of `awaitPublishOutcome`. An unknown outcome drops the connection, so the next job redials. */
  function AwaitNext(p: Pool, i: nat, w: Worker, job: nat, c: Choice): Pool
    requires i < |p.workers| && HandleOk(p, w.ch) && HandleOk(p, w.listen) && w.listen.Some?
  {
    var id := w.listen.value;
    var chan := p.channels[id];
    if !c.ok || chan.confirms == [] then
      Resolve(CloseHandle(p, w.ch), i, w.(ch := None, listen := None), Entry(job, Unknown))
    else
      var head := chan.confirms[0];
      var p1 := SetChannel(p, id, chan.(confirms := chan.confirms[1..]));
      if head.ack then SetWorker(p1, i, w.(pc := Acked(job, head.tag)))
      else Resolve(p1, i, w, Entry(job, Rejected(id, head.tag)))
  }

  /** The second, non-blocking select of `awaitPublishOutcome`. */
  function AckedNext(p: Pool, i: nat, w: Worker, job: nat, tag: nat): Pool
    requires i < |p.workers| && HandleOk(p, w.listen) && w.listen.Some?
  {
    var id := w.listen.value;
    var chan := p.channels[id];
    if chan.returned == [] then SetWorker(p, i, w.(pc := Crediting(job, Some((id, tag)))))
    else
      Resolve(SetChannel(p, id, chan.(returned := chan.returned[1..])), i, w,
              Entry(job, Unroutable(id, chan.returned[0])))
  }

  /** Every worker step other than taking a job from the channel. */
  function PoolNext(s: State, i: nat, c: Choice): Pool
    requires i < |s.pool.workers| && WorkEnabled(s, i, c)
    requires s.pool.workers[i].pc.Publishing? || s.pool.workers[i].pc.Republishing? ==> s.pool.workers[i].ch.Some?
  {
    var p, w := s.pool, s.pool.workers[i];
    match w.pc
    case Dialing =>
      if c.ok then OpenChannel(p, i, w, c.flag, Receiving)
      else SetWorker(p, i, w.(pc := Exited(false)))
    case Receiving => SetWorker(p, i, w.(pc := Closing))
    case Checking(job) =>
      if Ended(s.cfg, p.requests) then SetWorker(p, i, w.(pc := Receiving)).(skipped := p.skipped + 1)
      else SetWorker(p, i, w.(pc := if w.ch.None? then Throttled(job, false) else Publishing(job)))
    case Throttled(job, retry) =>
      SetWorker(CloseHandle(p, w.ch), i,
                w.(pc := Redialing(job, retry), lastRedial := Some(s.now), redials := w.redials + [s.now]))
    case Redialing(job, retry) =>
      if c.ok then OpenChannel(p, i, w, c.flag, if retry then Republishing(job) else Publishing(job))
      else if retry then Resolve(p, i, w.(ch := None), Entry(job, PublishFailed))
      else SetWorker(p, i, w.(pc := CountingSkip(job), ch := None))
    case CountingSkip(job) =>
      Resolve(p, i, w, Entry(job, ConnectFailed)).(requests := p.requests + 1)
    case Publishing(job) => PublishNext(p, i, w, job, c)
    case Counting(job, ok) =>
      SetWorker(p, i, w.(pc := if ok then AfterPublish(w, job) else Throttled(job, true)))
        .(requests := p.requests + 1)
    case Republishing(job) => RepublishNext(p, i, w, job, c)
    case Awaiting(job) => AwaitNext(p, i, w, job, c)
    case Acked(job, tag) => AckedNext(p, i, w, job, tag)
    case Crediting(job, evidence) =>
      var outcome := if evidence.None? then Unconfirmed(w.ch) else Delivered(evidence.value.0, evidence.value.1);
      Resolve(p, i, w, Entry(job, outcome)).(successes := p.successes + 1)
    case Closing => SetWorker(CloseHandle(p, w.ch), i, w.(pc := Exited(true)))
  }

  // ---------- stop and Status calls ----------

  /** Stop and Status come after Start returned; a prepared run may also be stopped without a Start. */
  predicate InvokeEnabled(ctl: Control, kind: CallKind) {
    ctl.start.StartReturned? || ctl.start.StartReturnedEarly? || (kind.StopCall? && ctl.start.NotCalled?)
  }

  predicate CallEnabled(s: State, k: nat, drained: bool)
    requires k < |s.ctl.callers|
  {
    match s.ctl.callers[k].pc
    case EnterStop => !s.ctl.stopOnce.Running?
    case EnterJobs => !s.ctl.jobsOnce.Running?
    case WaitTicker => s.ctl.start.NotCalled? || s.ctl.tickerDoneClosed
    case WaitWorkers => drained ==> AllExited(s.pool.workers)
    case CallReturned(_) => false
    case _ => true
  }

  /** The next program point of call `k`. */
  function CallPc(s: State, k: nat, drained: bool): CallerPc
    requires k < |s.ctl.callers| && CallEnabled(s, k, drained)
  {
    var afterStop := if s.ctl.callers[k].kind.StopCall? then WaitTicker else CallReturned(StatusReport(true));
    match s.ctl.callers[k].pc
    case Loading =>
      if !s.ctl.inMap then CallReturned(NoRunData)
      else if s.ctl.callers[k].kind.StopCall? then EnterStop else CheckingEnd
    case CheckingEnd => if Ended(s.cfg, s.pool.requests) then EnterStop else CallReturned(StatusReport(false))
    case EnterStop => if s.ctl.stopOnce.Done? then afterStop else StopTimer
    case StopTimer => CloseStop
    case CloseStop => LeaveStop
    case LeaveStop => afterStop
    case WaitTicker => EnterJobs
    case EnterJobs => if s.ctl.jobsOnce.Done? then WaitWorkers else CloseJobs
    case CloseJobs => LeaveJobs
    case LeaveJobs => WaitWorkers
    case WaitWorkers => LoadTotal(drained)
    case LoadTotal(d) => if s.pool.requests > 0 then LoadSuccess(d, s.pool.requests) else Deleting(d, 0, 0)
    case LoadSuccess(d, total) => Deleting(d, total, s.pool.successes)
    case Deleting(d, total, good) =>
      CallReturned(Verdict(d, total, good, SuccessRate.BelowRate(s.cfg.successRate, total, good)))
  }

  /** A call advances; closing a channel that is already closed panics. */
  function CallNext(s: State, k: nat, drained: bool): State
    requires k < |s.ctl.callers| && CallEnabled(s, k, drained)
  {
    var pc := s.ctl.callers[k].pc;
    if pc.CloseStop? && s.ctl.stopClosed then s.(fault := Some(StopTickerClosedTwice))
    else if pc.CloseJobs? && s.jobsClosed then s.(fault := Some(JobsClosedTwice))
    else
      s.(jobsClosed := s.jobsClosed || pc.CloseJobs?,
         ctl := s.ctl.(
           callers := s.ctl.callers[k := s.ctl.callers[k].(pc := CallPc(s, k, drained))],
           stopOnce := OnceNext(s.ctl.stopOnce, k, pc.EnterStop?, pc.LeaveStop?),
           timerLive := s.ctl.timerLive && !pc.StopTimer?,
           stopClosed := s.ctl.stopClosed || pc.CloseStop?,
           jobsOnce := OnceNext(s.ctl.jobsOnce, k, pc.EnterJobs?, pc.LeaveJobs?),
           inMap := s.ctl.inMap && !pc.Deleting?))
  }

  /** sync.Once: the first call to enter runs the body, later ones find it done. */
  function OnceNext(o: Once, k: nat, enter: bool, leave: bool): Once {
    if enter && !o.Done? then Running(k) else if leave then Done else o
  }
}
