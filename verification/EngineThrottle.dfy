/** The reconnect throttle of a worker, over whole runs. */
module EngineThrottle {
  import opened Wrappers
  import opened Engine
  import opened EngineCounts

  ghost predicate StampsInv(now: nat, w: Worker) {
    && (w.redials == [] <==> w.lastRedial.None?)
    && (w.redials != [] ==> w.lastRedial == Some(w.redials[|w.redials| - 1]) && w.lastRedial.value <= now)
    && (forall a :: 0 <= a < |w.redials| - 1 ==> w.redials[a] + REDIAL_MIN_INTERVAL <= w.redials[a + 1])
  }

  ghost predicate Inv(s: State) {
    forall i :: 0 <= i < |s.pool.workers| ==> StampsInv(s.now, s.pool.workers[i])
  }

  /** A worker step stamps at most its own worker, with the current time, and only once the interval has passed. */
  ghost predicate StampStep(s: State, t: State, i: nat)
    requires i < |s.pool.workers|
  {
    && t.now == s.now && |t.pool.workers| == |s.pool.workers|
    && t.pool.workers == s.pool.workers[i := t.pool.workers[i]]
    && var w, w' := s.pool.workers[i], t.pool.workers[i];
       (w'.redials == w.redials && w'.lastRedial == w.lastRedial) ||
       (w'.redials == w.redials + [s.now] && w'.lastRedial == Some(s.now) &&
        (w.lastRedial.None? || s.now >= w.lastRedial.value + REDIAL_MIN_INTERVAL))
  }

  lemma ChannelStamps(s: State, i: nat, c: Choice)
    requires Enabled(s, Work(i, c)) && OnChannel(s.pool.workers[i].pc)
    ensures StampStep(s, Next(s, Work(i, c)), i)
  {
  }

  lemma WorkStamps(s: State, i: nat, c: Choice)
    requires Enabled(s, Work(i, c))
    ensures StampStep(s, Next(s, Work(i, c)), i)
  {
    if OnChannel(s.pool.workers[i].pc) { ChannelStamps(s, i, c); }
  }

  lemma StepInv(s: State, e: Event)
    requires Inv(s) && Enabled(s, e)
    ensures Inv(Next(s, e))
  {
    if e.Work? {
      WorkStamps(s, e.worker, e.choice);
      var t := Next(s, e);
      forall j | 0 <= j < |t.pool.workers| ensures StampsInv(t.now, t.pool.workers[j]) {
        assert StampsInv(s.now, s.pool.workers[j]);
      }
    }
  }

  lemma {:induction false} RunInv(s: State, es: seq<Event>, t: State)
    requires Inv(s) && Executes(s, es, t)
    ensures Inv(t)
    decreases |es|
  {
    if es != [] {
      StepInv(s, es[0]);
      RunInv(Next(s, es[0]), es[1..], t);
    }
  }

  lemma ReachableInv(s: State)
    requires Reachable(s)
    ensures Inv(s)
  {
    var es :| Executes(Init(s.cfg), es, s);
    RunInv(Init(s.cfg), es, s);
  }

  lemma {:induction false} StampsApart(r: seq<nat>, a: nat, b: nat)
    requires a <= b < |r|
    requires forall k :: 0 <= k < |r| - 1 ==> r[k] + REDIAL_MIN_INTERVAL <= r[k + 1]
    ensures r[b] >= r[a] + REDIAL_MIN_INTERVAL * (b - a)
    decreases b
  {
    if a < b { StampsApart(r, a, b - 1); }
  }

  /**
    Whatever sequence of publish, confirm and dial failures occurs: if a worker's redials from
    the a-th to the b-th fall into a window of `window` milliseconds, they are at most
    window / 1000 + 1 many.
   */
  lemma RedialsPerWindow(s: State, i: nat, a: nat, b: nat, window: nat)
    requires Reachable(s) && i < |s.pool.workers|
    requires a <= b < |s.pool.workers[i].redials|
    requires s.pool.workers[i].redials[b] <= s.pool.workers[i].redials[a] + window
    ensures b - a + 1 <= window / 1000 + 1
  {
    ReachableInv(s);
    assert StampsInv(s.now, s.pool.workers[i]);
    StampsApart(s.pool.workers[i].redials, a, b);
  }
}
