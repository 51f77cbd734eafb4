/**
  The temporary policy of extrabbitmq/alter_queue_max_length.go: it takes effect for the target
  queue alone, and exactly when stopping the attack leaves the policies as they were.
 */
module PolicyAttack {
  import opened Wrappers
  import opened PolicyPattern

  datatype Policy = Policy(pattern: string, applyTo: string, priority: int, maxLength: int)

  /** The policies of one vhost, by name. */
  type Policies = map<string, Policy>

  // ---------- the scan of existing policies ----------

  /** Go's regexp package: None if the pattern does not compile, else whether it matches the name. */
  type Scanner = (string, string) -> Option<bool>

  /** The policies `highestPriorityForQueue` takes into account for a queue. */
  predicate Scanned(scan: Scanner, p: Policy, queue: string) {
    (p.applyTo == "" || p.applyTo == "queues" || p.applyTo == "all") && p.pattern != "" &&
    scan(p.pattern, queue) == Some(true)
  }

  /** The highest priority of a scanned policy, and at least 0. */
  ghost predicate IsHighest(ps: Policies, scan: Scanner, queue: string, h: int) {
    && h >= 0
    && (forall n :: n in ps && Scanned(scan, ps[n], queue) ==> ps[n].priority <= h)
    && (h == 0 || exists n :: n in ps && Scanned(scan, ps[n], queue) && ps[n].priority == h)
  }

  /**
    The scan loop, over the policies in whatever order the broker lists them. The result bounds the
    priority of every policy that names queues, all or nothing as what it applies to and has a
    non-empty pattern that compiles and matches; and unless it is 0 it is the priority of one.
   */
  method HighestPriorityForQueue(listed: seq<Policy>, scan: Scanner, queue: string) returns (highest: int)
    ensures highest >= 0
    ensures forall p ::
              (p in listed && p.applyTo in {"", "queues", "all"} && p.pattern != "" && scan(p.pattern, queue) == Some(true)
               ==> p.priority <= highest)
    ensures highest == 0 ||
            exists p :: p in listed && p.applyTo in {"", "queues", "all"} && p.pattern != "" &&
                        scan(p.pattern, queue) == Some(true) && p.priority == highest
    ensures forall i :: 0 <= i < |listed| && Scanned(scan, listed[i], queue) ==> listed[i].priority <= highest
    ensures highest == 0 || exists i :: 0 <= i < |listed| && Scanned(scan, listed[i], queue) && listed[i].priority == highest
  {
    var max, found := 0, false;
    for k := 0 to |listed|
      invariant max >= 0 && (!found ==> max == 0)
      invariant forall i :: 0 <= i < k && Scanned(scan, listed[i], queue) ==> found && listed[i].priority <= max
      invariant max == 0 || exists i :: 0 <= i < k && Scanned(scan, listed[i], queue) && listed[i].priority == max
    {
      var p := listed[k];
      if p.applyTo != "" && p.applyTo != "queues" && p.applyTo != "all" {
        continue;
      }
      if p.pattern == "" {
        continue;
      }
      var compiled := scan(p.pattern, queue);
      if compiled.None? {
        continue;
      }
      if compiled.value {
        found := true;
        if p.priority > max {
          max := p.priority;
        }
      }
    }
    return if found then max else 0;
  }

  // ---------- the broker ----------

  /**
    How the broker applies a policy: `search` is its regular-expression engine, `covers` says
    whether an apply-to value includes a given queue.
   */
  datatype Rules = Rules(search: (string, string) -> bool, covers: (string, string) -> bool)

  /** Queues are covered by "queues", and literals and anchors mean what they mean in the broker's engine. */
  ghost predicate Sound(rules: Rules) {
    && (forall q :: rules.covers("queues", q))
    && (forall pattern, q :: IsSimple(Tokenize(pattern)) ==>
          (rules.search(pattern, q) <==> Matches(Tokenize(pattern), q, true)))
  }

  predicate Applies(rules: Rules, p: Policy, queue: string) {
    rules.covers(p.applyTo, queue) && rules.search(p.pattern, queue)
  }

  /** The effective policy of a queue is one of the highest-priority policies that apply to it. */
  predicate IsEffective(rules: Rules, ps: Policies, name: string, queue: string) {
    name in ps && Applies(rules, ps[name], queue) &&
    forall n :: n in ps && Applies(rules, ps[n], queue) ==> ps[n].priority <= ps[name].priority
  }

  function Effective(rules: Rules, ps: Policies, queue: string): set<string> {
    set n | n in ps && IsEffective(rules, ps, n, queue)
  }

  /** What becomes of a call that changes policies: a call that reports an error may have been applied. */
  datatype CallOutcome = Applied | NotApplied | AppliedButFailed

  class Broker {
    var policies: Policies

    constructor (policies: Policies)
      ensures this.policies == policies
    {
      this.policies := policies;
    }

    /** The policies of the vhost, in an arbitrary order. */
    method List() returns (listed: seq<Policy>)
      ensures forall p :: p in listed <==> p in policies.Values
    {
      listed := [];
      var todo := policies.Keys;
      while todo != {}
        invariant todo <= policies.Keys
        invariant forall p :: p in listed <==> exists n :: n in policies && n !in todo && policies[n] == p
        decreases |todo|
      {
        var n :| n in todo;
        listed := listed + [policies[n]];
        todo := todo - {n};
      }
    }

    method Put(name: string, p: Policy, outcome: CallOutcome) returns (ok: bool)
      modifies this
      ensures ok == outcome.Applied?
      ensures policies == if outcome.NotApplied? then old(policies) else old(policies)[name := p]
    {
      if !outcome.NotApplied? {
        policies := policies[name := p];
      }
      ok := outcome.Applied?;
    }

    /** `safeDeletePolicy`: a missing policy is an error too. */
    method Delete(name: string, outcome: CallOutcome) returns (ok: bool)
      modifies this
      ensures ok == (outcome.Applied? && name in old(policies))
      ensures policies == if outcome.NotApplied? then old(policies) else old(policies) - {name}
    {
      ok := outcome.Applied? && name in policies;
      if !outcome.NotApplied? {
        policies := policies - {name};
      }
    }
  }

  // ---------- the attack ----------

  function PolicyName(queue: string, suffix: string): string { "steadybit-alter-maxlen-" + queue + "-" + suffix }

  /** Attacks on different queues, or with different suffixes of the same length, never share a policy. */
  lemma PolicyNamesDiffer(q1: string, s1: string, q2: string, s2: string)
    requires |s1| == |s2|
    ensures PolicyName(q1, s1) == PolicyName(q2, s2) <==> q1 == q2 && s1 == s2
  {
    var prefix, a, b := "steadybit-alter-maxlen-", PolicyName(q1, s1), PolicyName(q2, s2);
    assert a[|prefix|..] == q1 + "-" + s1 && b[|prefix|..] == q2 + "-" + s2;
    assert a[|a| - |s1|..] == s1 && b[|b| - |s2|..] == s2;
    assert (q1 + "-" + s1)[..|q1|] == q1 && (q2 + "-" + s2)[..|q2|] == q2;
  }

  function TempPolicy(queue: string, highest: int, maxLength: int): Policy {
    Policy(Pattern(queue), "queues", highest + 1, maxLength)
  }

  /** What the network makes of the calls of a Start: `cleanup` is the delete that follows a failing put. */
  datatype Calls = Calls(listOk: bool, put: CallOutcome, cleanup: CallOutcome)

  class Attack {
    const queue: string
    const maxLength: int
    var policyName: string

    constructor (queue: string, maxLength: int)
      ensures this.queue == queue && this.maxLength == maxLength && policyName == ""
    {
      this.queue, this.maxLength, policyName := queue, maxLength, "";
    }

    /** `Start`. The name of the new policy is recorded only once the put has succeeded. */
    method Start(broker: Broker, scan: Scanner, suffix: string, calls: Calls) returns (ok: bool)
      modifies this, broker
      ensures ok == (calls.listOk && calls.put.Applied?)
      ensures policyName == if ok then PolicyName(queue, suffix) else old(policyName)
      ensures !calls.listOk ==> broker.policies == old(broker.policies)
      ensures calls.listOk ==>
                exists h :: IsHighest(old(broker.policies), scan, queue, h) &&
                  var policy := Policy(Pattern(queue), "queues", h + 1, maxLength);
                  var after := if calls.put.NotApplied? then old(broker.policies)
                               else old(broker.policies)[PolicyName(queue, suffix) := policy];
                  broker.policies == if ok || calls.cleanup.NotApplied? then after else after - {old(policyName)}
    {
      var name := PolicyName(queue, suffix);
      if !calls.listOk {
        return false;
      }
      var listed := broker.List();
      var highest := HighestPriorityForQueue(listed, scan, queue);
      assert IsHighest(broker.policies, scan, queue, highest) by {
        HighestOfListed(broker.policies, listed, scan, queue, highest);
      }
      ok := broker.Put(name, TempPolicy(queue, highest, maxLength), calls.put);
      if !ok {
        var found := broker.Delete(policyName, calls.cleanup);
        return false;
      }
      policyName := name;
    }

    /** `Stop`: nothing to do without a policy; a missing policy is reported. */
    method Stop(broker: Broker, outcome: CallOutcome) returns (ok: bool)
      modifies broker
      ensures policyName == "" ==> ok && broker.policies == old(broker.policies)
      ensures policyName != "" ==>
                ok == (outcome.Applied? && policyName in old(broker.policies)) &&
                broker.policies == if outcome.NotApplied? then old(broker.policies) else old(broker.policies) - {policyName}
    {
      if policyName == "" {
        return true;
      }
      ok := broker.Delete(policyName, outcome);
    }

    /**
      An attack from Start to Stop, with what others do to the vhost in the meantime. It leaves
      exactly what those edits alone would have left, and besides that its own policy in two cases:
      the delete did not reach the broker, or the put did although it reported an error. In the
      second case neither the cleanup nor Stop knows the policy's name, and Stop reports success.
     */
    method StartToStop(broker: Broker, scan: Scanner, suffix: string, calls: Calls, edits: seq<Edit>, stop: CallOutcome)
      returns (started: bool, stopped: bool)
      requires policyName == "" && "" !in broker.policies && PolicyName(queue, suffix) !in broker.policies
      requires forall i :: 0 <= i < |edits| ==> edits[i].name != PolicyName(queue, suffix)
      modifies this, broker
      ensures started == (calls.listOk && calls.put.Applied?)
      ensures !started ==> stopped
      ensures started ==> stopped == stop.Applied?
      ensures if calls.listOk && (calls.put.AppliedButFailed? || (calls.put.Applied? && stop.NotApplied?)) then
                exists h :: IsHighest(old(broker.policies), scan, queue, h) &&
                  broker.policies ==
                    Apply(old(broker.policies), edits)[PolicyName(queue, suffix) :=
                                                       Policy(Pattern(queue), "queues", h + 1, maxLength)]
              else broker.policies == Apply(old(broker.policies), edits)
    {
      var name := PolicyName(queue, suffix);
      assert name != "" by { assert |name| >= 1; }
      ghost var ps := broker.policies;
      started := Start(broker, scan, suffix, calls);
      ghost var h := 0;
      if calls.listOk && !calls.put.NotApplied? {
        h :| IsHighest(ps, scan, queue, h) &&
          (broker.policies == ps[name := TempPolicy(queue, h, maxLength)] ||
           broker.policies == ps[name := TempPolicy(queue, h, maxLength)] - {""});
        assert ps[name := TempPolicy(queue, h, maxLength)] - {""} == ps[name := TempPolicy(queue, h, maxLength)];
        StopRestores(ps, name, TempPolicy(queue, h, maxLength), edits);
      } else {
        assert ps - {""} == ps;
      }
      broker.policies := Apply(broker.policies, edits);
      stopped := Stop(broker, stop);
    }
  }

  lemma HighestOfListed(ps: Policies, listed: seq<Policy>, scan: Scanner, queue: string, h: int)
    requires forall p :: p in listed <==> p in ps.Values
    requires h >= 0 && forall i :: 0 <= i < |listed| && Scanned(scan, listed[i], queue) ==> listed[i].priority <= h
    requires h == 0 || exists i :: 0 <= i < |listed| && Scanned(scan, listed[i], queue) && listed[i].priority == h
    ensures IsHighest(ps, scan, queue, h)
  {
    forall n | n in ps && Scanned(scan, ps[n], queue) ensures ps[n].priority <= h {
      assert ps[n] in ps.Values && ps[n] in listed;
    }
    if h != 0 {
      var i :| 0 <= i < |listed| && Scanned(scan, listed[i], queue) && listed[i].priority == h;
      assert listed[i] in listed && listed[i] in ps.Values;
    }
  }

  // ---------- isolation ----------

  /** The temporary policy applies to the target, to the target's name with a newline after it, and to nothing else. */
  lemma TempPolicyApplies(rules: Rules, queue: string, h: int, maxLength: int, q: string)
    requires Sound(rules) && BackslashesHarmless(queue)
    ensures Applies(rules, TempPolicy(queue, h, maxLength), q) <==> q == queue || q == queue + "\n"
  {
    EscapeRoundTrip(queue);
    AnchoredMatches(queue, q, true);
  }

  /** Every other queue keeps its effective policies, whatever the name and priority of the new one. */
  lemma OthersUnaffected(rules: Rules, ps: Policies, name: string, queue: string, h: int, maxLength: int, q: string)
    requires Sound(rules) && BackslashesHarmless(queue) && name !in ps
    requires q != queue && q != queue + "\n"
    ensures Effective(rules, ps[name := TempPolicy(queue, h, maxLength)], q) == Effective(rules, ps, q)
  {
    var after := ps[name := TempPolicy(queue, h, maxLength)];
    TempPolicyApplies(rules, queue, h, maxLength, q);
    forall n ensures n in Effective(rules, after, q) <==> n in Effective(rules, ps, q) {
      if n in ps {
        assert after[n] == ps[n];
        assert IsEffective(rules, after, n, q) <==> IsEffective(rules, ps, n, q) by {
          assert forall m :: m in ps ==> after[m] == ps[m];
        }
      }
    }
  }

  /** The new policy is the one effective policy of the target iff no other one that applies has a higher priority than `h`. */
  lemma TargetEffectiveIff(rules: Rules, ps: Policies, name: string, queue: string, h: int, maxLength: int)
    requires Sound(rules) && BackslashesHarmless(queue) && name !in ps
    ensures Effective(rules, ps[name := TempPolicy(queue, h, maxLength)], queue) == {name} <==>
            forall n :: n in ps && Applies(rules, ps[n], queue) ==> ps[n].priority <= h
  {
    var after := ps[name := TempPolicy(queue, h, maxLength)];
    TempPolicyApplies(rules, queue, h, maxLength, queue);
    assert forall m :: m in ps ==> after[m] == ps[m];
    var wins := forall n :: n in ps && Applies(rules, ps[n], queue) ==> ps[n].priority <= h;
    if wins {
      assert IsEffective(rules, after, name, queue);
      forall n | n in Effective(rules, after, queue) ensures n == name {
        assert after[name].priority <= after[n].priority;
      }
      assert Effective(rules, after, queue) == {name};
    } else {
      var n :| n in ps && Applies(rules, ps[n], queue) && ps[n].priority > h;
      assert HigherOrEqual(after, n, name);
      if IsEffective(rules, after, name, queue) {
        OnlyOneEffective(rules, after, name, n, queue);
      }
    }
  }

  /**
    With `h` from the scan that means: none that the scan passed over, because it applies to
    something else in name, has an empty pattern, or one that Go's engine does not compile or match.
   */
  lemma TargetAffectedIff(rules: Rules, ps: Policies, scan: Scanner, name: string, queue: string, h: int, maxLength: int)
    requires Sound(rules) && BackslashesHarmless(queue) && name !in ps && IsHighest(ps, scan, queue, h)
    ensures Effective(rules, ps[name := TempPolicy(queue, h, maxLength)], queue) == {name} <==>
            forall n :: n in ps && Applies(rules, ps[n], queue) ==>
              ps[n].priority <= h ||
              (ps[n].applyTo in {"", "queues", "all"} && ps[n].pattern != "" && scan(ps[n].pattern, queue) == Some(true))
  {
    TargetEffectiveIff(rules, ps, name, queue, h, maxLength);
    forall n | n in ps
      ensures Scanned(scan, ps[n], queue) <==> ps[n].applyTo in {"", "queues", "all"} && ps[n].pattern != "" &&
                                               scan(ps[n].pattern, queue) == Some(true)
    {
    }
  }

  predicate HigherOrEqual(ps: Policies, a: string, b: string) {
    a in ps && b in ps && ps[a].priority >= ps[b].priority
  }

  /** A policy that applies and ranks no lower than the effective one is effective as well. */
  lemma OnlyOneEffective(rules: Rules, ps: Policies, name: string, other: string, queue: string)
    requires IsEffective(rules, ps, name, queue) && HigherOrEqual(ps, other, name) && Applies(rules, ps[other], queue)
    ensures other in Effective(rules, ps, queue)
  {
  }

  /** If the scan sees every policy that applies to the target, the new policy takes effect. */
  lemma TargetAffected(rules: Rules, ps: Policies, scan: Scanner, name: string, queue: string, h: int, maxLength: int)
    requires Sound(rules) && BackslashesHarmless(queue) && name !in ps && IsHighest(ps, scan, queue, h)
    requires forall n :: n in ps && Applies(rules, ps[n], queue) ==>
               ps[n].applyTo in {"", "queues", "all"} && ps[n].pattern != "" && scan(ps[n].pattern, queue) == Some(true)
    ensures Effective(rules, ps[name := TempPolicy(queue, h, maxLength)], queue) == {name}
  {
    TargetAffectedIff(rules, ps, scan, name, queue, h, maxLength);
  }

  /** The scan skips an empty pattern, which to the broker matches every queue: such a policy can outrank the new one. */
  lemma EmptyPatternOutranks(rules: Rules, scan: Scanner, queue: string)
    requires Sound(rules) && BackslashesHarmless(queue)
    ensures var ps := map["catch-all" := Policy("", "queues", 5, 100)];
            IsHighest(ps, scan, queue, 0) &&
            "catch-all" in Effective(rules, ps["temp" := TempPolicy(queue, 0, 1)], queue) &&
            "temp" !in Effective(rules, ps["temp" := TempPolicy(queue, 0, 1)], queue)
  {
    var ps := map["catch-all" := Policy("", "queues", 5, 100)];
    var after := ps["temp" := TempPolicy(queue, 0, 1)];
    assert Tokenize("") == [];
    assert MatchesAt([], queue, 0, true);
    assert Applies(rules, after["catch-all"], queue);
    assert IsEffective(rules, after, "catch-all", queue);
  }

  /** For the queue \- the escaped dash is a dash: the policy applies to the queue - and not to the target. */
  lemma BackslashBreaksIsolation(rules: Rules, h: int, maxLength: int)
    requires Sound(rules)
    ensures Applies(rules, TempPolicy("\\-", h, maxLength), "-")
    ensures !Applies(rules, TempPolicy("\\-", h, maxLength), "\\-")
  {
    var ts := [StartAnchor, Lit('-'), EndAnchor];
    assert Tokenize(Pattern("\\-")) == ts;
    assert ts[1..] == [Lit('-'), EndAnchor] && ts[1..][1..] == [EndAnchor];
    assert MatchesAt(ts, "-", 0, true);
    assert !MatchesAt(ts, "\\-", 0, true);
  }

  // ---------- restoration ----------

  /** What others may do to the vhost in the meantime: put or delete policies. */
  datatype Edit = Edit(name: string, value: Option<Policy>)

  function Apply(ps: Policies, edits: seq<Edit>): Policies {
    if edits == [] then ps
    else
      var e := edits[|edits| - 1];
      var before := Apply(ps, edits[..|edits| - 1]);
      if e.value.Some? then before[e.name := e.value.value] else before - {e.name}
  }

  /** Edits of other policies and the attack's own policy do not get in each other's way. */
  lemma {:induction false} StopRestores(ps: Policies, name: string, p: Policy, edits: seq<Edit>)
    requires name !in ps && forall i :: 0 <= i < |edits| ==> edits[i].name != name
    ensures name !in Apply(ps, edits) && Apply(ps[name := p], edits) == Apply(ps, edits)[name := p]
    ensures Apply(ps[name := p], edits) - {name} == Apply(ps, edits)
    decreases |edits|
  {
    if edits != [] {
      StopRestores(ps, name, p, edits[..|edits| - 1]);
    }
  }

  /**
    While the temporary policy is in place, whatever others do to other policies: every other queue
    has the effective policies it would have without it, and it is the target's only effective
    policy iff no other one that applies to the target ranks above it. Taking it away leaves what
    the others' edits alone would have left.
   */
  lemma AttackIsIsolatedAndUndone(rules: Rules, ps: Policies, scan: Scanner, name: string, queue: string, h: int,
                                  maxLength: int, edits: seq<Edit>)
    requires Sound(rules) && BackslashesHarmless(queue) && name !in ps && IsHighest(ps, scan, queue, h)
    requires forall i :: 0 <= i < |edits| ==> edits[i].name != name
    ensures var during, without := Apply(ps[name := TempPolicy(queue, h, maxLength)], edits), Apply(ps, edits);
            && (forall q :: q != queue && q != queue + "\n" ==> Effective(rules, during, q) == Effective(rules, without, q))
            && (Effective(rules, during, queue) == {name} <==>
                forall n :: n in without && Applies(rules, without[n], queue) ==> without[n].priority <= h)
            && during - {name} == without
    ensures edits == [] &&
            (forall n :: n in ps && Applies(rules, ps[n], queue) ==>
               ps[n].applyTo in {"", "queues", "all"} && ps[n].pattern != "" && scan(ps[n].pattern, queue) == Some(true))
            ==> Effective(rules, ps[name := TempPolicy(queue, h, maxLength)], queue) == {name}
  {
    var temp, without := TempPolicy(queue, h, maxLength), Apply(ps, edits);
    StopRestores(ps, name, temp, edits);
    TargetEffectiveIff(rules, without, name, queue, h, maxLength);
    forall q | q != queue && q != queue + "\n"
      ensures Effective(rules, without[name := temp], q) == Effective(rules, without, q)
    {
      OthersUnaffected(rules, without, name, queue, h, maxLength, q);
    }
  }
}
