/**
  The node check of extrabbitmq/check_node.go: each poll compares the nodes with the baseline
  taken at prepare, folds the result into sticky state, and may report an error.
 */
module NodeCheck {
  import opened Wrappers

  const NODE_DOWN := "Node down"
  const NODE_ALARM := "Node alarm raised"
  const ALL_THE_TIME := "all-time"
  const AT_LEAST_ONCE := "at-least-once"

  // ---------- detecting changes ----------

  /** The answer to one node lookup; the reported name need not be the requested one. */
  datatype Node = Node(name: string, running: bool, memAlarm: bool, diskAlarm: bool)

  type Lookup = string -> Option<Node>

  predicate WasRunning(baseline: map<string, bool>, name: string) { name in baseline && baseline[name] }

  /** The names reported as down: lookup failures and stopped nodes, if they ran at the baseline. */
  function DownNames(names: seq<string>, baseline: map<string, bool>, lookup: Lookup): seq<string> {
    if names == [] then []
    else
      var name := names[|names| - 1];
      DownNames(names[..|names| - 1], baseline, lookup) +
      match lookup(name)
      case None => if WasRunning(baseline, name) then [name] else []
      case Some(n) => if WasRunning(baseline, n.name) && !n.running then [n.name] else []
  }

  function AlarmLabel(n: Node): string {
    n.name + ": " + if n.memAlarm && n.diskAlarm then "mem_alarm,disk_free_alarm"
                    else if n.memAlarm then "mem_alarm" else "disk_free_alarm"
  }

  function Alarms(names: seq<string>, lookup: Lookup): seq<string> {
    if names == [] then []
    else
      Alarms(names[..|names| - 1], lookup) +
      match lookup(names[|names| - 1])
      case None => []
      case Some(n) => if n.memAlarm || n.diskAlarm then [AlarmLabel(n)] else []
  }

  type Changes = map<string, seq<string>>

  function ListOf(changes: Changes, kind: string): seq<string> {
    if kind in changes then changes[kind] else []
  }

  function AddChange(changes: Changes, kind: string, entry: string): (r: Changes)
    ensures ListOf(r, kind) == ListOf(changes, kind) + [entry]
    ensures forall k :: k != kind ==> ListOf(r, k) == ListOf(changes, k)
    ensures r.Keys == changes.Keys + {kind}
  {
    changes[kind := ListOf(changes, kind) + [entry]]
  }

  /** What the detection loop has gathered after `names`. */
  ghost predicate Gathered(changes: Changes, down: string, alarm: string, names: seq<string>,
                           baseline: map<string, bool>, lookup: Lookup)
  {
    && ListOf(changes, down) == DownNames(names, baseline, lookup)
    && ListOf(changes, alarm) == Alarms(names, lookup)
    && forall k :: k in changes ==> k in {down, alarm} && changes[k] != []
  }

  /** One round of the detection loop. */
  method AddNode(changes: Changes, down: string, alarm: string, names: seq<string>,
                 baseline: map<string, bool>, lookup: Lookup)
    returns (r: Changes)
    requires down != alarm && names != []
    requires Gathered(changes, down, alarm, names[..|names| - 1], baseline, lookup)
    ensures Gathered(r, down, alarm, names, baseline, lookup)
  {
    r := changes;
    var name := names[|names| - 1];
    match lookup(name) {
      case None =>
        if WasRunning(baseline, name) {
          r := AddChange(r, down, name);
        }
      case Some(n) =>
        if n.memAlarm || n.diskAlarm {
          r := AddChange(r, alarm, AlarmLabel(n));
        }
        if WasRunning(baseline, n.name) && !n.running {
          r := AddChange(r, down, n.name);
        }
    }
  }

  /** The detection loop of `checkNodesStatus`. */
  method DetectChanges(names: seq<string>, baseline: map<string, bool>, lookup: Lookup)
    returns (changes: Changes)
    ensures forall k :: k in changes <==> (k == NODE_DOWN && DownNames(names, baseline, lookup) != []) ||
                                          (k == NODE_ALARM && Alarms(names, lookup) != [])
    ensures ListOf(changes, NODE_DOWN) == DownNames(names, baseline, lookup)
    ensures ListOf(changes, NODE_ALARM) == Alarms(names, lookup)
  {
    changes := map[];
    var down, alarm := NODE_DOWN, NODE_ALARM;
    assert |down| != |alarm|;
    for i := 0 to |names|
      invariant Gathered(changes, down, alarm, names[..i], baseline, lookup)
    {
      assert names[..i + 1][..i] == names[..i];
      changes := AddNode(changes, down, alarm, names[..i + 1], baseline, lookup);
    }
    assert names[..|names|] == names;
  }

  /** The lookup of `name` shows `down` as down: the name asked for if it fails, else that of a node that has stopped. */
  predicate ShowsDown(name: string, lookup: Lookup, down: string) {
    match lookup(name)
    case None => down == name
    case Some(n) => down == n.name && !n.running
  }

  /** The nodes named as down are those shown as down that ran at the baseline. */
  lemma {:induction false} DownNamesAre(names: seq<string>, baseline: map<string, bool>, lookup: Lookup, down: string)
    ensures down in DownNames(names, baseline, lookup) <==>
            down in baseline && baseline[down] && exists i :: 0 <= i < |names| && ShowsDown(names[i], lookup, down)
  {
    if names != [] {
      var n := |names| - 1;
      DownNamesAre(names[..n], baseline, lookup, down);
      assert forall i :: 0 <= i < n ==> names[..n][i] == names[i];
    }
  }

  /** What the list says about one node that has an alarm. */
  predicate Describes(alarm: string, n: Node) {
    if n.memAlarm && n.diskAlarm then alarm == n.name + ": mem_alarm,disk_free_alarm"
    else if n.memAlarm then alarm == n.name + ": mem_alarm"
    else n.diskAlarm && alarm == n.name + ": disk_free_alarm"
  }

  /** The alarms listed: of every selected node that answers and has one, its name and what is raised. */
  lemma {:induction false} AlarmsAre(names: seq<string>, lookup: Lookup, alarm: string)
    ensures alarm in Alarms(names, lookup) <==>
            exists i :: 0 <= i < |names| && lookup(names[i]).Some? && Describes(alarm, lookup(names[i]).value)
  {
    if names != [] {
      var n := |names| - 1;
      AlarmsAre(names[..n], lookup, alarm);
      assert forall i :: 0 <= i < n ==> names[..n][i] == names[i];
      var last := lookup(names[n]);
      if last.Some? && (last.value.memAlarm || last.value.diskAlarm) { LabelDescribes(last.value, alarm); }
    }
  }

  lemma LabelDescribes(n: Node, alarm: string)
    requires n.memAlarm || n.diskAlarm
    ensures alarm == AlarmLabel(n) <==> Describes(alarm, n)
  {
    var name := n.name;
    assert name + ": " + "mem_alarm" == name + ": mem_alarm" by { assert ": " + "mem_alarm" == ": mem_alarm"; }
    assert name + ": " + "disk_free_alarm" == name + ": disk_free_alarm" by {
      assert ": " + "disk_free_alarm" == ": disk_free_alarm";
    }
    assert name + ": " + "mem_alarm,disk_free_alarm" == name + ": mem_alarm,disk_free_alarm" by {
      assert ": " + "mem_alarm,disk_free_alarm" == ": mem_alarm,disk_free_alarm";
    }
  }

  /** Both lists are in the order of the selected nodes, one entry for each node concerned. */
  lemma {:induction false} ListedInOrder(names: seq<string>, more: seq<string>, baseline: map<string, bool>, lookup: Lookup)
    ensures DownNames(names + more, baseline, lookup) == DownNames(names, baseline, lookup) + DownNames(more, baseline, lookup)
    ensures Alarms(names + more, lookup) == Alarms(names, lookup) + Alarms(more, lookup)
    ensures |names| == 1 ==> |DownNames(names, baseline, lookup)| <= 1 && |Alarms(names, lookup)| <= 1
    decreases |more|
  {
    if more == [] {
      assert names + more == names;
    } else {
      assert (names + more)[..|names + more| - 1] == names + more[..|more| - 1];
      ListedInOrder(names, more[..|more| - 1], baseline, lookup);
    }
    if |names| == 1 { assert names[..0] == []; }
  }

  /** A change is reported exactly if some selected node shows it. */
  lemma {:induction false} DownIffSomeNodeDown(names: seq<string>, baseline: map<string, bool>, lookup: Lookup)
    ensures DownNames(names, baseline, lookup) != [] <==>
            exists i :: 0 <= i < |names| &&
              match lookup(names[i])
              case None => WasRunning(baseline, names[i])
              case Some(n) => WasRunning(baseline, n.name) && !n.running
  {
    if names != [] {
      var n := |names| - 1;
      DownIffSomeNodeDown(names[..n], baseline, lookup);
      assert forall i :: 0 <= i < n ==> names[..n][i] == names[i];
    }
  }

  lemma {:induction false} AlarmIffSomeNodeAlarmed(names: seq<string>, lookup: Lookup)
    ensures Alarms(names, lookup) != [] <==>
            exists i :: 0 <= i < |names| && lookup(names[i]).Some? &&
                        (lookup(names[i]).value.memAlarm || lookup(names[i]).value.diskAlarm)
  {
    if names != [] {
      var n := |names| - 1;
      AlarmIffSomeNodeAlarmed(names[..n], lookup);
      assert forall i :: 0 <= i < n ==> names[..n][i] == names[i];
    }
  }

  // ---------- the verdict of one poll ----------

  datatype Config = Config(expected: seq<string>, mode: string, failEarly: bool)

  /** The sticky state: the remembered deviation and whether an expected change was ever seen. */
  datatype Memory = Memory(deviation: string, seen: bool)

  /** `keys` are the kinds of change in the order the map iteration produced them. */
  datatype Poll = Poll(keys: seq<string>, completed: bool)

  function Join(xs: seq<string>): string {
    if xs == [] then "" else if |xs| == 1 then xs[0] else xs[0] + " " + Join(xs[1..])
  }

  function ExpectedText(cfg: Config): string { "'[" + Join(cfg.expected) + "]'" }

  function UnexpectedTitle(cfg: Config, kind: string): string {
    "Nodes got an unexpected change '" + kind + "' whereas " + ExpectedText(cfg) + " is expected."
  }

  function SomeEventsTitle(keys: seq<string>): string {
    "We were expecting no events but got these changes: " + Join(keys) + "."
  }

  function MissingTitle(cfg: Config): string { "Nodes didn't get the expected changes " + ExpectedText(cfg) + "." }

  function NotOnceTitle(cfg: Config): string {
    "Nodes didn't get the expected changes " + ExpectedText(cfg) + " at least once."
  }

  /** The kinds of change that were not expected, in the order given. */
  function Unexpected(cfg: Config, keys: seq<string>): seq<string> {
    if keys == [] then []
    else Unexpected(cfg, keys[..|keys| - 1]) +
         if keys[|keys| - 1] in cfg.expected then [] else [keys[|keys| - 1]]
  }

  /** The titles `recordDeviation` is called with during one poll, in order. */
  function Deviations(cfg: Config, keys: seq<string>): seq<string> {
    if cfg.expected != [] then
      if cfg.mode == ALL_THE_TIME then
        var bad := Unexpected(cfg, keys);
        seq(|bad|, i requires 0 <= i < |bad| => UnexpectedTitle(cfg, bad[i]))
      else []
    else if keys != [] then [SomeEventsTitle(keys)] else []
  }

  predicate SeesExpected(cfg: Config, keys: seq<string>) {
    exists i :: 0 <= i < |keys| && keys[i] in cfg.expected
  }

  predicate TracksOnce(cfg: Config) { cfg.expected != [] && cfg.mode == AT_LEAST_ONCE }

  function NextMemory(cfg: Config, m: Memory, p: Poll): Memory {
    var devs := Deviations(cfg, p.keys);
    Memory(if !cfg.failEarly && m.deviation == "" && devs != [] then devs[0] else m.deviation,
           m.seen || (TracksOnce(cfg) && SeesExpected(cfg, p.keys)))
  }

  /** The error reported by one poll, given the state it leaves behind. */
  function Report(cfg: Config, after: Memory, p: Poll): Option<string> {
    var devs := Deviations(cfg, p.keys);
    if cfg.failEarly && devs != [] then Some(devs[|devs| - 1])
    else if cfg.expected != [] && cfg.mode == ALL_THE_TIME && p.completed && p.keys == [] then Some(MissingTitle(cfg))
    else if TracksOnce(cfg) && p.completed && !after.seen then Some(NotOnceTitle(cfg))
    else if !cfg.failEarly && p.completed && after.deviation != "" then Some(after.deviation)
    else None
  }

  /** The state `CheckNodesState` keeps between polls, updated in place by every poll. */
  class CheckNodesState {
    var end: int
    var expected: seq<string>
    var mode: string
    var failEarly: bool
    var deviationTitle: string
    var stateCheckOnce: bool
    var nodeNames: seq<string>
    var baselineRunning: map<string, bool>

    function Cfg(): Config
      reads this
    {
      Config(expected, mode, failEarly)
    }

    function Mem(): Memory
      reads this
    {
      Memory(deviationTitle, stateCheckOnce)
    }

    /** The baseline part of `Prepare`: the running state of every selected node, or the lookup failure. */
    constructor (end: int, expected: seq<string>, mode: string, failEarly: bool, names: seq<string>,
                 running: map<string, bool>)
      ensures Cfg() == Config(expected, mode, failEarly) && Mem() == Memory("", false)
      ensures this.end == end && nodeNames == names && baselineRunning == running
    {
      this.end, this.expected, this.mode, this.failEarly := end, expected, mode, failEarly;
      deviationTitle, stateCheckOnce := "", false;
      nodeNames, baselineRunning := names, running;
    }

    method RecordDeviation(title: string, previous: Option<string>) returns (err: Option<string>)
      modifies this`deviationTitle
      ensures err == (if failEarly then Some(title) else previous)
      ensures deviationTitle == if !failEarly && old(deviationTitle) == "" then title else old(deviationTitle)
    {
      err := previous;
      if failEarly {
        err := Some(title);
      } else if deviationTitle == "" {
        deviationTitle := title;
      }
    }

    /** `checkNodesStatus`: `keys` is whatever order the map iteration produced. */
    method Status(now: int, lookup: Lookup) returns (completed: bool, err: Option<string>, ghost keys: seq<string>)
      modifies this`deviationTitle, this`stateCheckOnce
      ensures completed == (now > end)
      ensures forall k :: k in keys <==> (k == NODE_DOWN && DownNames(nodeNames, baselineRunning, lookup) != []) ||
                                         (k == NODE_ALARM && Alarms(nodeNames, lookup) != [])
      ensures forall i, j :: 0 <= i < j < |keys| ==> keys[i] != keys[j]
      ensures Mem() == NextMemory(Cfg(), old(Mem()), Poll(keys, completed))
      ensures err == Report(Cfg(), Mem(), Poll(keys, completed))
    {
      var changes := DetectChanges(nodeNames, baselineRunning, lookup);
      completed := now > end;
      var changeKeys := Iterate(changes);
      keys := changeKeys;
      err := Evaluate(changeKeys, completed);
    }

    /** The keys of the map in the arbitrary order of its iteration. */
    method Iterate(changes: Changes) returns (keys: seq<string>)
      ensures forall k :: k in keys <==> k in changes
      ensures forall i, j :: 0 <= i < j < |keys| ==> keys[i] != keys[j]
    {
      keys := [];
      var todo := changes.Keys;
      while todo != {}
        invariant todo <= changes.Keys
        invariant forall k :: k in keys <==> k in changes && k !in todo
        invariant forall i, j :: 0 <= i < j < |keys| ==> keys[i] != keys[j]
        decreases |todo|
      {
        var k :| k in todo;
        keys := keys + [k];
        todo := todo - {k};
      }
    }

    /** The evaluation half of `checkNodesStatus`. */
    method Evaluate(changeKeys: seq<string>, completed: bool) returns (err: Option<string>)
      modifies this`deviationTitle, this`stateCheckOnce
      ensures Mem() == NextMemory(Cfg(), old(Mem()), Poll(changeKeys, completed))
      ensures err == Report(Cfg(), Mem(), Poll(changeKeys, completed))
    {
      err := None;
      if expected != [] {
        if mode == ALL_THE_TIME {
          err := CheckUnexpected(changeKeys);
          if completed && err.None? && changeKeys == [] {
            err := Some(MissingTitle(Cfg()));
          }
        } else if mode == AT_LEAST_ONCE {
          CheckOnce(changeKeys);
          if completed && !stateCheckOnce {
            err := Some(NotOnceTitle(Cfg()));
          }
        }
      } else if changeKeys != [] {
        err := RecordDeviation(SomeEventsTitle(changeKeys), None);
      }
      if !failEarly && completed && err.None? && deviationTitle != "" {
        err := Some(deviationTitle);
      }
    }

    /** The all-time loop over the changes seen. */
    method CheckUnexpected(changeKeys: seq<string>) returns (err: Option<string>)
      requires expected != [] && mode == ALL_THE_TIME
      modifies this`deviationTitle
      ensures var devs := Deviations(Cfg(), changeKeys);
              && err == (if failEarly && devs != [] then Some(devs[|devs| - 1]) else None)
              && deviationTitle == if !failEarly && old(deviationTitle) == "" && devs != [] then devs[0]
                                   else old(deviationTitle)
    {
      err := None;
      for i := 0 to |changeKeys|
        invariant var devs := Deviations(Cfg(), changeKeys[..i]);
                  && err == (if failEarly && devs != [] then Some(devs[|devs| - 1]) else None)
                  && deviationTitle == if !failEarly && old(deviationTitle) == "" && devs != [] then devs[0]
                                   else old(deviationTitle)
      {
        assert changeKeys[..i + 1][..i] == changeKeys[..i];
        if changeKeys[i] !in expected {
          assert Deviations(Cfg(), changeKeys[..i + 1]) ==
                 Deviations(Cfg(), changeKeys[..i]) + [UnexpectedTitle(Cfg(), changeKeys[i])];
          err := RecordDeviation(UnexpectedTitle(Cfg(), changeKeys[i]), err);
        }
      }
      assert changeKeys[..|changeKeys|] == changeKeys;
    }

    /** The at-least-once loop over the changes seen. */
    method CheckOnce(changeKeys: seq<string>)
      modifies this`stateCheckOnce
      ensures stateCheckOnce == (old(stateCheckOnce) || SeesExpected(Cfg(), changeKeys))
    {
      for i := 0 to |changeKeys|
        invariant stateCheckOnce == (old(stateCheckOnce) || exists j :: 0 <= j < i && changeKeys[j] in expected)
      {
        if changeKeys[i] in expected {
          stateCheckOnce := true;
        }
      }
    }
  }
}
