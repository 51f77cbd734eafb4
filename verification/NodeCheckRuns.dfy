/**
  Node checks over whole runs of polls. A run is any non-empty sequence of polls whose last one
  is after the end; it stops at its first error. The poll made by Start is the first of them, and
  since Start does not pass its completed flag on, earlier polls may be completed as well.
 */
module NodeCheckRuns {
  import opened Wrappers
  import opened NodeCheck

  /** The sticky state after a sequence of polls. */
  function After(cfg: Config, polls: seq<Poll>): Memory {
    if polls == [] then Memory("", false)
    else NextMemory(cfg, After(cfg, polls[..|polls| - 1]), polls[|polls| - 1])
  }

  function ReportAt(cfg: Config, polls: seq<Poll>, i: nat): Option<string>
    requires i < |polls|
  {
    Report(cfg, After(cfg, polls[..i + 1]), polls[i])
  }

  /** Some poll of the run reports an error, so the run ends as failed at the first such poll. */
  ghost predicate Fails(cfg: Config, polls: seq<Poll>) {
    exists i :: 0 <= i < |polls| && ReportAt(cfg, polls, i).Some?
  }

  predicate IsRun(polls: seq<Poll>) { polls != [] && polls[|polls| - 1].completed }

  // ---------- what a run should fail for, without any state ----------

  predicate HasUnexpected(cfg: Config, p: Poll) { exists k :: 0 <= k < |p.keys| && p.keys[k] !in cfg.expected }

  ghost predicate DeviatesAt(cfg: Config, polls: seq<Poll>, i: nat)
    requires i < |polls|
  {
    if cfg.expected == [] then polls[i].keys != []
    else cfg.mode == ALL_THE_TIME && HasUnexpected(cfg, polls[i])
  }

  ghost predicate MissesAt(cfg: Config, polls: seq<Poll>, i: nat)
    requires i < |polls|
  {
    && cfg.expected != [] && polls[i].completed
    && (cfg.mode == ALL_THE_TIME ==> polls[i].keys == [])
    && (cfg.mode != ALL_THE_TIME ==>
          cfg.mode == AT_LEAST_ONCE && forall j :: 0 <= j <= i ==> !SeesExpected(cfg, polls[j].keys))
  }

  ghost predicate ShouldFail(cfg: Config, polls: seq<Poll>) {
    exists i :: 0 <= i < |polls| && (DeviatesAt(cfg, polls, i) || MissesAt(cfg, polls, i))
  }

  // ---------- the state means what it should ----------

  lemma {:induction false} UnexpectedIff(cfg: Config, keys: seq<string>)
    ensures Unexpected(cfg, keys) != [] <==> exists k :: 0 <= k < |keys| && keys[k] !in cfg.expected
  {
    if keys != [] {
      var n := |keys| - 1;
      UnexpectedIff(cfg, keys[..n]);
      assert forall k :: 0 <= k < n ==> keys[..n][k] == keys[k];
    }
  }

  lemma DeviationsIff(cfg: Config, polls: seq<Poll>, i: nat)
    requires i < |polls|
    ensures Deviations(cfg, polls[i].keys) != [] <==> DeviatesAt(cfg, polls, i)
    ensures forall k :: 0 <= k < |Deviations(cfg, polls[i].keys)| ==> Deviations(cfg, polls[i].keys)[k] != ""
  {
    UnexpectedIff(cfg, polls[i].keys);
  }

  /** The remembered title comes from the first deviating poll, if there is one and the check fails at the end. */
  ghost predicate RemembersFirst(cfg: Config, polls: seq<Poll>, title: string) {
    if title == "" then cfg.failEarly || forall i :: 0 <= i < |polls| ==> !DeviatesAt(cfg, polls, i)
    else
      !cfg.failEarly &&
      exists i :: 0 <= i < |polls| && DeviatesAt(cfg, polls, i) &&
        (forall j :: 0 <= j < i ==> !DeviatesAt(cfg, polls, j)) &&
        Deviations(cfg, polls[i].keys) != [] && title == Deviations(cfg, polls[i].keys)[0]
  }

  lemma {:induction false} RememberedTitle(cfg: Config, polls: seq<Poll>)
    ensures RemembersFirst(cfg, polls, After(cfg, polls).deviation)
  {
    if polls != [] {
      var n := |polls| - 1;
      var front := polls[..n];
      RememberedTitle(cfg, front);
      DeviationsIff(cfg, polls, n);
      assert forall i :: 0 <= i < n ==> front[i] == polls[i] && (DeviatesAt(cfg, front, i) <==> DeviatesAt(cfg, polls, i));
    }
  }

  lemma {:induction false} SeenMeansExpected(cfg: Config, polls: seq<Poll>)
    ensures After(cfg, polls).seen <==>
            TracksOnce(cfg) && exists i :: 0 <= i < |polls| && SeesExpected(cfg, polls[i].keys)
  {
    if polls != [] {
      var n := |polls| - 1;
      var front := polls[..n];
      SeenMeansExpected(cfg, front);
      assert forall i :: 0 <= i < n ==> front[i] == polls[i];
    }
  }

  // ---------- verdicts ----------

  /** A poll reports an error for a reason the run should fail for. */
  lemma ReportIsJustified(cfg: Config, polls: seq<Poll>, i: nat)
    requires i < |polls| && ReportAt(cfg, polls, i).Some?
    ensures ShouldFail(cfg, polls)
  {
    var upTo := polls[..i + 1];
    assert forall j :: 0 <= j <= i ==> upTo[j] == polls[j] && (DeviatesAt(cfg, upTo, j) <==> DeviatesAt(cfg, polls, j));
    RememberedTitle(cfg, upTo);
    SeenMeansExpected(cfg, upTo);
    DeviationsIff(cfg, polls, i);
  }

  /** A deviation is reported at once or, failing at the end, by the last poll at the latest. */
  lemma DeviationIsReported(cfg: Config, polls: seq<Poll>, i: nat)
    requires IsRun(polls) && i < |polls| && DeviatesAt(cfg, polls, i)
    ensures Fails(cfg, polls)
  {
    DeviationsIff(cfg, polls, i);
    if cfg.failEarly {
      assert ReportAt(cfg, polls, i).Some?;
    } else {
      var n := |polls| - 1;
      assert polls[..n + 1] == polls;
      RememberedTitle(cfg, polls);
      assert ReportAt(cfg, polls, n).Some?;
    }
  }

  lemma MissIsReported(cfg: Config, polls: seq<Poll>, i: nat)
    requires i < |polls| && MissesAt(cfg, polls, i)
    ensures Fails(cfg, polls)
  {
    var upTo := polls[..i + 1];
    assert forall j :: 0 <= j <= i ==> upTo[j] == polls[j];
    SeenMeansExpected(cfg, upTo);
    assert ReportAt(cfg, polls, i).Some?;
  }

  /** The verdict of a run, in either mode, is a statement about the polls alone. */
  lemma VerdictIsDeclarative(cfg: Config, polls: seq<Poll>)
    requires IsRun(polls)
    ensures Fails(cfg, polls) <==> ShouldFail(cfg, polls)
  {
    if Fails(cfg, polls) {
      var i :| 0 <= i < |polls| && ReportAt(cfg, polls, i).Some?;
      ReportIsJustified(cfg, polls, i);
    }
    if ShouldFail(cfg, polls) {
      var i :| 0 <= i < |polls| && (DeviatesAt(cfg, polls, i) || MissesAt(cfg, polls, i));
      if DeviatesAt(cfg, polls, i) { DeviationIsReported(cfg, polls, i); } else { MissIsReported(cfg, polls, i); }
    }
  }

  // ---------- which poll reports what ----------

  /**
    When a poll reports an error. Failing early: exactly if it deviates or misses the expected
    change. Failing at the end: exactly if it is after the end and it misses the expected change or
    it or an earlier poll deviated.
   */
  lemma ReportIff(cfg: Config, polls: seq<Poll>, i: nat)
    requires i < |polls|
    ensures ReportAt(cfg, polls, i).Some? <==>
            if cfg.failEarly then DeviatesAt(cfg, polls, i) || MissesAt(cfg, polls, i)
            else polls[i].completed && (MissesAt(cfg, polls, i) || exists j :: 0 <= j <= i && DeviatesAt(cfg, polls, j))
  {
    PrefixState(cfg, polls, i);
    DeviationsIff(cfg, polls, i);
  }

  /** The sticky state at poll `i`, in terms of the whole run. */
  lemma PrefixState(cfg: Config, polls: seq<Poll>, i: nat)
    requires i < |polls|
    ensures var m := After(cfg, polls[..i + 1]);
            && (m.seen <==> TracksOnce(cfg) && exists j :: 0 <= j <= i && SeesExpected(cfg, polls[j].keys))
            && (m.deviation != "" <==> !cfg.failEarly && exists j :: 0 <= j <= i && DeviatesAt(cfg, polls, j))
  {
    var upTo := polls[..i + 1];
    assert forall j :: 0 <= j <= i ==> upTo[j] == polls[j] && (DeviatesAt(cfg, upTo, j) <==> DeviatesAt(cfg, polls, j));
    RememberedTitle(cfg, upTo);
    SeenMeansExpected(cfg, upTo);
  }

  /**
    Where a run stops. Failing early: at the first poll that deviates or misses. Failing at the end:
    at the first poll after the end that misses or by which some poll has deviated; no poll before
    the end reports anything.
   */
  lemma StopsAt(cfg: Config, polls: seq<Poll>, i: nat)
    requires i < |polls|
    ensures var stops := ReportAt(cfg, polls, i).Some? && forall j :: 0 <= j < i ==> ReportAt(cfg, polls, j).None?;
            && (cfg.failEarly ==>
                 (stops <==> (DeviatesAt(cfg, polls, i) || MissesAt(cfg, polls, i)) &&
                             forall j :: 0 <= j < i ==> !DeviatesAt(cfg, polls, j) && !MissesAt(cfg, polls, j)))
            && (!cfg.failEarly && stops ==> polls[i].completed)
            && (!cfg.failEarly && (forall j :: 0 <= j < i ==> !polls[j].completed) ==>
                 (stops <==> polls[i].completed &&
                             (MissesAt(cfg, polls, i) || exists j :: 0 <= j <= i && DeviatesAt(cfg, polls, j))))
  {
    ReportIff(cfg, polls, i);
    forall j | 0 <= j < i
      ensures cfg.failEarly ==>
                (ReportAt(cfg, polls, j).Some? <==> DeviatesAt(cfg, polls, j) || MissesAt(cfg, polls, j))
      ensures !cfg.failEarly && ReportAt(cfg, polls, j).Some? ==> polls[j].completed
    {
      ReportIff(cfg, polls, j);
    }
  }

  /**
    What a reported error says. A missing expected change is named as such; failing early, an
    unexpected change names one of that poll, and failing at the end the first of the first poll
    that had one; with nothing expected all changes of that poll are named.
   */
  lemma ReportSays(cfg: Config, polls: seq<Poll>, i: nat)
    requires i < |polls| && ReportAt(cfg, polls, i).Some?
    ensures var title := ReportAt(cfg, polls, i).value;
            if MissesAt(cfg, polls, i) then
              title == "Nodes didn't get the expected changes " + ExpectedText(cfg) +
                       (if cfg.mode == ALL_THE_TIME then "." else " at least once.")
            else
              exists j :: 0 <= j <= i && DeviatesAt(cfg, polls, j) &&
                (if cfg.failEarly then j == i else forall l :: 0 <= l < j ==> !DeviatesAt(cfg, polls, l)) &&
                if cfg.expected == [] then
                  title == "We were expecting no events but got these changes: " + Join(polls[j].keys) + "."
                else exists k :: 0 <= k < |polls[j].keys| && polls[j].keys[k] !in cfg.expected &&
                       title == "Nodes got an unexpected change '" + polls[j].keys[k] + "' whereas " + ExpectedText(cfg) +
                                " is expected." &&
                       (!cfg.failEarly ==> forall l :: 0 <= l < k ==> polls[j].keys[l] in cfg.expected)
  {
    ReportIff(cfg, polls, i);
    PrefixState(cfg, polls, i);
    DeviationsIff(cfg, polls, i);
    if !MissesAt(cfg, polls, i) {
      if cfg.failEarly {
        DeviationSays(cfg, polls[i].keys);
      } else {
        var j := FirstDeviation(cfg, polls, i);
        DeviationSays(cfg, polls[j].keys);
      }
    }
  }

  /** The remembered title comes from the first deviating poll. */
  lemma FirstDeviation(cfg: Config, polls: seq<Poll>, i: nat) returns (j: nat)
    requires i < |polls| && !cfg.failEarly && After(cfg, polls[..i + 1]).deviation != ""
    ensures j <= i && DeviatesAt(cfg, polls, j) && forall l :: 0 <= l < j ==> !DeviatesAt(cfg, polls, l)
    ensures Deviations(cfg, polls[j].keys) != []
    ensures After(cfg, polls[..i + 1]).deviation == Deviations(cfg, polls[j].keys)[0]
  {
    var upTo := polls[..i + 1];
    assert forall j :: 0 <= j <= i ==> upTo[j] == polls[j] && (DeviatesAt(cfg, upTo, j) <==> DeviatesAt(cfg, polls, j));
    RememberedTitle(cfg, upTo);
    var title := After(cfg, upTo).deviation;
    j :| 0 <= j < |upTo| && DeviatesAt(cfg, upTo, j) && (forall l :: 0 <= l < j ==> !DeviatesAt(cfg, upTo, l)) &&
      Deviations(cfg, upTo[j].keys) != [] && title == Deviations(cfg, upTo[j].keys)[0];
  }

  /** The titles of one poll, first and last. */
  lemma DeviationSays(cfg: Config, keys: seq<string>)
    requires Deviations(cfg, keys) != []
    ensures var devs := Deviations(cfg, keys);
            if cfg.expected == [] then devs == [SomeEventsTitle(keys)]
            else
              (exists k :: 0 <= k < |keys| && keys[k] !in cfg.expected && devs[|devs| - 1] == UnexpectedTitle(cfg, keys[k])) &&
              exists k :: 0 <= k < |keys| && keys[k] !in cfg.expected && devs[0] == UnexpectedTitle(cfg, keys[k]) &&
                          forall l :: 0 <= l < k ==> keys[l] in cfg.expected
  {
    if cfg.expected != [] { UnexpectedEnds(cfg, keys); }
  }

  lemma {:induction false} UnexpectedEnds(cfg: Config, keys: seq<string>)
    requires Unexpected(cfg, keys) != []
    ensures var bad := Unexpected(cfg, keys);
            (exists k :: 0 <= k < |keys| && keys[k] !in cfg.expected && bad[|bad| - 1] == keys[k]) &&
            exists k :: 0 <= k < |keys| && keys[k] !in cfg.expected && bad[0] == keys[k] &&
                        forall l :: 0 <= l < k ==> keys[l] in cfg.expected
  {
    var n := |keys| - 1;
    assert forall l :: 0 <= l < n ==> keys[..n][l] == keys[l];
    if Unexpected(cfg, keys[..n]) != [] {
      UnexpectedEnds(cfg, keys[..n]);
    } else {
      UnexpectedIff(cfg, keys[..n]);
      assert keys[n] !in cfg.expected;
    }
  }

  /** How the expected changes are written in the titles. */
  lemma ExpectedInFull(mode: string, failEarly: bool)
    ensures ExpectedText(Config(["a", "b"], mode, failEarly)) == "'[a b]'"
  {
    assert ["a", "b"][1..] == ["b"];
    assert Join(["b"]) == "b" && Join(["a", "b"]) == "a b";
  }

  /** The same polls, with the changes of each possibly listed in another order. */
  ghost predicate SamePolls(polls: seq<Poll>, others: seq<Poll>) {
    && |polls| == |others|
    && forall i :: 0 <= i < |polls| ==>
         polls[i].completed == others[i].completed && forall k :: k in polls[i].keys <==> k in others[i].keys
  }

  lemma SamePollsFailAlike(cfg: Config, polls: seq<Poll>, others: seq<Poll>, i: nat)
    requires SamePolls(polls, others) && i < |polls|
    ensures DeviatesAt(cfg, polls, i) <==> DeviatesAt(cfg, others, i)
    ensures MissesAt(cfg, polls, i) <==> MissesAt(cfg, others, i)
  {
    assert forall j :: 0 <= j < |polls| ==> forall k :: k in polls[j].keys <==> k in others[j].keys;
    assert polls[i].keys == [] <==> others[i].keys == [] by {
      if polls[i].keys != [] { assert polls[i].keys[0] in others[i].keys; }
      if others[i].keys != [] { assert others[i].keys[0] in polls[i].keys; }
    }
    assert HasUnexpected(cfg, polls[i]) <==> exists k :: k in polls[i].keys && k !in cfg.expected;
    assert HasUnexpected(cfg, others[i]) <==> exists k :: k in others[i].keys && k !in cfg.expected;
    forall j | 0 <= j <= i ensures SeesExpected(cfg, polls[j].keys) <==> SeesExpected(cfg, others[j].keys) {
      assert SeesExpected(cfg, polls[j].keys) <==> exists k :: k in polls[j].keys && k in cfg.expected;
      assert SeesExpected(cfg, others[j].keys) <==> exists k :: k in others[j].keys && k in cfg.expected;
    }
  }

  /**
    For every check mode, every expected set and every run of polls: failing early and failing at
    the end agree on whether the run fails, whatever order each map iteration lists the changes in.
   */
  lemma FailEarlyAgreesWithFailAtEnd(cfg: Config, polls: seq<Poll>, others: seq<Poll>)
    requires IsRun(polls) && SamePolls(polls, others)
    ensures Fails(cfg.(failEarly := true), polls) <==> Fails(cfg.(failEarly := false), others)
  {
    var early, late := cfg.(failEarly := true), cfg.(failEarly := false);
    VerdictIsDeclarative(early, polls);
    VerdictIsDeclarative(late, others);
    forall i | 0 <= i < |polls|
      ensures DeviatesAt(early, polls, i) <==> DeviatesAt(late, others, i)
      ensures MissesAt(early, polls, i) <==> MissesAt(late, others, i)
    {
      SamePollsFailAlike(early, polls, others, i);
    }
  }

  /** When only the last poll is after the end, the verdict reads as the parameters describe it. */
  lemma VerdictByMode(cfg: Config, polls: seq<Poll>)
    requires IsRun(polls) && forall i :: 0 <= i < |polls| - 1 ==> !polls[i].completed
    ensures cfg.expected == [] ==> (Fails(cfg, polls) <==> exists i :: 0 <= i < |polls| && polls[i].keys != [])
    ensures cfg.expected != [] && cfg.mode == ALL_THE_TIME ==>
              (Fails(cfg, polls) <==>
               (exists i :: 0 <= i < |polls| && HasUnexpected(cfg, polls[i])) || polls[|polls| - 1].keys == [])
    ensures cfg.expected != [] && cfg.mode == AT_LEAST_ONCE ==>
              (Fails(cfg, polls) <==> forall i :: 0 <= i < |polls| ==> !SeesExpected(cfg, polls[i].keys))
  {
    VerdictIsDeclarative(cfg, polls);
    var n := |polls| - 1;
    assert AT_LEAST_ONCE != ALL_THE_TIME by { assert |AT_LEAST_ONCE| != |ALL_THE_TIME|; }
    if cfg.expected == [] {
      assert forall i :: 0 <= i < |polls| ==> (DeviatesAt(cfg, polls, i) <==> polls[i].keys != []);
    } else {
      assert forall i :: 0 <= i < n ==> !MissesAt(cfg, polls, i);
      if cfg.mode == ALL_THE_TIME {
        assert MissesAt(cfg, polls, n) <==> polls[n].keys == [];
        assert forall i :: 0 <= i < |polls| ==> (DeviatesAt(cfg, polls, i) <==> HasUnexpected(cfg, polls[i]));
      } else if cfg.mode == AT_LEAST_ONCE {
        assert MissesAt(cfg, polls, n) <==> forall i :: 0 <= i < |polls| ==> !SeesExpected(cfg, polls[i].keys);
        assert forall i :: 0 <= i < |polls| ==> !DeviatesAt(cfg, polls, i);
      }
    }
  }

  // ---------- "All the time" as its parameter describes it ----------

  /** Every poll must show an expected change and nothing else: the run should fail if some poll does not. */
  ghost predicate FailsAsDocumented(cfg: Config, polls: seq<Poll>) {
    exists i :: 0 <= i < |polls| && (polls[i].keys == [] || HasUnexpected(cfg, polls[i]))
  }

  ghost predicate SomeUnexpected(cfg: Config, polls: seq<Poll>) {
    exists i :: 0 <= i < |polls| && HasUnexpected(cfg, polls[i])
  }

  ghost predicate SomeEmpty(polls: seq<Poll>) { exists i :: 0 <= i < |polls| && polls[i].keys == [] }

  ghost predicate SomeEmptyAfterEnd(polls: seq<Poll>) {
    exists i :: 0 <= i < |polls| && polls[i].completed && polls[i].keys == []
  }

  /** What the code does instead: an empty poll counts only if it comes after the end. */
  lemma AllTheTimeVerdict(cfg: Config, polls: seq<Poll>)
    requires IsRun(polls) && cfg.expected != [] && cfg.mode == ALL_THE_TIME
    ensures Fails(cfg, polls) <==> SomeUnexpected(cfg, polls) || SomeEmptyAfterEnd(polls)
  {
    VerdictIsDeclarative(cfg, polls);
    forall i | 0 <= i < |polls|
      ensures DeviatesAt(cfg, polls, i) <==> HasUnexpected(cfg, polls[i])
      ensures MissesAt(cfg, polls, i) <==> polls[i].completed && polls[i].keys == []
    {
    }
  }

  /**
    On which runs the code's verdict is the documented one: those without an empty poll, those
    with an unexpected change in some poll, and those with an empty poll after the end. On all
    others the code passes a run in which the change was missing from some poll.
   */
  lemma {:induction false} DocumentedVerdictIff(cfg: Config, polls: seq<Poll>)
    requires IsRun(polls) && cfg.expected != [] && cfg.mode == ALL_THE_TIME
    ensures Fails(cfg, polls) ==> FailsAsDocumented(cfg, polls)
    ensures (Fails(cfg, polls) <==> FailsAsDocumented(cfg, polls)) <==>
            !SomeEmpty(polls) || SomeUnexpected(cfg, polls) || SomeEmptyAfterEnd(polls)
  {
    AllTheTimeVerdict(cfg, polls);
    assert FailsAsDocumented(cfg, polls) <==> SomeEmpty(polls) || SomeUnexpected(cfg, polls) by {
      if i :| 0 <= i < |polls| && polls[i].keys == [] { assert FailsAsDocumented(cfg, polls); }
      if i :| 0 <= i < |polls| && HasUnexpected(cfg, polls[i]) { assert FailsAsDocumented(cfg, polls); }
    }
  }

  /** A run in which the node goes down only at the end: it passes, though its first poll showed no change. */
  lemma ChangeMissedAtFirst(failEarly: bool)
    ensures var cfg, polls := Config([NODE_DOWN], ALL_THE_TIME, failEarly), [Poll([], false), Poll([NODE_DOWN], true)];
            IsRun(polls) && !Fails(cfg, polls) && FailsAsDocumented(cfg, polls)
  {
    var cfg, polls := Config([NODE_DOWN], ALL_THE_TIME, failEarly), [Poll([], false), Poll([NODE_DOWN], true)];
    AllTheTimeVerdict(cfg, polls);
    assert polls[0].keys == [] && polls[1].keys == [NODE_DOWN];
    assert NODE_DOWN in cfg.expected;
  }
}
