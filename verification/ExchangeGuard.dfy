/**
  The exchange target guard of extrabbitmq/publish.go: a map of target sets shared by all
  experiments, with every call evicting every entry not seen for an hour. Unless another key's call
  evicts an entry too early it refines a specification per key that mentions neither eviction nor
  any other key; and it keeps apart what its joined keys keep apart.
 */
module ExchangeGuard {
  import opened Wrappers

  const MAX_TARGETS: nat := 10

  /** One hour in nanoseconds. */
  const HOUR: int := 3_600_000_000_000

  datatype Entry = Entry(targets: set<nat>, lastSeen: int)

  /** One counted preparation, in the order in which the guard's lock was taken. */
  datatype Call = Call(key: string, target: nat, time: int)

  type Entries = map<string, Entry>

  // ---------- the guard as a function of the map ----------

  function Swept(entries: Entries, now: int): Entries {
    map k | k in entries && !(now - entries[k].lastSeen > HOUR) :: entries[k]
  }

  function Admit(entries: Entries, c: Call): Entries {
    var kept := Swept(entries, c.time);
    var known := if c.key in kept then kept[c.key].targets else {};
    kept[c.key := Entry(known + {c.target}, c.time)]
  }

  predicate WithinBudget(entries: Entries, key: string) {
    key in entries && |entries[key].targets| <= MAX_TARGETS
  }

  /** The map after a history of calls, starting from an empty one. */
  function Replay(h: seq<Call>): Entries {
    if h == [] then map[] else Admit(Replay(h[..|h| - 1]), h[|h| - 1])
  }

  // ---------- the specification per key ----------

  function CallsOf(h: seq<Call>, key: string): seq<Call> {
    if h == [] then []
    else CallsOf(h[..|h| - 1], key) + if h[|h| - 1].key == key then [h[|h| - 1]] else []
  }

  /** The calls since the last gap of more than an hour. */
  function Window(calls: seq<Call>): seq<Call> {
    if |calls| <= 1 then calls
    else if calls[|calls| - 1].time - calls[|calls| - 2].time > HOUR then [calls[|calls| - 1]]
    else Window(calls[..|calls| - 1]) + [calls[|calls| - 1]]
  }

  function Targets(calls: seq<Call>): set<nat> { set c | c in calls :: c.target }

  ghost predicate Chronological(h: seq<Call>) {
    forall i, j :: 0 <= i < j < |h| ==> h[i].time <= h[j].time
  }

  lemma SuffixExtends(calls: seq<Call>, from: nat)
    requires |calls| >= 2 && from < |calls| - 1
    ensures calls[from..] == calls[..|calls| - 1][from..] + [calls[|calls| - 1]]
  {
  }

  /** Window is the maximal suffix without such a gap. */
  lemma {:induction false} WindowIsMaximalSuffix(calls: seq<Call>) returns (from: nat)
    requires calls != []
    ensures from < |calls| && Window(calls) == calls[from..]
    ensures forall i :: from < i < |calls| ==> calls[i].time - calls[i - 1].time <= 3600 * 1_000_000_000
    ensures from == 0 || calls[from].time - calls[from - 1].time > 3600 * 1_000_000_000
    decreases |calls|
  {
    var n := |calls| - 1;
    if n == 0 {
      from := 0;
    } else if calls[n].time - calls[n - 1].time > HOUR {
      from := n;
    } else {
      from := WindowIsMaximalSuffix(calls[..n]);
      SuffixExtends(calls, from);
    }
  }

  lemma TargetsAppend(calls: seq<Call>, c: Call)
    ensures Targets(calls + [c]) == Targets(calls) + {c.target}
  {
  }

  lemma {:induction false} CallsOfInHistory(h: seq<Call>, key: string)
    ensures forall c :: c in CallsOf(h, key) ==> c in h && c.key == key
  {
    if h != [] { CallsOfInHistory(h[..|h| - 1], key); }
  }

  // ---------- what the guard does to one key, for every history ----------

  /** The calls of the key that its entry knows, in the order of the lock: a sweep by any call may drop them. */
  function LockWindow(h: seq<Call>, key: string): seq<Call> {
    if h == [] then [] else LockStep(LockWindow(h[..|h| - 1], key), h[|h| - 1], key)
  }

  function LockStep(w: seq<Call>, c: Call, key: string): seq<Call> {
    var kept := if w != [] && c.time - w[|w| - 1].time > HOUR then [] else w;
    if c.key == key then kept + [c] else kept
  }

  ghost predicate Holds(entries: Entries, w: seq<Call>, key: string) {
    if w == [] then key !in entries
    else key in entries && entries[key] == Entry(Targets(w), w[|w| - 1].time)
  }

  lemma AdmitHolds(entries: Entries, w: seq<Call>, c: Call, key: string)
    requires Holds(entries, w, key)
    ensures Holds(Admit(entries, c), LockStep(w, c, key), key)
  {
    if c.key == key {
      TargetsAppend(w, c);
      TargetsAppend([], c);
      assert [] + [c] == [c];
      var next := LockStep(w, c, key);
      assert next[|next| - 1] == c;
    }
  }

  lemma {:induction false} ReplayHolds(h: seq<Call>, key: string)
    ensures Holds(Replay(h), LockWindow(h, key), key)
  {
    if h != [] {
      ReplayHolds(h[..|h| - 1], key);
      AdmitHolds(Replay(h[..|h| - 1]), LockWindow(h[..|h| - 1], key), h[|h| - 1], key);
    }
  }

  /**
    Any history, in any order of clock readings: a preparation is accepted iff at most ten distinct
    targets, itself included, are in its key's lock window.
   */
  lemma {:induction false} GuardCountsLockWindow(h: seq<Call>, c: Call)
    ensures WithinBudget(Admit(Replay(h), c), c.key) <==> |Targets(LockWindow(h + [c], c.key))| <= 10
    ensures c.key in Admit(Replay(h), c) && Admit(Replay(h), c)[c.key].targets == Targets(LockWindow(h + [c], c.key))
  {
    assert (h + [c])[..|h|] == h;
    ReplayHolds(h + [c], c.key);
  }

  // ---------- refinement ----------

  lemma CallsOfAppend(h: seq<Call>, c: Call, key: string)
    ensures CallsOf(h + [c], key) == if c.key == key then CallsOf(h, key) + [c] else CallsOf(h, key)
  {
  }

  lemma WindowAppend(calls: seq<Call>, c: Call)
    ensures Window(calls + [c]) ==
            if calls == [] || c.time - calls[|calls| - 1].time > HOUR then [c] else Window(calls) + [c]
  {
  }

  /** Since the key's last call another key's call came more than an hour after it, and swept the entry away. */
  predicate Evicted(h: seq<Call>, key: string) {
    h != [] &&
    var c, calls := h[|h| - 1], CallsOf(h[..|h| - 1], key);
    c.key != key && (Evicted(h[..|h| - 1], key) || (calls != [] && c.time - calls[|calls| - 1].time > HOUR))
  }

  /** The j-th call finds its key's entry evicted although the key's last call is not an hour ago. */
  predicate Premature(h: seq<Call>, key: string, j: nat)
    requires j < |h|
  {
    var calls := CallsOf(h[..j], key);
    h[j].key == key && Evicted(h[..j], key) && calls != [] && h[j].time - calls[|calls| - 1].time <= HOUR
  }

  /** No call of the key finds its entry evicted too early. */
  ghost predicate Prompt(h: seq<Call>, key: string) {
    forall j :: 0 <= j < |h| ==> !Premature(h, key, j)
  }

  lemma PromptPrefix(h: seq<Call>, n: nat, key: string)
    requires Prompt(h, key) && n <= |h|
    ensures Prompt(h[..n], key)
  {
    forall j | 0 <= j < n ensures !Premature(h[..n], key, j) {
      assert h[..n][..j] == h[..j] && !Premature(h, key, j);
    }
  }

  lemma {:induction false} LockWindowEndsAtLastCall(h: seq<Call>, key: string)
    requires LockWindow(h, key) != []
    ensures CallsOf(h, key) != []
    ensures var w, calls := LockWindow(h, key), CallsOf(h, key); w[|w| - 1] == calls[|calls| - 1]
  {
    if h[|h| - 1].key != key { LockWindowEndsAtLastCall(h[..|h| - 1], key); }
  }

  lemma {:induction false} EvictedMeansEmpty(h: seq<Call>, key: string)
    requires Evicted(h, key)
    ensures LockWindow(h, key) == [] && CallsOf(h, key) != []
  {
    var front := h[..|h| - 1];
    if Evicted(front, key) {
      EvictedMeansEmpty(front, key);
    } else if LockWindow(front, key) != [] {
      LockWindowEndsAtLastCall(front, key);
    }
  }

  /** A premature eviction shortens the window to the call itself. */
  lemma PrematureShortens(h: seq<Call>, key: string, j: nat)
    requires j < |h| && Premature(h, key, j)
    ensures LockWindow(h[..j + 1], key) != Window(CallsOf(h[..j + 1], key))
  {
    var calls := CallsOf(h[..j], key);
    assert h[..j + 1] == h[..j] + [h[j]];
    CallsOfAppend(h[..j], h[j], key);
    WindowAppend(calls, h[j]);
    EvictedMeansEmpty(h[..j], key);
    assert h[..j + 1][..j] == h[..j];
    assert LockWindow(h[..j + 1], key) == [h[j]];
    WindowEnds(calls);
  }

  /** The lock window at one moment: empty after an eviction, else the window by the clock. */
  ghost predicate InStep(w: seq<Call>, calls: seq<Call>, evicted: bool) {
    w == (if evicted then [] else Window(calls)) && (evicted ==> calls != [])
  }

  lemma WindowEnds(calls: seq<Call>)
    ensures Window(calls) == [] <==> calls == []
    ensures calls != [] ==> Window(calls)[|Window(calls)| - 1] == calls[|calls| - 1]
  {
    if calls != [] { var from := WindowIsMaximalSuffix(calls); }
  }

  lemma OwnCallInStep(w: seq<Call>, calls: seq<Call>, evicted: bool, c: Call)
    requires InStep(w, calls, evicted)
    requires evicted ==> c.time - calls[|calls| - 1].time > HOUR
    ensures InStep(LockStep(w, c, c.key), calls + [c], false)
  {
    WindowEnds(calls);
    WindowAppend(calls, c);
  }

  lemma OtherCallInStep(w: seq<Call>, calls: seq<Call>, evicted: bool, c: Call, key: string)
    requires InStep(w, calls, evicted) && c.key != key
    ensures InStep(LockStep(w, c, key), calls,
                   evicted || (calls != [] && c.time - calls[|calls| - 1].time > HOUR))
  {
    WindowEnds(calls);
  }

  lemma {:induction false} PromptWindow(h: seq<Call>, key: string)
    requires Prompt(h, key)
    ensures InStep(LockWindow(h, key), CallsOf(h, key), Evicted(h, key))
  {
    if h != [] {
      var n := |h| - 1;
      PromptPrefix(h, n, key);
      PromptWindow(h[..n], key);
      assert !Premature(h, key, n);
      assert h == h[..n] + [h[n]];
      CallsOfAppend(h[..n], h[n], key);
      if h[n].key == key {
        OwnCallInStep(LockWindow(h[..n], key), CallsOf(h[..n], key), Evicted(h[..n], key), h[n]);
      } else {
        OtherCallInStep(LockWindow(h[..n], key), CallsOf(h[..n], key), Evicted(h[..n], key), h[n], key);
      }
    }
  }

  /**
    When the lock window of every call of a key is its window by the clock: exactly if no other
    key's call evicted the entry within an hour of the key's next call.
   */
  lemma WindowIffPrompt(h: seq<Call>, key: string)
    ensures Prompt(h, key) <==>
            forall j :: 0 <= j < |h| && h[j].key == key ==>
              LockWindow(h[..j + 1], key) == Window(CallsOf(h[..j + 1], key))
  {
    if Prompt(h, key) {
      forall j | 0 <= j < |h| && h[j].key == key
        ensures LockWindow(h[..j + 1], key) == Window(CallsOf(h[..j + 1], key))
      {
        PromptPrefix(h, j + 1, key);
        PromptWindow(h[..j + 1], key);
      }
    } else {
      var j :| 0 <= j < |h| && Premature(h, key, j);
      PrematureShortens(h, key, j);
    }
  }

  lemma {:induction false} EvictedByLater(h: seq<Call>, key: string) returns (k: nat)
    requires Evicted(h, key)
    ensures k < |h| && CallsOf(h, key) != []
    ensures h[k].time - CallsOf(h, key)[|CallsOf(h, key)| - 1].time > HOUR
  {
    k := |h| - 1;
    if Evicted(h[..k], key) { k := EvictedByLater(h[..k], key); }
  }

  /** Calls that take the lock in the order of their clock readings are never evicted too early. */
  lemma ChronologicalIsPrompt(h: seq<Call>, key: string)
    requires Chronological(h)
    ensures Prompt(h, key)
  {
    forall j | 0 <= j < |h| ensures !Premature(h, key, j) {
      if Evicted(h[..j], key) {
        var k := EvictedByLater(h[..j], key);
        assert h[k].time <= h[j].time;
      }
    }
  }

  /**
    A preparation is accepted iff at most ten distinct targets, itself included, occur among its
    own key's calls since that key's last gap of over an hour, for every history without premature
    eviction of that key; in particular for every history in time order.
   */
  lemma {:induction false} GuardRefinesWindow(h: seq<Call>, c: Call)
    requires Prompt(h + [c], c.key)
    ensures WithinBudget(Admit(Replay(h), c), c.key) <==>
            |Targets(Window(CallsOf(h + [c], c.key)))| <= 10
    ensures c.key in Admit(Replay(h), c)
    ensures Admit(Replay(h), c)[c.key].targets == Targets(Window(CallsOf(h + [c], c.key)))
  {
    GuardCountsLockWindow(h, c);
    PromptWindow(h + [c], c.key);
  }

  lemma {:induction false} CallsOfConcat(h: seq<Call>, g: seq<Call>, key: string)
    ensures CallsOf(h + g, key) == CallsOf(h, key) + CallsOf(g, key)
    decreases |g|
  {
    if g == [] {
      assert h + g == h;
    } else {
      assert (h + g)[..|h + g| - 1] == h + g[..|g| - 1];
      CallsOfConcat(h, g[..|g| - 1], key);
    }
  }

  /** Inserting any call for another key anywhere in the past, with its sweep, changes no answer. */
  lemma OtherKeysDoNotMatter(h: seq<Call>, other: Call, g: seq<Call>, c: Call)
    requires other.key != c.key
    requires Prompt(h + g + [c], c.key) && Prompt(h + [other] + g + [c], c.key)
    ensures WithinBudget(Admit(Replay(h + [other] + g), c), c.key) <==>
            WithinBudget(Admit(Replay(h + g), c), c.key)
  {
    GuardRefinesWindow(h + g, c);
    GuardRefinesWindow(h + [other] + g, c);
    CallsOfConcat(h + [other] + g, [c], c.key);
    CallsOfConcat(h + [other], g, c.key);
    CallsOfConcat(h, [other], c.key);
    CallsOfConcat(h + g, [c], c.key);
    CallsOfConcat(h, g, c.key);
    assert CallsOf([other], c.key) == [];
    assert CallsOf(h, c.key) + [] == CallsOf(h, c.key);
    assert CallsOf(h + [other] + g + [c], c.key) == CallsOf(h + g + [c], c.key);
  }

  /** A retried preparation of a target the window already knows leaves the guard's targets for the key as they were. */
  lemma {:induction false} RetryIsFree(h: seq<Call>, c: Call)
    requires Prompt(h + [c], c.key) && CallsOf(h, c.key) != []
    requires c.time - CallsOf(h, c.key)[|CallsOf(h, c.key)| - 1].time <= HOUR
    requires c.target in Targets(Window(CallsOf(h, c.key)))
    ensures c.key in Replay(h) && c.key in Admit(Replay(h), c)
    ensures Admit(Replay(h), c)[c.key].targets == Replay(h)[c.key].targets
  {
    GuardRefinesWindow(h, c);
    CallsOfAppend(h, c, c.key);
    KnownTarget(CallsOf(h, c.key), c);
    NotEvictedBefore(h, c);
    ReplayHolds(h, c.key);
  }

  lemma TargetsOfWindow(calls: seq<Call>, c: Call)
    requires calls != [] && c.time - calls[|calls| - 1].time <= HOUR
    ensures Targets(Window(calls + [c])) == Targets(Window(calls)) + {c.target}
  {
    WindowAppend(calls, c);
    TargetsAppend(Window(calls), c);
  }

  lemma KnownTarget(calls: seq<Call>, c: Call)
    requires calls != [] && c.time - calls[|calls| - 1].time <= HOUR && c.target in Targets(Window(calls))
    ensures Targets(Window(calls + [c])) == Targets(Window(calls))
  {
    TargetsOfWindow(calls, c);
  }

  lemma NotEvictedBefore(h: seq<Call>, c: Call)
    requires Prompt(h + [c], c.key) && CallsOf(h, c.key) != []
    requires c.time - CallsOf(h, c.key)[|CallsOf(h, c.key)| - 1].time <= HOUR
    ensures LockWindow(h, c.key) == Window(CallsOf(h, c.key)) != []
  {
    assert (h + [c])[..|h|] == h;
    assert !Premature(h + [c], c.key, |h|);
    PromptPrefix(h + [c], |h|, c.key);
    PromptWindow(h, c.key);
    WindowEnds(CallsOf(h, c.key));
  }

  /**
    The clock is read before the lock is taken. If a call enters the lock late, another key's sweep
    may have evicted an entry that is not an hour old for it, and the guard forgets its targets.
   */
  lemma LateCallLosesItsWindow()
    ensures var h, c := [Call("a", 1, 0), Call("b", 1, HOUR + 1)], Call("a", 2, HOUR);
            !Chronological(h + [c]) && !Prompt(h + [c], "a") &&
            Targets(Window(CallsOf(h + [c], "a"))) == {1, 2} && Admit(Replay(h), c)["a"].targets == {2}
  {
    var a, b, c := Call("a", 1, 0), Call("b", 1, HOUR + 1), Call("a", 2, HOUR);
    LateCallWindow(a, b, c);
    assert Replay([a]) == Admit(map[], a) by { assert [a][..0] == []; }
    assert Replay([a, b]) == Admit(Replay([a]), b) by { assert [a, b][..1] == [a]; }
    assert "a" !in Swept(Replay([a]), b.time);
    assert "a" !in Replay([a, b]);
    assert ([a, b] + [c])[1] == b && ([a, b] + [c])[2] == c;
    if Prompt([a, b] + [c], "a") { GuardRefinesWindow([a, b], c); }
  }

  lemma LateCallWindow(a: Call, b: Call, c: Call)
    requires a.key == c.key != b.key && c.time - a.time <= HOUR
    ensures Targets(Window(CallsOf([a, b] + [c], c.key))) == {a.target, c.target}
  {
    OwnCallsAround(a, b, c);
    TargetsOfWindow([a], c);
    TargetsAppend([], a);
    assert [] + [a] == [a] && Window([a]) == [a] && Targets([]) == {};
  }

  lemma OneCall(a: Call)
    ensures CallsOf([a], a.key) == [a]
  {
    assert [a][..0] == [];
  }

  lemma OwnCallsAround(a: Call, b: Call, c: Call)
    requires a.key == c.key != b.key
    ensures CallsOf([a, b] + [c], c.key) == [a] + [c]
  {
    var h, g := [a], [a, b];
    OneCall(a);
    CallsOfAppend(h, b, c.key);
    assert g == h + [b];
    CallsOfAppend(g, c, c.key);
  }

  // ---------- the guard key ----------

  function DigitChar(d: nat): char
    requires d < 10
  {
    ('0' as int + d) as char
  }

  function Digits(n: nat): (s: string)
    ensures s != [] && forall i :: 0 <= i < |s| ==> '0' <= s[i] <= '9'
  {
    if n < 10 then [DigitChar(n)] else Digits(n / 10) + [DigitChar(n % 10)]
  }

  /** The %d verb. */
  function Itoa(i: int): string { if i < 0 then "-" + Digits(-i) else Digits(i) }

  lemma {:induction false} DigitsInjective(m: nat, n: nat)
    requires Digits(m) == Digits(n)
    ensures m == n
  {
    var s, t := Digits(m), Digits(n);
    assert s[|s| - 1] == t[|t| - 1];
    if m >= 10 && n >= 10 {
      assert s[..|s| - 1] == Digits(m / 10) && t[..|t| - 1] == Digits(n / 10);
      DigitsInjective(m / 10, n / 10);
    }
  }

  lemma ItoaInjective(i: int, j: int)
    requires Itoa(i) == Itoa(j)
    ensures i == j
  {
    assert i < 0 <==> Itoa(i)[0] == '-';
    assert j < 0 <==> Itoa(j)[0] == '-';
    if i < 0 {
      assert Itoa(i)[1..] == Digits(-i) && Itoa(j)[1..] == Digits(-j);
      DigitsInjective(-i, -j);
    } else {
      DigitsInjective(i, j);
    }
  }

  lemma ItoaHasNoSlash(i: int)
    ensures '/' !in Itoa(i)
  {
  }

  function GuardKey(experiment: string, execution: int, exchange: string, routingKey: string): string {
    experiment + "/" + Itoa(execution) + "/" + exchange + "/" + routingKey
  }

  /** The first slash splits a string in only one way. */
  lemma SplitAtSlash(a: string, x: string, b: string, y: string)
    requires a + "/" + x == b + "/" + y && '/' !in a && '/' !in b
    ensures a == b && x == y
  {
    var s := a + "/" + x;
    assert s[|a|] == '/' && s[|b|] == '/';
    assert forall i :: 0 <= i < |a| ==> s[i] == a[i] && a[i] in a;
    assert s == b + "/" + y && forall i :: 0 <= i < |b| ==> s[i] == b[i] && b[i] in b;
    assert |a| == |b|;
    assert a == s[..|a|] && b == s[..|b|];
    assert x == s[|a| + 1..] && y == s[|b| + 1..];
  }

  /** Everything in the key before the routing key. */
  function Head(experiment: string, execution: int, exchange: string): string {
    experiment + "/" + Itoa(execution) + "/" + exchange
  }

  /** Two strings can be continued after a slash to the same string iff one is the other up to one of its slashes. */
  lemma ContinueAlike(a: string, b: string)
    ensures (exists r: string, s: string :: a + "/" + r == b + "/" + s) <==> a == b || a + "/" <= b || b + "/" <= a
  {
    forall r: string, s: string | a + "/" + r == b + "/" + s ensures a == b || a + "/" <= b || b + "/" <= a {
      if |a| < |b| { PrefixUpTo(a, r, b, s); } else if |b| < |a| { PrefixUpTo(b, s, a, r); } else {
        assert (a + "/" + r)[..|a|] == a && (b + "/" + s)[..|a|] == b;
      }
    }
    if a == b { assert a + "/" + "" == b + "/" + ""; }
    if a + "/" <= b { assert a + "/" + (b[|a| + 1..] + "/") == b + "/" + ""; }
    if b + "/" <= a { assert a + "/" + "" == b + "/" + (a[|b| + 1..] + "/"); }
  }

  lemma PrefixUpTo(a: string, r: string, b: string, s: string)
    requires a + "/" + r == b + "/" + s && |a| < |b|
    ensures a + "/" <= b
  {
    assert (a + "/" + r)[..|a| + 1] == a + "/";
    assert (b + "/" + s)[..|a| + 1] == b[..|a| + 1];
  }

  /**
    Which destinations can be given a common budget by their routing keys: exactly those of which
    one's experiment, execution and exchange, joined by slashes, are the other's or start it up to
    a slash.
   */
  lemma HeadsShareBudgetIff(e1: string, n1: int, x1: string, e2: string, n2: int, x2: string)
    ensures (exists r1, r2 :: GuardKey(e1, n1, x1, r1) == GuardKey(e2, n2, x2, r2)) <==>
            var a, b := Head(e1, n1, x1), Head(e2, n2, x2); a == b || a + "/" <= b || b + "/" <= a
  {
    var a, b := Head(e1, n1, x1), Head(e2, n2, x2);
    assert forall r :: GuardKey(e1, n1, x1, r) == a + "/" + r;
    assert forall r :: GuardKey(e2, n2, x2, r) == b + "/" + r;
    ContinueAlike(a, b);
    if r: string, s: string :| a + "/" + r == b + "/" + s {
      assert GuardKey(e1, n1, x1, r) == GuardKey(e2, n2, x2, s);
    }
  }

  lemma KeySplits(e: string, n: int, x: string, r: string)
    ensures GuardKey(e, n, x, r) == e + "/" + (Itoa(n) + "/" + (x + "/" + r))
  {
  }

  /**
    Experiment keys without slashes keep executions apart: two preparations share a budget iff they
    belong to the same execution and agree on exchange and routing key joined by a slash; that is,
    on all four parts if the exchanges have no slash either.
   */
  lemma KeysShareBudgetIffEqual(e1: string, n1: int, x1: string, r1: string, e2: string, n2: int, x2: string, r2: string)
    requires '/' !in e1 && '/' !in e2
    ensures GuardKey(e1, n1, x1, r1) == GuardKey(e2, n2, x2, r2) <==>
            e1 == e2 && n1 == n2 && x1 + "/" + r1 == x2 + "/" + r2
    ensures '/' !in x1 && '/' !in x2 ==>
              (GuardKey(e1, n1, x1, r1) == GuardKey(e2, n2, x2, r2) <==> e1 == e2 && n1 == n2 && x1 == x2 && r1 == r2)
  {
    KeySplits(e1, n1, x1, r1);
    KeySplits(e2, n2, x2, r2);
    if GuardKey(e1, n1, x1, r1) == GuardKey(e2, n2, x2, r2) {
      SplitAtSlash(e1, Itoa(n1) + "/" + (x1 + "/" + r1), e2, Itoa(n2) + "/" + (x2 + "/" + r2));
      ItoaHasNoSlash(n1);
      ItoaHasNoSlash(n2);
      SplitAtSlash(Itoa(n1), x1 + "/" + r1, Itoa(n2), x2 + "/" + r2);
      ItoaInjective(n1, n2);
    }
    if x1 + "/" + r1 == x2 + "/" + r2 && '/' !in x1 && '/' !in x2 { SplitAtSlash(x1, r1, x2, r2); }
  }

  /**
    Within one execution two different exchanges can share a budget, for some routing keys, iff one
    of them is the part of the other before one of its slashes.
   */
  lemma ExchangesShareBudgetIff(e: string, n: int, x1: string, x2: string)
    requires x1 != x2
    ensures (exists r1, r2 :: GuardKey(e, n, x1, r1) == GuardKey(e, n, x2, r2)) <==>
            x1 + "/" <= x2 || x2 + "/" <= x1
  {
    var p := e + "/" + Itoa(n) + "/";
    assert Head(e, n, x1) == p + x1 && Head(e, n, x2) == p + x2;
    HeadsShareBudgetIff(e, n, x1, e, n, x2);
    CommonPrefix(p, x1, x2);
    CommonPrefix(p, x2, x1);
  }

  lemma CommonPrefix(p: string, x: string, y: string)
    ensures p + x == p + y <==> x == y
    ensures p + x + "/" <= p + y <==> x + "/" <= y
  {
    assert (p + x)[|p|..] == x && (p + y)[|p|..] == y;
    var a, b := p + x + "/", p + y;
    if a <= b {
      assert x + "/" == a[|p|..] && a[|p|..] == b[..|a|][|p|..] && b[..|a|][|p|..] == y[..|x| + 1];
    }
    if x + "/" <= y { assert b[..|a|] == p + y[..|x| + 1] == a; }
  }

  /** An exchange name may contain a slash, and then two different exchanges can share one budget. */
  lemma SlashInExchangeCollides()
    ensures GuardKey("e", 1, "a/b", "c") == GuardKey("e", 1, "a", "b/c")
  {
  }

  // ---------- the guard itself ----------

  /** The experiment key and execution id of a request, when the platform sent both. */
  datatype ExecutionContext = ExecutionContext(experimentKey: string, executionId: int)

  class Guard {
    var entries: Entries

    constructor ()
      ensures entries == map[]
    {
      entries := map[];
    }

    /** `guardExchangeTargetCount`: true if the preparation may go ahead. */
    method Prepare(ctx: Option<ExecutionContext>, exchange: string, routingKey: string, target: nat, now: int)
      returns (accepted: bool)
      modifies this
      ensures ctx.None? ==> accepted && entries == old(entries)
      ensures ctx.Some? ==>
                var key := GuardKey(ctx.value.experimentKey, ctx.value.executionId, exchange, routingKey);
                entries == Admit(old(entries), Call(key, target, now)) && accepted == WithinBudget(entries, key)
    {
      if ctx.None? {
        return true;
      }
      var key := GuardKey(ctx.value.experimentKey, ctx.value.executionId, exchange, routingKey);
      var before := entries;
      var todo := entries.Keys;
      while todo != {}
        invariant todo <= before.Keys
        invariant entries == map k | k in before && (k in todo || !(now - before[k].lastSeen > HOUR)) :: before[k]
        decreases |todo|
      {
        var k :| k in todo;
        if now - entries[k].lastSeen > HOUR {
          entries := entries - {k};
        }
        todo := todo - {k};
      }
      assert entries == Swept(before, now);
      var known := if key in entries then entries[key].targets else {};
      entries := entries[key := Entry(known + {target}, now)];
      accepted := |entries[key].targets| <= MAX_TARGETS;
    }
  }
}
