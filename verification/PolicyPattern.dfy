/**
  `rabbitsafeRegex` of extrabbitmq/alter_queue_max_length.go and what its result means to a
  regular-expression engine. Only literals, escapes and anchors are given a meaning here; every
  other construct is a token of its own that no literal equals.
 */
module PolicyPattern {
  const SPECIAL: set<char> := {'.', '+', '*', '?', '[', ']', '(', ')', '{', '}', '^', '$', '|', '/'}

  function EscapeChar(c: char): string { if c in SPECIAL then ['\\', c] else [c] }

  /** `rabbitsafeRegex`: a backslash is not escaped. */
  function Escape(name: string): string {
    if name == "" then "" else EscapeChar(name[0]) + Escape(name[1..])
  }

  function Pattern(name: string): string { "^" + Escape(name) + "$" }

  // ---------- reading a pattern ----------

  datatype Token =
    | Lit(c: char)
    | StartAnchor
    | EndAnchor
    | Operator(c: char)   // a metacharacter with its special meaning
    | EscapeClass(c: char)  // an escape that does not stand for its character
    | Dangling            // a trailing backslash

  predicate IsDigit(c: char) { '0' <= c <= '9' }

  predicate IsAlnum(c: char) { IsDigit(c) || 'a' <= c <= 'z' || 'A' <= c <= 'Z' }

  /** Whether `s` continues an opening brace to a repetition such as {2} or {2,5}. */
  predicate ClosesRepeat(s: string, digit: bool, comma: bool) {
    s != "" &&
    if IsDigit(s[0]) then ClosesRepeat(s[1..], true, comma)
    else if s[0] == ',' then digit && !comma && ClosesRepeat(s[1..], digit, true)
    else s[0] == '}' && digit
  }

  /** An escaped ASCII character that is neither letter nor digit stands for itself. */
  function EscapedToken(c: char): Token {
    if (c as int) < 128 && !IsAlnum(c) then Lit(c) else EscapeClass(c)
  }

  /** An unescaped character; a brace that opens no repetition, and a lone ] } or /, are literals. */
  function PlainToken(c: char, rest: string): Token {
    if c == '^' then StartAnchor
    else if c == '$' then EndAnchor
    else if c in {'.', '+', '*', '?', '[', '(', ')', '|'} then Operator(c)
    else if c == '{' && ClosesRepeat(rest, false, false) then Operator(c)
    else Lit(c)
  }

  function Tokenize(s: string): seq<Token> {
    if s == "" then []
    else if s[0] == '\\' then
      if |s| == 1 then [Dangling] else [EscapedToken(s[1])] + Tokenize(s[2..])
    else [PlainToken(s[0], s[1..])] + Tokenize(s[1..])
  }

  function Lits(name: string): seq<Token> { seq(|name|, i requires 0 <= i < |name| => Lit(name[i])) }

  function Anchored(name: string): seq<Token> { [StartAnchor] + Lits(name) + [EndAnchor] }

  // ---------- when the escaping is exact ----------

  /** A backslash in the name goes unescaped; it survives only in front of one of these. */
  predicate BackslashesHarmless(name: string) {
    forall i :: 0 <= i < |name| && name[i] == '\\' ==> i + 1 < |name| && name[i + 1] in {'/', ']', '{', '}'}
  }

  /** The tokens of the escaped name with the closing anchor of the pattern. */
  function Tail(name: string): seq<Token> { Tokenize(Escape(name) + "$") }

  lemma {:induction false} NoRepeatInEscaped(name: string, digit: bool, comma: bool)
    ensures !ClosesRepeat(Escape(name) + "$", digit, comma)
    decreases |name|
  {
    if name != "" {
      var s := Escape(name) + "$";
      if name[0] !in SPECIAL {
        assert s[1..] == Escape(name[1..]) + "$";
        NoRepeatInEscaped(name[1..], true, comma);
        NoRepeatInEscaped(name[1..], digit, true);
      }
    }
  }

  lemma EmptyTail()
    ensures Tail("") == [EndAnchor] && Lits("") == []
  {
    assert Escape("") + "$" == "$" && "$"[1..] == "";
    assert Tokenize("$") == [PlainToken('$', "$"[1..])] + Tokenize("$"[1..]);
  }

  lemma SpecialIsPunctuation(c: char)
    requires c in SPECIAL
    ensures c != '\\' && EscapedToken(c) == Lit(c)
  {
  }

  lemma TailOfPlainChar(name: string)
    requires name != "" && name[0] != '\\'
    ensures Tail(name) == [Lit(name[0])] + Tail(name[1..])
  {
    var c, s, r := name[0], Escape(name) + "$", Escape(name[1..]) + "$";
    if c in SPECIAL {
      SpecialIsPunctuation(c);
      assert s == ['\\', c] + r && s[2..] == r;
      assert s[0] == '\\' && s[1] == c;
      assert Tokenize(s) == [EscapedToken(c)] + Tokenize(r);
    } else {
      assert s == [c] + r && s[1..] == r && s[0] == c;
      assert PlainToken(c, r) == Lit(c);
      assert Tokenize(s) == [PlainToken(c, r)] + Tokenize(r);
    }
  }

  /** A backslash before a special character swallows that character's own escape. */
  lemma TailOfBackslashSpecial(name: string)
    requires |name| >= 2 && name[0] == '\\' && name[1] in SPECIAL
    ensures Tail(name) == [Lit('\\'), PlainToken(name[1], Escape(name[2..]) + "$")] + Tail(name[2..])
  {
    var s, r := Escape(name) + "$", Escape(name[2..]) + "$";
    assert Escape(name[1..]) == ['\\', name[1]] + Escape(name[2..]) by { assert name[1..][1..] == name[2..]; }
    assert s == ['\\', '\\', name[1]] + r;
    assert s[2..] == [name[1]] + r && s[2..][1..] == r;
    SpecialIsPunctuation(name[1]);
    assert Tokenize(s[2..]) == [PlainToken(name[1], r)] + Tokenize(r);
    assert Tokenize(s) == [EscapedToken('\\')] + Tokenize(s[2..]);
  }

  /** A backslash before any other character forms an escape with it. */
  lemma TailOfBackslashOther(name: string)
    requires |name| >= 2 && name[0] == '\\' && name[1] !in SPECIAL
    ensures Tail(name) == [EscapedToken(name[1])] + Tail(name[2..])
  {
    var s, r := Escape(name) + "$", Escape(name[2..]) + "$";
    assert Escape(name[1..]) == [name[1]] + Escape(name[2..]) by { assert name[1..][1..] == name[2..]; }
    assert s == ['\\', name[1]] + r && s[2..] == r;
    assert Tokenize(s) == [EscapedToken(name[1])] + Tokenize(r);
  }

  lemma TailOfLastBackslash(name: string)
    requires |name| == 1 && name[0] == '\\'
    ensures Tail(name) == [Lit('$')]
  {
    SpecialIsPunctuation('$');
    var s := Escape(name) + "$";
    assert name[1..] == "" && '\\' !in SPECIAL;
    assert Escape(name) == ['\\'] + Escape("");
    assert s == ['\\', '$'] && s[2..] == "";
    assert Tokenize(s) == [EscapedToken('$')] + Tokenize("");
  }

  lemma {:induction false} TailNotLonger(name: string)
    ensures |Tail(name)| <= |name| + 1
    decreases |name|
  {
    if name == "" {
      EmptyTail();
    } else if name[0] != '\\' {
      TailOfPlainChar(name);
      TailNotLonger(name[1..]);
    } else if |name| == 1 {
      TailOfLastBackslash(name);
    } else {
      if name[1] in SPECIAL { TailOfBackslashSpecial(name); } else { TailOfBackslashOther(name); }
      TailNotLonger(name[2..]);
    }
  }

  lemma LitsCons(name: string)
    requires name != ""
    ensures Lits(name) == [Lit(name[0])] + Lits(name[1..])
  {
  }

  lemma HarmlessRest(name: string, k: nat)
    requires k <= |name| && forall i :: 0 <= i < k && name[i] == '\\' ==>
                              i + 1 < |name| && name[i + 1] in {'/', ']', '{', '}'}
    ensures BackslashesHarmless(name) <==> BackslashesHarmless(name[k..])
  {
  }

  /** One character of the name is one token: compare heads, then rests. */
  lemma ConsEqual(t: Token, ts: seq<Token>, name: string)
    requires name != ""
    ensures [t] + ts == Lits(name) + [EndAnchor] <==> t == Lit(name[0]) && ts == Lits(name[1..]) + [EndAnchor]
  {
    LitsCons(name);
    var r := Lits(name[1..]) + [EndAnchor];
    assert Lits(name) + [EndAnchor] == [Lit(name[0])] + r;
    assert ([t] + ts)[0] == t && ([t] + ts)[1..] == ts;
    assert ([Lit(name[0])] + r)[0] == Lit(name[0]) && ([Lit(name[0])] + r)[1..] == r;
  }

  /** What exactness means in terms of the rest of the name, once two of its characters are read. */
  lemma AfterBackslashSpecial(name: string)
    requires |name| >= 2 && name[0] == '\\' && name[1] in SPECIAL
    ensures Tail(name) == Lits(name) + [EndAnchor] <==>
            name[1] in {'/', ']', '{', '}'} && Tail(name[2..]) == Lits(name[2..]) + [EndAnchor]
  {
    var tok := PlainToken(name[1], Escape(name[2..]) + "$");
    TailOfBackslashSpecial(name);
    assert Tail(name) == [Lit('\\')] + ([tok] + Tail(name[2..]));
    ConsEqual(Lit('\\'), [tok] + Tail(name[2..]), name);
    assert name[1..][1..] == name[2..];
    ConsEqual(tok, Tail(name[2..]), name[1..]);
    NoRepeatInEscaped(name[2..], false, false);
  }

  lemma AfterBackslashOther(name: string)
    requires |name| >= 2 && name[0] == '\\' && name[1] !in SPECIAL
    ensures Tail(name) != Lits(name) + [EndAnchor]
  {
    TailOfBackslashOther(name);
    if name[1] == '\\' {
      TailNotLonger(name[2..]);
      assert |Tail(name)| <= |name| < |Lits(name) + [EndAnchor]|;
    } else {
      ConsEqual(EscapedToken(name[1]), Tail(name[2..]), name);
    }
  }

  lemma {:induction false} TailExact(name: string)
    ensures Tail(name) == Lits(name) + [EndAnchor] <==> BackslashesHarmless(name)
    decreases |name|
  {
    if name == "" {
      EmptyTail();
    } else if name[0] != '\\' {
      TailOfPlainChar(name);
      ConsEqual(Lit(name[0]), Tail(name[1..]), name);
      HarmlessRest(name, 1);
      TailExact(name[1..]);
    } else if |name| == 1 {
      TailOfLastBackslash(name);
      assert (Lits(name) + [EndAnchor])[0] == Lit('\\');
    } else if name[1] in SPECIAL {
      AfterBackslashSpecial(name);
      if name[1] in {'/', ']', '{', '}'} { HarmlessRest(name, 2); }
      TailExact(name[2..]);
    } else {
      AfterBackslashOther(name);
    }
  }

  /**
    The escape round trip, with its exact condition: the pattern for a name reads as the anchored
    literals of that name iff every backslash in the name stands before one of / ] { }. That
    covers every name without a backslash.
   */
  lemma EscapeRoundTrip(name: string)
    ensures Tokenize(Pattern(name)) == Anchored(name) <==> BackslashesHarmless(name)
    ensures '\\' !in name ==> BackslashesHarmless(name)
  {
    TailExact(name);
    var s := Escape(name) + "$";
    assert Pattern(name) == ['^'] + s && (['^'] + s)[1..] == s;
    assert Tokenize(Pattern(name)) == [StartAnchor] + Tail(name);
    assert Anchored(name) == [StartAnchor] + (Lits(name) + [EndAnchor]);
    assert ([StartAnchor] + Tail(name))[1..] == Tail(name);
    assert ([StartAnchor] + (Lits(name) + [EndAnchor]))[1..] == Lits(name) + [EndAnchor];
  }

  /** A name with a backslash for which the pattern goes wrong: a queue called \d is taken for any digit. */
  lemma BackslashIsNotEscaped()
    ensures Tokenize(Pattern("\\d")) == [StartAnchor, EscapeClass('d'), EndAnchor]
  {
  }

  /** The escaping is injective on all names. */
  lemma {:induction false} EscapeInjective(a: string, b: string)
    requires Escape(a) == Escape(b)
    ensures a == b
    decreases |a|
  {
    if a != "" && b != "" {
      var ra, rb := Escape(a[1..]), Escape(b[1..]);
      assert forall n: string :: n != "" ==> Escape(n)[0] !in SPECIAL;
      assert a[0] in SPECIAL ==> Escape(a)[1] == a[0];
      assert b[0] in SPECIAL ==> Escape(b)[1] == b[0];
      assert a[0] !in SPECIAL ==> Escape(a)[0] == a[0] && Escape(a)[1..] == ra;
      assert b[0] !in SPECIAL ==> Escape(b)[0] == b[0] && Escape(b)[1..] == rb;
      assert a[0] == b[0];
      assert ra == Escape(a)[|EscapeChar(a[0])|..] && rb == Escape(b)[|EscapeChar(b[0])|..];
      EscapeInjective(a[1..], b[1..]);
      assert a == [a[0]] + a[1..] && b == [b[0]] + b[1..];
    }
  }

  // ---------- matching ----------

  /** Only literals and anchors. */
  predicate IsSimple(ts: seq<Token>) {
    forall i :: 0 <= i < |ts| ==> ts[i].Lit? || ts[i].StartAnchor? || ts[i].EndAnchor?
  }

  /** `newline`: the dollar also matches before a final newline, as in the broker's engine. */
  predicate MatchesAt(ts: seq<Token>, s: string, i: nat, newline: bool)
    requires i <= |s|
    decreases |ts|
  {
    if ts == [] then true
    else
      match ts[0]
      case Lit(c) => i < |s| && s[i] == c && MatchesAt(ts[1..], s, i + 1, newline)
      case StartAnchor => i == 0 && MatchesAt(ts[1..], s, i, newline)
      case EndAnchor => (i == |s| || (newline && i == |s| - 1 && s[i] == '\n')) && MatchesAt(ts[1..], s, i, newline)
      case _ => false
  }

  /** An unanchored search: the tokens match somewhere in `s`. */
  predicate Matches(ts: seq<Token>, s: string, newline: bool) {
    exists i :: 0 <= i <= |s| && MatchesAt(ts, s, i, newline)
  }

  lemma {:induction false} LiteralsMatch(name: string, s: string, i: nat, newline: bool)
    requires i <= |s|
    ensures MatchesAt(Lits(name) + [EndAnchor], s, i, newline) <==>
            s[i..] == name || (newline && s[i..] == name + "\n")
    decreases |name|
  {
    var ts := Lits(name) + [EndAnchor];
    if name == "" {
      assert ts == [EndAnchor] && ts[1..] == [];
      assert s[i..] == "\n" <==> i == |s| - 1 && s[i] == '\n';
    } else {
      LitsCons(name);
      assert ts[0] == Lit(name[0]) && ts[1..] == Lits(name[1..]) + [EndAnchor];
      if i < |s| {
        LiteralsMatch(name[1..], s, i + 1, newline);
        assert s[i..] == [s[i]] + s[i + 1..] && name == [name[0]] + name[1..];
        assert name + "\n" == [name[0]] + (name[1..] + "\n");
        assert s[i..] == name <==> s[i] == name[0] && s[i + 1..] == name[1..] by {
          if s[i..] == name { assert s[i..][0] == s[i] && s[i..][1..] == s[i + 1..]; }
        }
        assert s[i..] == name + "\n" <==> s[i] == name[0] && s[i + 1..] == name[1..] + "\n" by {
          if s[i..] == name + "\n" {
            assert s[i..][0] == s[i] && s[i..][1..] == s[i + 1..];
            assert (name + "\n")[0] == name[0] && (name + "\n")[1..] == name[1..] + "\n";
          }
        }
      }
    }
  }

  /** The anchored literals match the name itself, and to the broker also the name with a newline after it. */
  lemma AnchoredMatches(name: string, s: string, newline: bool)
    ensures IsSimple(Anchored(name))
    ensures Matches(Anchored(name), s, newline) <==> s == name || (newline && s == name + "\n")
  {
    var ts := Anchored(name);
    assert ts[0] == StartAnchor && ts[1..] == Lits(name) + [EndAnchor];
    LiteralsMatch(name, s, 0, newline);
    assert s[0..] == s;
    assert MatchesAt(ts, s, 0, newline) <==> s == name || (newline && s == name + "\n");
  }
}
