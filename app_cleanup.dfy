/**
 * The agent loop's handling of the model's reply (immutable/app.py):
 * `_cleanup`, which applies the `CLEANUPS` rewrites (immutable/const.py)
 * until neither changes the command, and the removal of the shell prompt
 * from the command inside `run`. `_log_output` is `Output.LogOutput`.
 *
 * The two regular expressions are written out as the scans `re.sub` makes
 * with them: at each position the pattern is tried, a match is replaced
 * and the scan resumes after it, otherwise one character is kept.
 */
module ImmutableApp {
  import opened Wrappers
  import opened Text

  /** The entries of `CLEANUPS` (immutable/const.py:10-13). */
  datatype Rule =
    | Fence  // r'```(python)?(.*?)```' replaced by r'\2'
    | Note   // r'\(Note:.*?\)' replaced by ''

  const Cleanups: seq<Rule> := [Fence, Note]

  const Ticks := "```"
  const PythonTag := "python"
  const NoteOpen := "(Note:"

  /** The fewest characters a match of the rule takes beyond what it puts back: its delimiters. */
  function Delimiters(rule: Rule): nat {
    match rule
    case Fence => 6
    case Note => 7
  }

  /**
   * The rule's pattern tried at the start of `s` with `re.DOTALL`: the
   * length of the match and its replacement. A fence tries the `python`
   * tag first and falls back to an untagged fence; the body is the
   * shortest that reaches a closing fence, as `.*?` is.
   */
  function MatchAt(rule: Rule, s: string): (m: Option<(nat, string)>)
    ensures m.Some? ==> m.value.0 <= |s| && |m.value.1| + Delimiters(rule) <= m.value.0
  {
    match rule
    case Fence =>
      if !StartsWith(s, Ticks) then None
      else if StartsWith(s[3..], PythonTag) && FindFrom(s, Ticks, 9).Some? then
        var q := FindFrom(s, Ticks, 9).value;
        Some((q + 3, s[9..q]))
      else if FindFrom(s, Ticks, 3).Some? then
        var q := FindFrom(s, Ticks, 3).value;
        Some((q + 3, s[3..q]))
      else None
    case Note =>
      if !StartsWith(s, NoteOpen) then None
      else if FindFrom(s, ")", 6).Some? then Some((FindFrom(s, ")", 6).value + 1, ""))
      else None
  }

  /** `re.sub(pattern, replacement, s, flags=re.DOTALL)` for the rule. */
  function Sub(rule: Rule, s: string): string
    decreases |s|
  {
    if s == [] then []
    else match MatchAt(rule, s)
      case Some((n, r)) => r + Sub(rule, s[n..])
      case None => [s[0]] + Sub(rule, s[1..])
  }

  /** The rule's pattern matches somewhere in `s`. */
  predicate Matches(rule: Rule, s: string) {
    exists i | 0 <= i < |s| :: MatchAt(rule, s[i..]).Some?
  }

  /**
   * A substitution never lengthens the text, and one that changes it
   * removes at least the rule's delimiters.
   */
  lemma {:induction false} SubShortens(rule: Rule, s: string)
    ensures |Sub(rule, s)| <= |s|
    ensures Sub(rule, s) != s ==> |Sub(rule, s)| + Delimiters(rule) <= |s|
    decreases |s|
  {
    if s != [] {
      match MatchAt(rule, s)
      case Some((n, r)) =>
        assert |Sub(rule, s[n..])| <= |s[n..]| by {
          SubShortens(rule, s[n..]);
        }
      case None =>
        var t := s[1..];
        assert |Sub(rule, t)| <= |t| && (Sub(rule, t) != t ==> |Sub(rule, t)| + Delimiters(rule) <= |t|) by {
          SubShortens(rule, t);
        }
        assert s == [s[0]] + t;
    }
  }

  /** A substitution leaves the text as it is exactly when its pattern matches nowhere in it. */
  lemma {:induction false} SubUnchangedIff(rule: Rule, s: string)
    ensures Sub(rule, s) == s <==> !Matches(rule, s)
    decreases |s|
  {
    if s != [] {
      if MatchAt(rule, s).Some? {
        var (n, r) := MatchAt(rule, s).value;
        assert |Sub(rule, s)| < |s| by {
          SubShortens(rule, s[n..]);
        }
        assert s[0..] == s;
      } else {
        var t := s[1..];
        assert Sub(rule, t) == t <==> !Matches(rule, t) by {
          SubUnchangedIff(rule, t);
        }
        assert Sub(rule, s) == [s[0]] + Sub(rule, t);
        assert Sub(rule, s) == s <==> Sub(rule, t) == t by {
          assert s == [s[0]] + t;
        }
        forall i | 0 <= i < |t| ensures t[i..] == s[i + 1..] {
        }
        assert s[0..] == s;
        if Matches(rule, s) {
          var i :| 0 <= i < |s| && MatchAt(rule, s[i..]).Some?;
          assert i > 0;
          assert MatchAt(rule, t[i - 1..]).Some?;
        }
        if Matches(rule, t) {
          var i :| 0 <= i < |t| && MatchAt(rule, t[i..]).Some?;
          assert MatchAt(rule, s[i + 1..]).Some?;
        }
      }
    }
  }

  lemma OtherCharAt(s: string, c: char, k: nat)
    requires k < |s| && s[k] != c
    ensures !OccursAt(s, [c], k)
  {
    if k + 1 <= |s| {
      assert s[k..k + 1][0] == s[k];
    }
  }

  /** A match that takes the whole text leaves only its replacement. */
  lemma SubWhole(rule: Rule, s: string, r: string)
    requires s != [] && MatchAt(rule, s) == Some((|s|, r))
    ensures Sub(rule, s) == r
  {
    assert s[|s|..] == [];
    assert Sub(rule, s) == r + Sub(rule, []);
  }

  /** The first occurrence at or after `k` is the one at `q` when none comes before it. */
  lemma FindFromIs(s: string, p: string, k: nat, q: nat)
    requires k <= q && OccursAt(s, p, q)
    requires forall j | k <= j < q :: !OccursAt(s, p, j)
    ensures FindFrom(s, p, k) == Some(q)
  {
  }

  /** The closing fence of a block whose body holds no backtick is the one after the body. */
  lemma ClosingFence(body: string, from: nat)
    requires forall i | 0 <= i < |body| :: body[i] != '`'
    requires 3 <= from <= 3 + |body|
    ensures FindFrom(Ticks + body + Ticks, Ticks, from) == Some(3 + |body|)
  {
    var s := Ticks + body + Ticks;
    var q := 3 + |body|;
    assert OccursAt(s, Ticks, q) by {
      assert s[q..q + 3] == Ticks;
    }
    forall k | from <= k < q ensures !OccursAt(s, Ticks, k) {
      assert s[k] == body[k - 3];
    }
    FindFromIs(s, Ticks, from, q);
  }

  lemma FenceBody(body: string, from: nat)
    requires 3 <= from <= 3 + |body|
    ensures (Ticks + body + Ticks)[from..3 + |body|] == body[from - 3..]
  {
  }

  /** A `python` tag after the opening fence is seen exactly when the body starts with it. */
  lemma TagSeen(body: string)
    requires forall i | 0 <= i < |body| :: body[i] != '`'
    ensures var s := Ticks + body + Ticks;
      StartsWith(s, Ticks) && (StartsWith(s[3..], PythonTag) <==> StartsWith(body, PythonTag))
  {
    var s := Ticks + body + Ticks;
    assert s[..3] == Ticks;
    var t := s[3..];
    assert t == body + Ticks;
    if |body| >= 6 {
      assert t[..6] == body[..6];
    } else if |t| >= 6 {
      assert t[..6][|body|] == '`';
    }
  }

  /** The fence at the start of a block whose body holds no backtick takes the whole block. */
  lemma FenceMatch(body: string, from: nat)
    requires forall i | 0 <= i < |body| :: body[i] != '`'
    requires from == if StartsWith(body, PythonTag) then 9 else 3
    ensures var s := Ticks + body + Ticks;
      MatchAt(Fence, s) == Some((|s|, s[from..3 + |body|]))
  {
    var s := Ticks + body + Ticks;
    var q := 3 + |body|;
    TagSeen(body);
    ClosingFence(body, from);
    if from == 9 {
      assert StartsWith(s[3..], PythonTag) && FindFrom(s, Ticks, 9) == Some(q);
    } else {
      assert !StartsWith(s[3..], PythonTag) && FindFrom(s, Ticks, 3) == Some(q);
    }
  }

  /**
   * A fenced block with nothing around it comes out as its body, without
   * the `python` tag when it has one.
   */
  lemma FenceUnwraps(body: string)
    requires forall i | 0 <= i < |body| :: body[i] != '`'
    ensures Sub(Fence, Ticks + body + Ticks) == if StartsWith(body, PythonTag) then body[6..] else body
  {
    var s := Ticks + body + Ticks;
    var from := if StartsWith(body, PythonTag) then 9 else 3;
    var r := s[from..3 + |body|];
    FenceMatch(body, from);
    SubWhole(Fence, s, r);
    FenceBody(body, from);
    assert body[0..] == body;
  }

  /** A note with no `)` inside it is closed by the parenthesis after it. */
  lemma ClosingParen(text: string)
    requires forall i | 0 <= i < |text| :: text[i] != ')'
    ensures var s := NoteOpen + text + ")";
      StartsWith(s, NoteOpen) && FindFrom(s, ")", 6) == Some(6 + |text|)
  {
    var s := NoteOpen + text + ")";
    var q := 6 + |text|;
    assert OccursAt(s, ")", q) by {
      assert s[q..q + 1] == ")";
    }
    forall k | 6 <= k < q ensures !OccursAt(s, ")", k) {
      assert s[k] == text[k - 6];
      OtherCharAt(s, ')', k);
    }
    FindFromIs(s, ")", 6, q);
    assert s[..6] == NoteOpen;
  }

  /** A note in parentheses with no `)` inside it disappears. */
  lemma NoteDisappears(text: string)
    requires forall i | 0 <= i < |text| :: text[i] != ')'
    ensures Sub(Note, NoteOpen + text + ")") == ""
  {
    var s := NoteOpen + text + ")";
    assert MatchAt(Note, s) == Some((|s|, "")) by {
      ClosingParen(text);
    }
    SubWhole(Note, s, "");
  }

  /** The rules of `rules`, applied in order, each to the result of the one before. */
  function ApplyAll(rules: seq<Rule>, s: string): (r: string)
    ensures |r| <= |s|
    ensures r != s ==> |r| < |s|
  {
    if rules == [] then s
    else
      var before := ApplyAll(rules[..|rules| - 1], s);
      SubShortens(rules[|rules| - 1], before);
      Sub(rules[|rules| - 1], before)
  }

  /** One pass of the `for cleanup in CLEANUPS` loop. */
  function Round(s: string): (r: string)
    ensures |r| <= |s|
    ensures r != s ==> |r| < |s|
  {
    ApplyAll(Cleanups, s)
  }

  /** What `_cleanup` returns: passes are repeated until one changes nothing. */
  function Clean(s: string): string
    decreases |s|
  {
    var r := Round(s);
    if r == s then s else Clean(r)
  }

  /** A pass leaves the text as it is exactly when each rule does. */
  lemma RoundUnchangedIff(s: string)
    ensures Round(s) == s <==> Sub(Fence, s) == s && Sub(Note, s) == s
  {
    var f := Sub(Fence, s);
    SubShortens(Fence, s);
    SubShortens(Note, f);
    assert Cleanups[..1] == [Fence] && Cleanups[..1][..0] == [];
    assert ApplyAll(Cleanups[..1], s) == f;
    assert Round(s) == Sub(Note, f);
  }

  lemma {:induction false} CleanShortens(s: string)
    ensures |Clean(s)| <= |s|
    decreases |s|
  {
    if Round(s) != s {
      CleanShortens(Round(s));
    }
  }

  /** The cleaned command is a fixpoint: neither rule matches anywhere in it. */
  lemma {:induction false} CleanFixpoint(s: string)
    ensures Sub(Fence, Clean(s)) == Clean(s) && Sub(Note, Clean(s)) == Clean(s)
    ensures !Matches(Fence, Clean(s)) && !Matches(Note, Clean(s))
    decreases |s|
  {
    if Round(s) != s {
      CleanFixpoint(Round(s));
    } else {
      RoundUnchangedIff(s);
      SubUnchangedIff(Fence, s);
      SubUnchangedIff(Note, s);
    }
  }

  /** A command comes back unchanged exactly when neither rule matches anywhere in it. */
  lemma CleanUnchangedIff(s: string)
    ensures Clean(s) == s <==> !Matches(Fence, s) && !Matches(Note, s)
  {
    RoundUnchangedIff(s);
    SubUnchangedIff(Fence, s);
    SubUnchangedIff(Note, s);
    if Round(s) != s {
      CleanShortens(Round(s));
    }
  }

  /** Cleaning a cleaned command changes nothing. */
  lemma CleanIdempotent(s: string)
    ensures Clean(Clean(s)) == Clean(s)
  {
    CleanFixpoint(s);
    CleanUnchangedIff(Clean(s));
  }

  /**
   * `_cleanup` (immutable/app.py:37-51): passes over `CLEANUPS` until one
   * finds nothing to change. Each change shortens the command, which is
   * what ends the loop.
   */
  method Cleanup(command0: string) returns (commandClean: string)
    ensures commandClean == Clean(command0)
  {
    var command := command0;
    commandClean := command;
    while true
      invariant Clean(command) == Clean(command0)
      decreases |command|
    {
      var matched := false;
      ghost var start := command;
      for i := 0 to |Cleanups|
        invariant command == ApplyAll(Cleanups[..i], start)
        invariant matched <==> command != start
        invariant !matched && i > 0 ==> commandClean == command
      {
        assert Cleanups[..i + 1][..i] == Cleanups[..i];
        SubShortens(Cleanups[i], command);
        commandClean := Sub(Cleanups[i], command);
        if commandClean != command {
          command := commandClean;
          matched := true;
        }
      }
      assert Cleanups[..|Cleanups|] == Cleanups;
      if !matched {
        break;
      }
    }
  }

  /** `s.replace(p, '')`: occurrences of `p` found left to right are dropped. */
  function RemoveAll(s: string, p: string): string
    decreases |s|
  {
    if p == [] || |s| < |p| then s
    else if s[..|p|] == p then RemoveAll(s[|p|..], p)
    else [s[0]] + RemoveAll(s[1..], p)
  }

  /** `s.split(p)`: the text between the occurrences of `p` found left to right. */
  function SplitOn(s: string, p: string): (r: seq<string>)
    requires p != []
    ensures |r| >= 1
    decreases |s|
  {
    if |s| < |p| then [s]
    else if s[..|p|] == p then [""] + SplitOn(s[|p|..], p)
    else
      var rest := SplitOn(s[1..], p);
      [[s[0]] + rest[0]] + rest[1..]
  }

  /** Splitting on `p` and joining with `p` gives the text back. */
  lemma {:induction false} SplitJoin(s: string, p: string)
    requires p != []
    ensures Join(SplitOn(s, p), p) == s
    decreases |s|
  {
    if |s| >= |p| {
      if s[..|p|] == p {
        var t := s[|p|..];
        assert Join(SplitOn(t, p), p) == t by {
          SplitJoin(t, p);
        }
        assert SplitOn(s, p) == [""] + SplitOn(t, p);
        JoinConsEmpty(SplitOn(t, p), p);
        assert s == p + t;
      } else {
        var t := s[1..];
        var rest := SplitOn(t, p);
        assert Join(rest, p) == t by {
          SplitJoin(t, p);
        }
        assert SplitOn(s, p) == [[s[0]] + rest[0]] + rest[1..];
        JoinConsFirst(s[0], rest, p);
        assert s == [s[0]] + t;
      }
    }
  }

  lemma JoinConsEmpty(parts: seq<string>, sep: string)
    requires |parts| >= 1
    ensures Join([""] + parts, sep) == sep + Join(parts, sep)
  {
    assert ([""] + parts)[1..] == parts;
  }

  lemma JoinConsFirst(c: char, parts: seq<string>, sep: string)
    requires |parts| >= 1
    ensures Join([[c] + parts[0]] + parts[1..], sep) == [c] + Join(parts, sep)
  {
    var q := [[c] + parts[0]] + parts[1..];
    if |parts| >= 2 {
      assert q[1..] == parts[1..];
    }
  }

  /** Removing `p` keeps exactly the pieces between its occurrences. */
  lemma {:induction false} RemoveIsConcat(s: string, p: string)
    requires p != []
    ensures RemoveAll(s, p) == Concat(SplitOn(s, p))
    decreases |s|
  {
    if |s| >= |p| {
      if s[..|p|] == p {
        var t := s[|p|..];
        assert RemoveAll(t, p) == Concat(SplitOn(t, p)) by {
          RemoveIsConcat(t, p);
        }
        assert Concat([""] + SplitOn(t, p)) == Concat(SplitOn(t, p));
      } else {
        var t := s[1..];
        var rest := SplitOn(t, p);
        assert RemoveAll(t, p) == Concat(rest) by {
          RemoveIsConcat(t, p);
        }
        var q := [[s[0]] + rest[0]] + rest[1..];
        assert q[1..] == rest[1..];
        assert Concat(rest) == rest[0] + Concat(rest[1..]);
      }
    }
  }

  /** `p in s` exactly when `s.split(p)` has more than one piece. */
  lemma {:induction false} SplitFinds(s: string, p: string)
    requires p != []
    ensures Contains(s, p) <==> |SplitOn(s, p)| >= 2
    decreases |s|
  {
    ContainsIff(s, p);
    if |s| >= |p| {
      if s[..|p|] == p {
        assert OccursAt(s, p, 0);
      } else {
        var t := s[1..];
        assert Contains(t, p) <==> |SplitOn(t, p)| >= 2 by {
          SplitFinds(t, p);
        }
        ContainsIff(t, p);
        assert !OccursAt(s, p, 0);
        if Contains(s, p) {
          var i: nat :| OccursAt(s, p, i);
          assert i != 0 && i - 1 + |p| <= |t|;
          assert t[i - 1..i - 1 + |p|] == s[i..i + |p|] == p;
          assert OccursAt(t, p, i - 1);
        }
        if Contains(t, p) {
          var i: nat :| OccursAt(t, p, i);
          assert s[i + 1..i + 1 + |p|] == t[i..i + |p|];
          assert OccursAt(s, p, i + 1);
        }
      }
    } else {
      forall i: nat ensures !OccursAt(s, p, i) {
      }
    }
  }

  /** Every piece removed is one whole occurrence: the text loses `|p|` characters per extra piece. */
  lemma {:induction false} RemoveLength(s: string, p: string)
    requires p != []
    ensures |s| == |RemoveAll(s, p)| + (|SplitOn(s, p)| - 1) * |p|
    decreases |s|
  {
    if |s| >= |p| {
      var n := |SplitOn(s, p)|;
      if s[..|p|] == p {
        var t := s[|p|..];
        assert |t| == |RemoveAll(t, p)| + (n - 2) * |p| by {
          RemoveLength(t, p);
        }
        assert (n - 1) * |p| == (n - 2) * |p| + |p|;
      } else {
        var t := s[1..];
        assert |t| == |RemoveAll(t, p)| + (n - 1) * |p| by {
          RemoveLength(t, p);
        }
      }
    }
  }

  lemma {:induction false} AtLeastOnce(a: nat, b: nat)
    requires a >= 1
    ensures a * b >= b
  {
    if a > 1 {
      AtLeastOnce(a - 1, b);
      assert a * b == (a - 1) * b + b;
    }
  }

  /**
   * The prompt stripping in `run` (immutable/app.py:66-68): a command
   * holding the prompt has it removed wherever `str.replace` finds it.
   */
  function StripPrompt(command: string, prompt: string): string {
    if Contains(command, prompt) then RemoveAll(command, prompt) else command
  }

  /**
   * A command without the prompt is kept; one with it loses every
   * occurrence the left-to-right scan finds, at least one, and keeps the
   * text between them in order.
   */
  lemma StripPromptFacts(command: string, prompt: string)
    requires prompt != []
    ensures !Contains(command, prompt) ==> StripPrompt(command, prompt) == command
    ensures Contains(command, prompt) ==>
      var pieces := SplitOn(command, prompt);
      Join(pieces, prompt) == command
      && StripPrompt(command, prompt) == Concat(pieces)
      && |StripPrompt(command, prompt)| == |command| - (|pieces| - 1) * |prompt|
      && |StripPrompt(command, prompt)| <= |command| - |prompt|
  {
    if Contains(command, prompt) {
      var n := |SplitOn(command, prompt)|;
      SplitJoin(command, prompt);
      RemoveIsConcat(command, prompt);
      RemoveLength(command, prompt);
      SplitFinds(command, prompt);
      AtLeastOnce(n - 1, |prompt|);
    }
  }

  /**
   * The removal is a single pass: what is left can hold the prompt again,
   * when an occurrence straddled one that was removed.
   */
  lemma StripSinglePass()
    ensures StripPrompt("$$  ", "$ ") == "$ "
  {
    var s, p := "$$  ", "$ ";
    assert OccursAt(s, p, 1) by {
      assert s[1..3] == p;
    }
    assert Contains(s, p) by {
      ContainsIff(s, p);
    }
    assert s[..2][1] != p[1];
    assert s[1..][..2] == p;
    assert s[1..][2..] == " ";
    assert RemoveAll(" ", p) == " ";
  }
}
