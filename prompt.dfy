/**
 * The prompt both shells print after every command (`PS1='$? \u@\h:\w \$ '`)
 * and the regular expression both read it back with,
 * `^(?P<exit_code>[0-9]+) (?P<user>.+)@(?P<host>.+):(?P<cwd>.+) (?P<usertype>[$#]) $`
 * (client/shell.py:214-217, immutable/shell.py:123-126), under Python's
 * `re.match` semantics: `.` never matches a newline, `$` matches at the end
 * or just before a final newline, and the greedy groups backtrack, so the
 * user runs to the last `@` that still leaves `host:cwd` behind it and the
 * host to the last `:` that still leaves a non-empty directory.
 */
module Prompts {
  import opened Wrappers
  import opened Text

  /** The named groups of a match, the exit code already passed through `int()`. */
  datatype Fields = Fields(exitCode: nat, user: string, host: string, cwd: string, usertype: char)

  predicate NoNewline(s: string) {
    forall i | 0 <= i < |s| :: s[i] != '\n'
  }

  predicate Lacks(s: string, c: char) {
    forall i | 0 <= i < |s| :: s[i] != c
  }

  /** The part of the input the pattern must cover: `$` may stop before one final newline. */
  function Body(s: string): (c: string)
    ensures c == s || c + "\n" == s
  {
    if |s| > 0 && s[|s| - 1] == '\n' then s[..|s| - 1] else s
  }

  /** Length of the leading run of digits, which `[0-9]+` followed by a space must take whole. */
  function DigitRun(s: string): (n: nat)
    ensures n <= |s| && AllDigits(s[..n])
    ensures n < |s| ==> !IsDigit(s[n])
  {
    if s == [] || !IsDigit(s[0]) then 0
    else
      var n := 1 + DigitRun(s[1..]);
      assert s[..n] == [s[0]] + s[1..][..n - 1];
      n
  }

  /** `r[j]` is a colon `host:cwd` can split at: text on both sides. */
  predicate HostEnd(r: string, j: int) {
    1 <= j <= |r| - 2 && r[j] == ':'
  }

  /** `(?P<host>.+):(?P<cwd>.+)` on `r`: the last split point at index `j` or below. */
  function LastColon(r: string, j: int): (v: Option<nat>)
    decreases j
    ensures v.Some? ==> HostEnd(r, v.value)
  {
    if j < 1 then None
    else if HostEnd(r, j) then Some(j)
    else LastColon(r, j - 1)
  }

  function HostSplit(r: string): (v: Option<nat>)
    ensures v.Some? ==> HostEnd(r, v.value)
  {
    LastColon(r, |r| - 2)
  }

  /** `m[i]` is an `@` the user group can end before: a host and a directory follow. */
  predicate UserEnd(m: string, i: int) {
    1 <= i < |m| && m[i] == '@' && HostSplit(m[i + 1..]).Some?
  }

  /** `(?P<user>.+)@` on `m`: the last `@` at index `i` or below that leaves a host and a directory after it. */
  function LastAt(m: string, i: int): (v: Option<nat>)
    decreases i
    ensures v.Some? ==> UserEnd(m, v.value)
  {
    if i < 1 then None
    else if UserEnd(m, i) then Some(i)
    else LastAt(m, i - 1)
  }

  /** The host split is the last colon with text on both sides. */
  lemma {:induction false} LastColonFacts(r: string, j: int)
    ensures var v := LastColon(r, j);
      (v.Some? ==> v.value <= j && HostEnd(r, v.value) && forall t | v.value < t <= j :: !HostEnd(r, t))
      && (v.None? ==> forall t | t <= j :: !HostEnd(r, t))
    decreases j
  {
    if j >= 1 && !HostEnd(r, j) {
      LastColonFacts(r, j - 1);
    }
  }

  /** The user split is the last `@` that leaves `host:cwd` after it. */
  lemma {:induction false} LastAtFacts(m: string, i: int)
    ensures var v := LastAt(m, i);
      (v.Some? ==> v.value <= i && UserEnd(m, v.value) && forall t | v.value < t <= i :: !UserEnd(m, t))
      && (v.None? ==> forall t | t <= i :: !UserEnd(m, t))
    decreases i
  {
    if i >= 1 && !UserEnd(m, i) {
      LastAtFacts(m, i - 1);
      assert LastAt(m, i) == LastAt(m, i - 1);
    }
  }

  /** No colon in `c` but perhaps its last character. */
  predicate ColonOnlyLast(c: string) {
    forall t | 0 <= t < |c| - 1 :: c[t] != ':'
  }

  /** The text after the last split colon has no colon but perhaps its last character. */
  lemma CwdColons(r: string, j: nat)
    requires HostEnd(r, j) && forall t | j < t <= |r| - 2 :: !HostEnd(r, t)
    ensures ColonOnlyLast(r[j + 1..])
  {
    var c := r[j + 1..];
    forall t | 0 <= t < |c| - 1 ensures c[t] != ':' {
      assert !HostEnd(r, j + 1 + t);
    }
  }

  /**
   * `(?P<user>.+)@(?P<host>.+):(?P<cwd>.+)` on the text between the exit
   * code and the user-type marker.
   */
  function Split(m: string): Option<(string, string, string)> {
    match LastAt(m, |m| - 1)
    case None => None
    case Some(i) => Some(SplitAt(m, i))
  }

  /** The three groups around the `@` at `i` and the host's colon after it. */
  function SplitAt(m: string, i: nat): (string, string, string)
    requires UserEnd(m, i)
  {
    var r := m[i + 1..];
    var j := HostSplit(r).value;
    (m[..i], r[..j], r[j + 1..])
  }

  /** A split puts the three groups back together around `@` and `:`, each non-empty. */
  lemma SplitSound(m: string)
    requires Split(m).Some?
    ensures var (user, host, cwd) := Split(m).value;
      m == user + "@" + host + ":" + cwd
      && |user| > 0 && |host| > 0 && |cwd| > 0 && ColonOnlyLast(cwd)
  {
    var i := LastAt(m, |m| - 1).value;
    var r := m[i + 1..];
    var j := HostSplit(r).value;
    assert Split(m).value == (m[..i], r[..j], r[j + 1..]);
    LastColonFacts(r, |r| - 2);
    CwdColons(r, j);
    Glue(m, i, j);
  }

  lemma Glue(m: string, i: nat, j: nat)
    requires i < |m| && m[i] == '@' && j < |m[i + 1..]| && m[i + 1..][j] == ':'
    ensures m == m[..i] + "@" + m[i + 1..][..j] + ":" + m[i + 1..][j + 1..]
  {
    var r := m[i + 1..];
    assert r == r[..j] + ":" + r[j + 1..];
    assert m == m[..i] + "@" + r;
  }

  /** Digits then a space at `d`, and a space, `$` or `#` and a space at the end. */
  predicate Framed(c: string, d: nat) {
    d > 0 && d + 4 <= |c| && c[d] == ' '
    && c[|c| - 3] == ' ' && c[|c| - 2] in "$#" && c[|c| - 1] == ' '
  }

  /** The text between the exit code's space and the three-character tail. */
  function Groups(c: string, d: nat): string
    requires Framed(c, d)
  {
    c[d + 1..|c| - 3]
  }

  /** The pattern on the part it must cover. */
  function MatchBody(c: string): Option<Fields> {
    var d := DigitRun(c);
    if !Framed(c, d) || !NoNewline(Groups(c, d)) then None
    else
      var sp := Split(Groups(c, d));
      if sp.None? then None
      else Some(Fields(DigitsValue(c[..d]), sp.value.0, sp.value.1, sp.value.2, c[|c| - 2]))
  }

  /** The match, or `None` where `re.match` returns `None`. */
  function Match(s: string): Option<Fields> {
    MatchBody(Body(s))
  }

  /** What the shell prints for these fields. */
  function Render(f: Fields): string {
    Decimal(f.exitCode) + " " + f.user + "@" + f.host + ":" + f.cwd + " " + [f.usertype] + " "
  }

  /**
   * Fields a match can yield: three non-empty groups without newlines, a
   * directory with no colon before its last character, and `$` or `#`.
   */
  predicate Matchable(f: Fields) {
    |f.user| > 0 && |f.host| > 0 && |f.cwd| > 0
    && NoNewline(f.user) && NoNewline(f.host) && NoNewline(f.cwd)
    && ColonOnlyLast(f.cwd)
    && f.usertype in "$#"
  }

  /**
   * A match takes the input apart: it is the leading digits (read as the
   * exit code), a space, `user@host:cwd`, a space, `$` or `#` and a space,
   * with at most one newline after, and the groups are as `Matchable` says.
   */
  lemma MatchSound(s: string)
    requires Match(s).Some?
    ensures var f, c := Match(s).value, Body(s);
      var d := DigitRun(c);
      Matchable(f)
      && d > 0 && DigitsValue(c[..d]) == f.exitCode
      && c == c[..d] + " " + f.user + "@" + f.host + ":" + f.cwd + " " + [f.usertype] + " "
  {
    var c := Body(s);
    var d := DigitRun(c);
    assert Framed(c, d);
    var m := Groups(c, d);
    assert NoNewline(m);
    var (user, host, cwd) := Split(m).value;
    assert Match(s).value == Fields(DigitsValue(c[..d]), user, host, cwd, c[|c| - 2]);
    SplitSound(m);
    Reassemble(c, d);
    Regroup(c[..d], m, [c[|c| - 2]], user, host, cwd);
    NoNewlineParts(user, host, cwd);
  }

  lemma Regroup(p: string, m: string, u: string, user: string, host: string, cwd: string)
    requires m == user + "@" + host + ":" + cwd
    ensures p + " " + m + " " + u + " " == p + " " + user + "@" + host + ":" + cwd + " " + u + " "
  {
  }

  /** A prompt body cut at the digit run and before the three-character tail. */
  lemma Reassemble(c: string, d: nat)
    requires Framed(c, d)
    ensures c == c[..d] + " " + Groups(c, d) + " " + [c[|c| - 2]] + " "
  {
    var r := c[..d] + " " + Groups(c, d) + " " + [c[|c| - 2]] + " ";
    assert |r| == |c|;
    forall i | 0 <= i < |c| ensures r[i] == c[i] {
      if i < d {
      } else if i == d {
      } else if i < |c| - 3 {
        assert r[i] == c[d + 1..|c| - 3][i - d - 1];
      }
    }
  }

  lemma NoNewlineParts(a: string, b: string, c: string)
    requires NoNewline(a + "@" + b + ":" + c)
    ensures NoNewline(a) && NoNewline(b) && NoNewline(c)
  {
    var m := a + "@" + b + ":" + c;
    forall i | 0 <= i < |a| ensures a[i] != '\n' {
      assert a[i] == m[i];
    }
    forall i | 0 <= i < |b| ensures b[i] != '\n' {
      assert b[i] == m[|a| + 1 + i];
    }
    forall i | 0 <= i < |c| ensures c[i] != '\n' {
      assert c[i] == m[|a| + |b| + 2 + i];
    }
  }

  /** Fields the pattern would take apart the way they were put together. */
  predicate Unambiguous(f: Fields) {
    Matchable(f) && Lacks(f.host, '@') && Lacks(f.host, ':') && Lacks(f.cwd, ':')
  }

  /**
   * The prompt of fields whose host has neither `@` nor `:` and whose
   * directory has no `:` matches, and the match gives back those fields.
   */
  lemma RenderMatches(f: Fields)
    requires Unambiguous(f)
    ensures Match(Render(f)) == Some(f)
  {
    var e := Decimal(f.exitCode);
    RenderDigits(f);
    RenderFrame(f);
    SplitUnambiguous(f.user, f.host, f.cwd);
    NoNewlineJoin(f.user, f.host, f.cwd);
    MatchWhen(Render(f), |e|, f.user, f.host, f.cwd);
  }

  /** The digit run of a rendered prompt is the rendered exit code. */
  lemma RenderDigits(f: Fields)
    requires Unambiguous(f)
    ensures var s, e := Render(f), Decimal(f.exitCode);
      DigitRun(s) == |e| && DigitsValue(s[..|e|]) == f.exitCode
  {
    var s, e := Render(f), Decimal(f.exitCode);
    var rest := " " + (f.user + "@" + f.host + ":" + f.cwd) + (" " + [f.usertype] + " ");
    assert s == e + rest;
    NatDigitsCanonical(f.exitCode);
    DigitRunStops(e, rest);
    assert s[..|e|] == e;
  }

  /** A rendered prompt has the frame the pattern wants and the groups in between. */
  lemma RenderFrame(f: Fields)
    requires Unambiguous(f)
    ensures var s, e := Render(f), Decimal(f.exitCode);
      Body(s) == s && Framed(s, |e|) && s[|s| - 2] == f.usertype
      && Groups(s, |e|) == f.user + "@" + f.host + ":" + f.cwd
  {
    var s, e := Render(f), Decimal(f.exitCode);
    var m := f.user + "@" + f.host + ":" + f.cwd;
    DecimalRoundTrip(f.exitCode);
    assert s == e + " " + m + " " + [f.usertype] + " ";
    assert s[|e| + 1..|s| - 3] == m;
  }

  lemma MatchWhen(s: string, d: nat, user: string, host: string, cwd: string)
    requires Body(s) == s && DigitRun(s) == d && Framed(s, d)
    requires NoNewline(Groups(s, d)) && Split(Groups(s, d)) == Some((user, host, cwd))
    ensures Match(s) == Some(Fields(DigitsValue(s[..d]), user, host, cwd, s[|s| - 2]))
  {
  }

  lemma NoNewlineJoin(a: string, b: string, c: string)
    requires NoNewline(a) && NoNewline(b) && NoNewline(c)
    ensures NoNewline(a + "@" + b + ":" + c)
  {
  }

  /** The text `user@host:cwd` splits back into its parts when host and directory have no colon and the host no `@`. */
  lemma SplitUnambiguous(user: string, host: string, cwd: string)
    requires |user| > 0 && |host| > 0 && |cwd| > 0
    requires Lacks(host, '@') && Lacks(host, ':') && Lacks(cwd, ':')
    ensures Split(user + "@" + host + ":" + cwd) == Some((user, host, cwd))
  {
    var m := user + "@" + host + ":" + cwd;
    var r := host + ":" + cwd;
    var h, u := |host|, |user|;
    assert HostEnd(r, h);
    forall t | h < t ensures !HostEnd(r, t) {
      if h < t < |r| {
        assert r[t] == cwd[t - h - 1];
      }
    }
    LastColonFinds(r, |r| - 2, h);
    assert m[u + 1..] == r;
    assert UserEnd(m, u);
    forall t | u < t <= |m| - 1 ensures !UserEnd(m, t) {
      if t <= u + h {
        assert m[t] == host[t - u - 1];
      } else {
        NoColonAfter(m, r, u, h, t);
      }
    }
    LastAtFinds(m, |m| - 1, u);
    SplitWhen(m, u);
    SplitAtWhen(m, u, h);
    assert m[..u] == user;
    assert r[..h] == host && r[h + 1..] == cwd;
  }

  lemma SplitWhen(m: string, u: nat)
    requires LastAt(m, |m| - 1) == Some(u)
    ensures Split(m) == Some(SplitAt(m, u))
  {
  }

  lemma SplitAtWhen(m: string, u: nat, h: nat)
    requires UserEnd(m, u) && HostSplit(m[u + 1..]) == Some(h)
    ensures SplitAt(m, u) == (m[..u], m[u + 1..][..h], m[u + 1..][h + 1..])
  {
  }

  /** The digit run of a rendering followed by a non-digit is exactly the rendering. */
  lemma DigitRunStops(e: string, rest: string)
    requires |e| > 0 && AllDigits(e) && |rest| > 0 && !IsDigit(rest[0])
    ensures DigitRun(e + rest) == |e|
    decreases |e|
  {
    if |e| > 1 {
      assert (e + rest)[1..] == e[1..] + rest;
      DigitRunStops(e[1..], rest);
    } else {
      assert (e + rest)[1..] == rest;
    }
  }

  /** After the last possible `@`, the tail holds no colon with text on both sides. */
  lemma NoColonAfter(m: string, r: string, u: nat, h: nat, t: int)
    requires u + 1 <= |m| && m[u + 1..] == r && 1 <= h < |r| && r[h] == ':'
    requires forall k | h < k < |r| :: r[k] != ':'
    requires u + h < t <= |m| - 1
    ensures !UserEnd(m, t)
  {
    var q := m[t + 1..];
    forall k ensures !HostEnd(q, k) {
      if 1 <= k <= |q| - 2 {
        assert q[k] == r[t + 1 + k - u - 1];
      }
    }
    LastColonFacts(q, |q| - 2);
  }

  lemma {:induction false} LastColonFinds(r: string, j: int, h: nat)
    requires h <= j && HostEnd(r, h)
    requires forall t | h < t <= j :: !HostEnd(r, t)
    ensures LastColon(r, j) == Some(h)
    decreases j
  {
    if j > h {
      LastColonFinds(r, j - 1, h);
    }
  }

  lemma {:induction false} LastAtFinds(m: string, i: int, u: nat)
    requires u <= i && UserEnd(m, u)
    requires forall t | u < t <= i :: !UserEnd(m, t)
    ensures LastAt(m, i) == Some(u)
    decreases i
  {
    if i > u {
      LastAtFinds(m, i - 1, u);
    }
  }
}
