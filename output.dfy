/**
 * Command output as the shells capture it and as the harness replays it:
 * lines stamped with the time they were read, merged from the two streams
 * by Python's `sorted(..., key=lambda x: x[0])`, which is stable, and then
 * logged one per line with an extra line for a non-zero exit code
 * (client/common.py `log_output`, immutable/app.py `_log_output`).
 *
 * Timestamps are floats in the source; here they are integers, which keeps
 * the only thing the code uses them for, their order.
 */
module Output {
  import opened Wrappers
  import opened Text

  /** `OutputLine = tuple[float, str]`. */
  datatype OutputLine = OutputLine(time: int, text: string)

  datatype Stream = Stdout | Stderr

  /** A line with the stream it came from, as `(*v, colour)` / `(*v, log.info)` builds it. */
  datatype Tagged = Tagged(time: int, text: string, stream: Stream)

  function Tag(lines: seq<OutputLine>, stream: Stream): (r: seq<Tagged>)
    ensures |r| == |lines|
    ensures forall i | 0 <= i < |r| :: r[i] == Tagged(lines[i].time, lines[i].text, stream)
  {
    if lines == [] then [] else [Tagged(lines[0].time, lines[0].text, stream)] + Tag(lines[1..], stream)
  }

  /** The text parts of lines, in order. */
  function Texts(lines: seq<OutputLine>): seq<string> {
    if lines == [] then [] else [lines[0].text] + Texts(lines[1..])
  }

  predicate Sorted(s: seq<Tagged>) {
    forall i, j | 0 <= i < j < |s| :: s[i].time <= s[j].time
  }

  /** The lines of `s` stamped `k`, in their order in `s`. */
  function AtTime(s: seq<Tagged>, k: int): seq<Tagged> {
    if s == [] then []
    else AtTime(s[..|s| - 1], k) + (if s[|s| - 1].time == k then [s[|s| - 1]] else [])
  }

  /** Places `x` after every line of `s` stamped no later than it. */
  function Insert(s: seq<Tagged>, x: Tagged): seq<Tagged> {
    if s == [] then [x]
    else if s[|s| - 1].time <= x.time then s + [x]
    else Insert(s[..|s| - 1], x) + [s[|s| - 1]]
  }

  /** A stable sort by timestamp: Python's `sorted` with the timestamp as key. */
  function SortByTime(s: seq<Tagged>): seq<Tagged> {
    if s == [] then [] else Insert(SortByTime(s[..|s| - 1]), s[|s| - 1])
  }

  /** `sorted(stdout + stderr, key=lambda x: x[0])`. */
  function Merged(stdout: seq<OutputLine>, stderr: seq<OutputLine>): seq<Tagged> {
    SortByTime(Tag(stdout, Stdout) + Tag(stderr, Stderr))
  }

  lemma {:induction false} AtTimeAppend(a: seq<Tagged>, b: seq<Tagged>, k: int)
    ensures AtTime(a + b, k) == AtTime(a, k) + AtTime(b, k)
    decreases |b|
  {
    if b == [] {
      assert a + b == a;
    } else {
      var b' := b[..|b| - 1];
      assert (a + b)[..|a + b| - 1] == a + b';
      AtTimeAppend(a, b', k);
    }
  }

  /** Every line of `Insert(s, x)` is `x` or a line of `s`. */
  lemma {:induction false} InsertMultiset(s: seq<Tagged>, x: Tagged)
    ensures multiset(Insert(s, x)) == multiset(s) + multiset{x}
    decreases |s|
  {
    if s != [] && s[|s| - 1].time > x.time {
      var s', l := s[..|s| - 1], s[|s| - 1];
      assert s == s' + [l];
      InsertMultiset(s', x);
    }
  }

  /** Every line of `s` is stamped no later than `m`. */
  predicate NoLaterThan(s: seq<Tagged>, m: int) {
    forall i | 0 <= i < |s| :: s[i].time <= m
  }

  lemma SortedSnoc(t: seq<Tagged>, l: Tagged)
    requires Sorted(t) && NoLaterThan(t, l.time)
    ensures Sorted(t + [l])
  {
    forall i, j | 0 <= i < j < |t + [l]| ensures (t + [l])[i].time <= (t + [l])[j].time {
      if j < |t| {
        assert (t + [l])[i] == t[i] && (t + [l])[j] == t[j];
      }
    }
  }

  /** Inserting a line no later than `m` into lines no later than `m` keeps them so. */
  lemma InsertNoLater(s': seq<Tagged>, x: Tagged, m: int)
    requires NoLaterThan(s', m) && x.time <= m
    ensures NoLaterThan(Insert(s', x), m)
  {
    var t := Insert(s', x);
    InsertMultiset(s', x);
    forall y | y in t ensures y.time <= m {
      assert y in multiset(t);
      if y != x {
        assert y in multiset(s');
      }
    }
  }

  lemma {:induction false} InsertSorted(s: seq<Tagged>, x: Tagged)
    requires Sorted(s)
    ensures Sorted(Insert(s, x))
    decreases |s|
  {
    if s != [] && s[|s| - 1].time > x.time {
      var s', l := s[..|s| - 1], s[|s| - 1];
      var t := Insert(s', x);
      assert Sorted(t) by {
        assert Sorted(s');
        InsertSorted(s', x);
      }
      assert NoLaterThan(s', l.time) by {
        forall i | 0 <= i < |s'| ensures s'[i].time <= l.time {
          assert s'[i] == s[i];
        }
      }
      InsertNoLater(s', x, l.time);
      assert Insert(s, x) == t + [l];
      SortedSnoc(t, l);
    }
  }

  lemma {:induction false} InsertAtTime(s: seq<Tagged>, x: Tagged, k: int)
    ensures AtTime(Insert(s, x), k) == AtTime(s, k) + AtTime([x], k)
    decreases |s|
  {
    if s == [] {
    } else if s[|s| - 1].time <= x.time {
      AtTimeAppend(s, [x], k);
    } else {
      var s', l := s[..|s| - 1], s[|s| - 1];
      assert s == s' + [l];
      InsertAtTime(s', x, k);
      AtTimeAppend(Insert(s', x), [l], k);
      AtTimeAppend(s', [l], k);
      assert AtTime([l], k) == [] || AtTime([x], k) == [];
    }
  }

  /** The sort keeps every line, orders by timestamp, and keeps the input order among lines with equal stamps. */
  lemma {:induction false} SortByTimeFacts(s: seq<Tagged>)
    ensures Sorted(SortByTime(s))
    ensures multiset(SortByTime(s)) == multiset(s)
    ensures forall k :: AtTime(SortByTime(s), k) == AtTime(s, k)
    decreases |s|
  {
    if s != [] {
      var s', l := s[..|s| - 1], s[|s| - 1];
      assert s == s' + [l];
      SortByTimeFacts(s');
      InsertSorted(SortByTime(s'), l);
      InsertMultiset(SortByTime(s'), l);
      forall k ensures AtTime(SortByTime(s), k) == AtTime(s, k) {
        InsertAtTime(SortByTime(s'), l, k);
        AtTimeAppend(s', [l], k);
      }
    }
  }

  /**
   * The merge of the two streams holds exactly their lines, in timestamp
   * order, and among lines read at the same instant all of stdout's come
   * first, each stream in its own order.
   */
  lemma MergedOrder(stdout: seq<OutputLine>, stderr: seq<OutputLine>)
    ensures var m := Merged(stdout, stderr);
      Sorted(m)
      && multiset(m) == multiset(Tag(stdout, Stdout)) + multiset(Tag(stderr, Stderr))
      && forall k :: AtTime(m, k) == AtTime(Tag(stdout, Stdout), k) + AtTime(Tag(stderr, Stderr), k)
  {
    var a, b := Tag(stdout, Stdout), Tag(stderr, Stderr);
    SortByTimeFacts(a + b);
    forall k ensures AtTime(a + b, k) == AtTime(a, k) + AtTime(b, k) {
      AtTimeAppend(a, b, k);
    }
  }

  /**
   * A sorted arrangement is fixed by what it holds at each timestamp: so the
   * merge is the only sorted sequence that keeps each stamp's lines in
   * input order.
   */
  lemma {:induction false} SortedUnique(s: seq<Tagged>, t: seq<Tagged>)
    requires Sorted(s) && Sorted(t)
    requires forall k :: AtTime(s, k) == AtTime(t, k)
    ensures s == t
    decreases |s| + |t|
  {
    if s == [] && t != [] {
      AtTimeLast(t);
      assert false;
    } else if s != [] && t == [] {
      AtTimeLast(s);
      assert false;
    } else if s != [] {
      var s', a, t', b := s[..|s| - 1], s[|s| - 1], t[..|t| - 1], t[|t| - 1];
      AtTimeLast(s);
      AtTimeLast(t);
      AtTimeBelow(s, b.time);
      AtTimeBelow(t, a.time);
      var ka := AtTime(s, a.time);
      assert ka == AtTime(t, b.time);
      assert ka[|ka| - 1] == a && ka[|ka| - 1] == b;
      SortedPrefix(s);
      SortedPrefix(t);
      forall k ensures AtTime(s', k) == AtTime(t', k) {
        var ks := AtTime(s, k);
        assert ks == AtTime(t, k);
        if k == a.time {
          assert AtTime(s', k) == ks[..|ks| - 1];
          assert AtTime(t', k) == ks[..|ks| - 1];
        } else {
          assert AtTime(s', k) == ks;
          assert AtTime(t', k) == ks;
        }
      }
      SortedUnique(s', t');
      assert s == s' + [a] && t == t' + [b];
    }
  }

  lemma SortedPrefix(s: seq<Tagged>)
    requires Sorted(s) && s != []
    ensures Sorted(s[..|s| - 1])
  {
  }

  /** The last line of a sequence is the last line at its own timestamp. */
  lemma AtTimeLast(s: seq<Tagged>)
    requires s != []
    ensures AtTime(s, s[|s| - 1].time) == AtTime(s[..|s| - 1], s[|s| - 1].time) + [s[|s| - 1]]
  {
  }

  /** In a sorted sequence every line held at some stamp is stamped no later than the last line. */
  lemma {:induction false} AtTimeBelow(s: seq<Tagged>, k: int)
    requires Sorted(s) && s != [] && AtTime(s, k) != []
    ensures k <= s[|s| - 1].time
    decreases |s|
  {
    var s' := s[..|s| - 1];
    if s[|s| - 1].time != k {
      assert AtTime(s', k) == AtTime(s, k);
      SortedPrefix(s);
      AtTimeBelow(s', k);
    }
  }

  /** `line.rstrip('\n')`: every trailing newline removed, nothing else. */
  function RStripNewlines(s: string): (r: string)
    ensures |r| <= |s| && r == s[..|r|]
    ensures forall i | |r| <= i < |s| :: s[i] == '\n'
    ensures r == [] || r[|r| - 1] != '\n'
  {
    if s == [] || s[|s| - 1] != '\n' then s else RStripNewlines(s[..|s| - 1])
  }

  /** `f'Exited with code {exit_code}'`. */
  function ExitLine(exitCode: int): string {
    "Exited with code " + Decimal(exitCode)
  }

  /** One logged line: the stream decides the colour (client) or the level (immutable). */
  datatype Logged = Logged(stream: Stream, text: string)

  function LogLines(lines: seq<Tagged>): (r: seq<Logged>)
    ensures |r| == |lines|
    ensures forall i | 0 <= i < |r| :: r[i] == Logged(lines[i].stream, RStripNewlines(lines[i].text))
  {
    if lines == [] then [] else [Logged(lines[0].stream, RStripNewlines(lines[0].text))] + LogLines(lines[1..])
  }

  /**
   * `log_output` for a shell result (client/common.py:55-61) and
   * `_log_output` (immutable/app.py:28-34): the merged lines, then the
   * exit-code line on stderr when the code is not zero.
   */
  function LogOutput(stdout: seq<OutputLine>, stderr: seq<OutputLine>, exitCode: int): seq<Logged> {
    LogLines(Merged(stdout, stderr)) + (if exitCode != 0 then [Logged(Stderr, ExitLine(exitCode))] else [])
  }

  /**
   * One logged line per captured line, in merged order and stripped of
   * trailing newlines, and the exit line exactly when the code is non-zero.
   */
  lemma LogOutputShape(stdout: seq<OutputLine>, stderr: seq<OutputLine>, exitCode: int)
    ensures var r, m := LogOutput(stdout, stderr, exitCode), Merged(stdout, stderr);
      |m| == |stdout| + |stderr|
      && |r| == |m| + (if exitCode != 0 then 1 else 0)
      && (forall i | 0 <= i < |m| :: r[i] == Logged(m[i].stream, RStripNewlines(m[i].text)))
      && (exitCode != 0 <==> |r| > |m|)
      && (exitCode != 0 ==> r[|m|] == Logged(Stderr, ExitLine(exitCode)))
  {
    var a, b := Tag(stdout, Stdout), Tag(stderr, Stderr);
    SortByTimeFacts(a + b);
    assert |multiset(Merged(stdout, stderr))| == |a + b|;
  }

  /** The exit line names the code: it parses back from the line's tail. */
  lemma ExitLineNamesCode(exitCode: int)
    ensures StartsWith(ExitLine(exitCode), "Exited with code ")
    ensures ParseInt(ExitLine(exitCode)[17..]) == Some(exitCode)
  {
    DecimalRoundTrip(exitCode);
    assert ExitLine(exitCode)[17..] == Decimal(exitCode);
  }
}
