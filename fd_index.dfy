/**
 * The descriptor index the C loader publishes in `POCKET_ASI_FILES`
 * (main.c:152-195) and its consumers in the successor process: the reader
 * (`json.loads`, restricted to the compact form main.c writes), `fd_path`
 * (immutable/common.py, client/common.py) and `random_string`.
 */
module FdIndex {
  import opened Wrappers
  import opened Text
  import opened Exceptions

  /** The environment variable main.c writes the index to (main.c:195). */
  const IndexVariable := "POCKET_ASI_FILES"

  /** The prefix of every descriptor path built from the index. */
  const ProcFdPrefix := "/proc/self/fd/"

  /** One `"name":fd` member, as `sprintf(json_ptr, "\"%s\":%d", ...)` writes it. */
  function Member(name: string, fd: int): string {
    "\"" + name + "\":" + Decimal(fd)
  }

  /** Bytes the i-th iteration of the serialisation loop writes: the member and, unless last, a comma. */
  function Piece(name: string, fd: int, i: nat, count: nat): string {
    Member(name, fd) + (if i + 1 < count then "," else "")
  }

  function Pieces(names: seq<string>, fds: seq<int>): (ps: seq<string>)
    requires |names| == |fds|
    ensures |ps| == |names|
  {
    seq(|names|, i requires 0 <= i < |names| => Piece(names[i], fds[i], i, |names|))
  }

  /** The whole index: `{`, the pieces in listing order, `}` (main.c:179-187). */
  function Serialize(names: seq<string>, fds: seq<int>): string
    requires |names| == |fds|
  {
    "{" + Concat(Pieces(names, fds)) + "}"
  }

  /** What main.c adds to `json_bytes` for entry `i` (main.c:157-160). */
  function EntryCost(name: string, fd: int, i: nat, count: nat): nat {
    |name| + 3 + |Decimal(fd)| + (if i + 1 < count then 1 else 0)
  }

  /** `json_bytes` after the first `k` entries of the listing: 3 plus their costs. */
  function JsonBytes(names: seq<string>, fds: seq<int>, k: nat): nat
    requires |names| == |fds| && k <= |names|
  {
    if k == 0 then 3 else JsonBytes(names, fds, k - 1) + EntryCost(names[k - 1], fds[k - 1], k - 1, |names|)
  }

  lemma {:induction false} ConcatSnoc(ps: seq<string>, k: nat)
    requires k < |ps|
    ensures Concat(ps[..k + 1]) == Concat(ps[..k]) + ps[k]
    decreases k
  {
    if k > 0 {
      assert ps[..k + 1][1..] == ps[1..][..k];
      assert ps[..k][1..] == ps[1..][..k - 1];
      ConcatSnoc(ps[1..], k - 1);
    } else {
      assert ps[..1] == [ps[0]];
    }
  }

  /**
   * The hand-counted size is exact: after any number of entries, `json_bytes`
   * is one more than the length of `{` and the pieces written so far, plus the
   * closing brace.
   */
  lemma {:induction false} JsonBytesExact(names: seq<string>, fds: seq<int>, k: nat)
    requires |names| == |fds| && k <= |names|
    ensures JsonBytes(names, fds, k) == |Concat(Pieces(names, fds)[..k])| + 3
    decreases k
  {
    var ps := Pieces(names, fds);
    if k > 0 {
      assert JsonBytes(names, fds, k - 1) == |Concat(ps[..k - 1])| + 3 by {
        JsonBytesExact(names, fds, k - 1);
      }
      assert |Concat(ps[..k])| == |Concat(ps[..k - 1])| + |ps[k - 1]| by {
        ConcatSnoc(ps, k - 1);
      }
      assert |ps[k - 1]| == EntryCost(names[k - 1], fds[k - 1], k - 1, |names|) by {
        PieceLength(names[k - 1], fds[k - 1], k - 1, |names|);
      }
    }
  }

  lemma PieceLength(name: string, fd: int, i: nat, count: nat)
    ensures |Piece(name, fd, i, count)| == EntryCost(name, fd, i, count)
  {
  }

  /** At the end, `json_bytes` is the serialised length plus the terminating NUL. */
  lemma JsonBytesTotal(names: seq<string>, fds: seq<int>)
    requires |names| == |fds|
    ensures JsonBytes(names, fds, |names|) == |Serialize(names, fds)| + 1
  {
    JsonBytesExact(names, fds, |names|);
    assert Pieces(names, fds)[..|names|] == Pieces(names, fds);
  }

  /** `json_bytes` after `k` entries depends only on those entries and the listing's length. */
  lemma {:induction false} JsonBytesPrefix(names: seq<string>, fds: seq<int>, names': seq<string>, fds': seq<int>, k: nat)
    requires |names| == |fds| == |names'| == |fds'| && k <= |names|
    requires forall i | 0 <= i < k :: names[i] == names'[i] && fds[i] == fds'[i]
    ensures JsonBytes(names, fds, k) == JsonBytes(names', fds', k)
    decreases k
  {
    if k > 0 {
      assert JsonBytes(names, fds, k - 1) == JsonBytes(names', fds', k - 1) by {
        JsonBytesPrefix(names, fds, names', fds', k - 1);
      }
    }
  }

  /** Counting entry `k` after a prefix that agrees with an earlier copy of the arrays. */
  lemma JsonBytesStep(names: seq<string>, fds: seq<int>, names': seq<string>, fds': seq<int>, k: nat)
    requires |names| == |fds| == |names'| == |fds'| && k < |names|
    requires names[..k] == names'[..k] && fds[..k] == fds'[..k]
    ensures JsonBytes(names', fds', k + 1) == JsonBytes(names, fds, k) + EntryCost(names'[k], fds'[k], k, |names|)
  {
    forall i | 0 <= i < k
      ensures names[i] == names'[i] && fds[i] == fds'[i]
    {
      assert names[i] == names[..k][i] && names'[i] == names'[..k][i];
      assert fds[i] == fds[..k][i] && fds'[i] == fds'[..k][i];
    }
    JsonBytesPrefix(names, fds, names', fds', k);
  }

  /** `json_bytes` only grows as entries are counted. */
  lemma JsonBytesMono(names: seq<string>, fds: seq<int>, j: nat, k: nat)
    requires |names| == |fds| && j <= k <= |names|
    ensures JsonBytes(names, fds, j) <= JsonBytes(names, fds, k)
  {
    var ps := Pieces(names, fds);
    assert JsonBytes(names, fds, j) == |Concat(ps[..j])| + 3 by {
      JsonBytesExact(names, fds, j);
    }
    assert JsonBytes(names, fds, k) == |Concat(ps[..k])| + 3 by {
      JsonBytesExact(names, fds, k);
    }
    ConcatPrefixShorter(ps, j, k);
  }

  /** Joining fewer of the pieces gives no more text. */
  lemma {:induction false} ConcatPrefixShorter(ps: seq<string>, j: nat, k: nat)
    requires j <= k <= |ps|
    ensures |Concat(ps[..j])| <= |Concat(ps[..k])|
    decreases k
  {
    if j < k {
      assert |Concat(ps[..j])| <= |Concat(ps[..k - 1])| by {
        ConcatPrefixShorter(ps, j, k - 1);
      }
      ConcatSnoc(ps, k - 1);
    }
  }

  // ---------------------------------------------------------------------
  // Reading the index back (json.loads on the compact form main.c writes)
  // ---------------------------------------------------------------------

  /** A name main.c can emit without the escaping section 7 of RFC 8259 requires. */
  predicate PlainName(name: string) {
    forall i | 0 <= i < |name| :: name[i] != '"' && name[i] != '\\' && name[i] as int >= 0x20
  }

  /** Index of the first `c` in `s`, or `|s|` when there is none. */
  function CharIndex(s: string, c: char): (r: nat)
    ensures r <= |s|
  {
    if s == [] || s[0] == c then 0 else 1 + CharIndex(s[1..], c)
  }

  predicate IsNumberChar(c: char) {
    IsDigit(c) || c == '-'
  }

  /** Length of the run of number characters at the front of `s`. */
  function NumberLength(s: string): (r: nat)
    ensures r <= |s|
  {
    if s != [] && IsNumberChar(s[0]) then 1 + NumberLength(s[1..]) else 0
  }

  /**
   * Reads `"name":int` members separated by `,` up to the closing `}`;
   * later duplicates overwrite earlier ones, as `json.loads` does.
   */
  function ParseMembers(s: string, acc: map<string, int>): Option<map<string, int>>
    decreases |s|
  {
    if s == [] || s[0] != '"' then None
    else
      var close := 1 + CharIndex(s[1..], '"');
      var name := s[1..close];
      if close + 1 >= |s| || s[close + 1] != ':' || !PlainName(name) then None
      else
        var tail := s[close + 2..];
        var len := NumberLength(tail);
        match ParseInt(tail[..len])
        case None => None
        case Some(fd) =>
          var rest := tail[len..];
          if rest == "}" then Some(acc[name := fd])
          else if rest != [] && rest[0] == ',' then ParseMembers(rest[1..], acc[name := fd])
          else None
  }

  /** `json.loads` on an index string; `None` stands for `JSONDecodeError`. */
  function ParseIndex(s: string): Option<map<string, int>> {
    if s == "{}" then Some(map[])
    else if |s| >= 2 && s[0] == '{' then ParseMembers(s[1..], map[])
    else None
  }

  /** The map the members denote, read left to right, later names overwriting earlier ones. */
  function Entries(acc: map<string, int>, names: seq<string>, fds: seq<int>): map<string, int>
    requires |names| == |fds|
    decreases |names|
  {
    if names == [] then acc else Entries(acc[names[0] := fds[0]], names[1..], fds[1..])
  }

  lemma {:induction false} CharIndexAfter(t: string, c: char, r: string)
    requires forall i | 0 <= i < |t| :: t[i] != c
    ensures CharIndex(t + [c] + r, c) == |t|
    decreases |t|
  {
    if t != [] {
      assert (t + [c] + r)[1..] == t[1..] + [c] + r;
      CharIndexAfter(t[1..], c, r);
    }
  }

  lemma {:induction false} NumberLengthOf(t: string, r: string)
    requires forall i | 0 <= i < |t| :: IsNumberChar(t[i])
    requires r == [] || !IsNumberChar(r[0])
    ensures NumberLength(t + r) == |t|
    decreases |t|
  {
    if t != [] {
      assert (t + r)[1..] == t[1..] + r;
      NumberLengthOf(t[1..], r);
    } else {
      assert t + r == r;
    }
  }

  /** One member followed by `rest` parses to the member's name and descriptor. */
  lemma MemberParses(name: string, fd: int, rest: string, acc: map<string, int>)
    requires PlainName(name)
    requires rest == "}" || (rest != [] && rest[0] == ',')
    ensures ParseMembers(Member(name, fd) + rest, acc) ==
      if rest == "}" then Some(acc[name := fd]) else ParseMembers(rest[1..], acc[name := fd])
  {
    var s := Member(name, fd) + rest;
    var d := Decimal(fd);
    DecimalRoundTrip(fd);
    assert s[1..] == name + ['"'] + (":" + d + rest);
    CharIndexAfter(name, '"', ":" + d + rest);
    var close := 1 + |name|;
    assert s[1..close] == name;
    assert s[close + 1] == ':';
    var tail := s[close + 2..];
    assert tail == d + rest;
    NumberLengthOf(d, rest);
    assert tail[..|d|] == d;
    assert tail[|d|..] == rest;
  }

  lemma PiecesTail(names: seq<string>, fds: seq<int>)
    requires |names| == |fds| && |names| > 0
    ensures Pieces(names, fds)[1..] == Pieces(names[1..], fds[1..])
  {
  }

  /** Reading the first of several members leaves the rest of the listing to read. */
  lemma MembersStep(names: seq<string>, fds: seq<int>, acc: map<string, int>)
    requires |names| == |fds| && |names| > 1 && PlainName(names[0])
    ensures ParseMembers(Concat(Pieces(names, fds)) + "}", acc)
      == ParseMembers(Concat(Pieces(names[1..], fds[1..])) + "}", acc[names[0] := fds[0]])
  {
    var ps := Pieces(names, fds);
    PiecesTail(names, fds);
    var rest := Concat(ps[1..]) + "}";
    assert Concat(ps) + "}" == Member(names[0], fds[0]) + ("," + rest);
    MemberParses(names[0], fds[0], "," + rest, acc);
    assert ("," + rest)[1..] == rest;
  }

  lemma {:induction false} MembersRoundTrip(names: seq<string>, fds: seq<int>, acc: map<string, int>)
    requires |names| == |fds| && |names| > 0
    requires forall i | 0 <= i < |names| :: PlainName(names[i])
    ensures ParseMembers(Concat(Pieces(names, fds)) + "}", acc) == Some(Entries(acc, names, fds))
    decreases |names|
  {
    if |names| == 1 {
      assert Concat(Pieces(names, fds)) == Member(names[0], fds[0]);
      MemberParses(names[0], fds[0], "}", acc);
    } else {
      MembersStep(names, fds, acc);
      assert forall i | 0 <= i < |names| - 1 :: PlainName(names[1..][i]) by {
        forall i | 0 <= i < |names| - 1 ensures PlainName(names[1..][i]) {
          assert names[1..][i] == names[i + 1];
        }
      }
      MembersRoundTrip(names[1..], fds[1..], acc[names[0] := fds[0]]);
    }
  }

  /**
   * Reading main.c's index back yields the name-to-descriptor map, for every
   * listing whose names need no JSON escaping.
   */
  lemma IndexRoundTrip(names: seq<string>, fds: seq<int>)
    requires |names| == |fds|
    requires forall i | 0 <= i < |names| :: PlainName(names[i])
    ensures ParseIndex(Serialize(names, fds)) == Some(Entries(map[], names, fds))
  {
    var s := Serialize(names, fds);
    var ps := Pieces(names, fds);
    var body := Concat(ps);
    if names == [] {
      assert ps == [];
      assert s == "{}";
    } else {
      assert ParseMembers(body + "}", map[]) == Some(Entries(map[], names, fds)) by {
        MembersRoundTrip(names, fds, map[]);
      }
      assert |body| > 0 by {
        assert body == ps[0] + Concat(ps[1..]);
        assert |ps[0]| >= |Member(names[0], fds[0])| >= 3;
      }
      BracedParses(s, body);
    }
  }

  /** A non-empty text between braces is read as members followed by the closing brace. */
  lemma BracedParses(s: string, body: string)
    requires s == "{" + body + "}" && body != []
    ensures ParseIndex(s) == ParseMembers(body + "}", map[])
  {
    assert |s| > 2 && s[0] == '{';
    assert s[1..] == body + "}";
  }

  /** A name that appears nowhere later in the listing keeps its own descriptor in the map. */
  lemma {:induction false} EntriesLookup(acc: map<string, int>, names: seq<string>, fds: seq<int>, i: nat)
    requires |names| == |fds| && i < |names|
    requires forall j | i < j < |names| :: names[j] != names[i]
    ensures names[i] in Entries(acc, names, fds) && Entries(acc, names, fds)[names[i]] == fds[i]
    decreases |names|
  {
    if i == 0 {
      EntriesKeep(acc[names[0] := fds[0]], names[1..], fds[1..], names[0]);
    } else {
      EntriesLookup(acc[names[0] := fds[0]], names[1..], fds[1..], i - 1);
    }
  }

  lemma {:induction false} EntriesKeep(acc: map<string, int>, names: seq<string>, fds: seq<int>, key: string)
    requires |names| == |fds|
    requires key in acc && forall j | 0 <= j < |names| :: names[j] != key
    ensures key in Entries(acc, names, fds) && Entries(acc, names, fds)[key] == acc[key]
    decreases |names|
  {
    if names != [] {
      EntriesKeep(acc[names[0] := fds[0]], names[1..], fds[1..], key);
    }
  }

  /** The map holds exactly the listed names (and whatever the accumulator held). */
  lemma {:induction false} EntriesKeys(acc: map<string, int>, names: seq<string>, fds: seq<int>)
    requires |names| == |fds|
    ensures Entries(acc, names, fds).Keys == acc.Keys + set i | 0 <= i < |names| :: names[i]
    decreases |names|
  {
    if names != [] {
      EntriesKeys(acc[names[0] := fds[0]], names[1..], fds[1..]);
      var later := set i | 0 <= i < |names[1..]| :: names[1..][i];
      var all := set i | 0 <= i < |names| :: names[i];
      assert all == {names[0]} + later by {
        forall x | x in all ensures x in {names[0]} + later {
          var i :| 0 <= i < |names| && names[i] == x;
          if i > 0 { assert names[1..][i - 1] == x; }
        }
      }
    }
  }

  // ---------------------------------------------------------------------
  // fd_path
  // ---------------------------------------------------------------------

  /**
   * `fd_path(name)` (immutable/common.py:17-23, client/common.py:36-43): the
   * descriptor path of a named artifact, or `FileNotFoundError` for a name the
   * index does not hold.
   */
  function FdPath(index: map<string, int>, name: string): (r: Result<string, PyError>)
    ensures name in index <==> r.Ok?
    ensures r.Ok? ==> r.value == ProcFdPrefix + Decimal(index[name])
    ensures r.Err? ==> r.error == FileNotFoundError("File not found: " + name)
  {
    if name in index then Ok(ProcFdPrefix + Decimal(index[name]))
    else Err(FileNotFoundError("File not found: " + name))
  }

  /**
   * immutable/common.py:9: the index is read once at import; a missing
   * variable raises `KeyError`, an unreadable one `JSONDecodeError`.
   */
  function ImportIndex(env: map<string, string>): (r: Result<map<string, int>, PyError>)
    ensures IndexVariable !in env ==> r == Err(KeyError(IndexVariable))
    ensures IndexVariable in env && ParseIndex(env[IndexVariable]).Some? ==>
      r == Ok(ParseIndex(env[IndexVariable]).value)
  {
    if IndexVariable !in env then Err(KeyError(IndexVariable))
    else match ParseIndex(env[IndexVariable])
      case None => Err(JsonDecodeError)
      case Some(m) => Ok(m)
  }

  /** client/common.py:36-43: the client version re-reads the environment on every call. */
  function FdPathFromEnv(env: map<string, string>, name: string): (r: Result<string, PyError>)
    ensures IndexVariable !in env ==> r == Err(KeyError(IndexVariable))
  {
    match ImportIndex(env)
    case Err(e) => Err(e)
    case Ok(index) => FdPath(index, name)
  }

  /**
   * End to end: in a successor whose environment carries main.c's index, every
   * listed (distinct, plainly named) artifact resolves to its own descriptor
   * path, and every other name raises `FileNotFoundError`.
   */
  lemma FdPathAfterBootstrap(env: map<string, string>, names: seq<string>, fds: seq<int>, name: string)
    requires |names| == |fds|
    requires forall i | 0 <= i < |names| :: PlainName(names[i])
    requires forall i, j | 0 <= i < j < |names| :: names[i] != names[j]
    requires IndexVariable in env && env[IndexVariable] == Serialize(names, fds)
    ensures forall i | 0 <= i < |names| && names[i] == name ::
      FdPathFromEnv(env, name) == Ok(ProcFdPrefix + Decimal(fds[i]))
    ensures (forall i | 0 <= i < |names| :: names[i] != name) ==>
      FdPathFromEnv(env, name) == Err(FileNotFoundError("File not found: " + name))
  {
    IndexRoundTrip(names, fds);
    EntriesKeys(map[], names, fds);
    forall i | 0 <= i < |names| && names[i] == name
      ensures FdPathFromEnv(env, name) == Ok(ProcFdPrefix + Decimal(fds[i]))
    {
      EntriesLookup(map[], names, fds, i);
    }
  }

  // ---------------------------------------------------------------------
  // random_string
  // ---------------------------------------------------------------------

  /** Position `d` of `string.ascii_letters + string.digits` (lower case, upper case, digits). */
  function AlphabetChar(d: nat): char
    requires d < 62
  {
    if d < 26 then ('a' as int + d) as char
    else if d < 52 then ('A' as int + d - 26) as char
    else ('0' as int + d - 52) as char
  }

  predicate IsAsciiAlnum(c: char) {
    'a' <= c <= 'z' || 'A' <= c <= 'Z' || '0' <= c <= '9'
  }

  /**
   * `random_string(k)` (immutable/common.py:12-14, client/common.py:31-33):
   * `draws` stands for the `k` choices `random.choices` makes.
   */
  function RandomString(draws: seq<nat>): (r: string)
    ensures |r| == |draws|
    ensures forall i | 0 <= i < |r| :: IsAsciiAlnum(r[i])
  {
    seq(|draws|, i requires 0 <= i < |draws| => AlphabetChar(draws[i] % 62))
  }
}
