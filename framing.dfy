/**
 * The wire between server and client (client/common.py, client/client.py):
 * every message is its JSON text followed by one NUL byte. A `Socket` holds
 * the segments the peer will still deliver, in order, and everything sent on
 * it so far; an empty `recv` means the peer has closed.
 *
 * The JSON text of a message is given as bytes; what `model_dump_json`
 * produces and how `determine_command` and the shell turn a command into a
 * result are parameters of the model.
 */
module Framing {
  import opened Wrappers
  import opened Text
  import opened Exceptions

  /** All segments one after the other. */
  function Flatten(chunks: seq<seq<byte>>): seq<byte> {
    if chunks == [] then [] else chunks[0] + Flatten(chunks[1..])
  }

  /** `payload + b'\0'`: one frame on the wire. */
  function Frame(payload: seq<byte>): seq<byte> {
    payload + [0]
  }

  /** Several frames back to back. */
  function Frames(payloads: seq<seq<byte>>): (r: seq<byte>)
    ensures payloads == [] ==> r == []
  {
    if payloads == [] then [] else Frame(payloads[0]) + Frames(payloads[1..])
  }

  predicate NulFree(b: seq<byte>) {
    forall j | 0 <= j < |b| :: b[j] != 0
  }

  /** The position of the first NUL, where `bytes.split(b'\0', 1)` cuts. */
  function FirstNul(b: seq<byte>): (r: Option<nat>)
    ensures r.Some? ==> r.value < |b| && b[r.value] == 0 && NulFree(b[..r.value])
    ensures r.None? <==> NulFree(b)
  {
    if b == [] then None
    else if b[0] == 0 then Some(0)
    else match FirstNul(b[1..])
      case None => None
      case Some(i) => (assert b[..i + 1] == [b[0]] + b[1..][..i]; Some(i + 1))
  }

  /** A NUL found in a prefix is the first NUL of every extension of it. */
  lemma FirstNulExtend(a: seq<byte>, b: seq<byte>)
    requires FirstNul(a).Some?
    ensures FirstNul(a + b) == FirstNul(a)
  {
    var i := FirstNul(a).value;
    assert (a + b)[..i] == a[..i];
    FirstNulUnique(a + b, i);
  }

  /** A NUL with none before it is the first. */
  lemma {:induction false} FirstNulUnique(b: seq<byte>, i: nat)
    requires i < |b| && b[i] == 0 && NulFree(b[..i])
    ensures FirstNul(b) == Some(i)
    decreases i
  {
    if i > 0 {
      assert b[0] == b[..i][0];
      assert b[1..][..i - 1] == b[..i][1..];
      FirstNulUnique(b[1..], i - 1);
    }
  }

  /** The first NUL of a frame followed by anything is the frame's own. */
  lemma FirstNulOfFrame(payload: seq<byte>, rest: seq<byte>)
    requires NulFree(payload)
    ensures FirstNul(Frame(payload) + rest) == Some(|payload|)
    ensures (Frame(payload) + rest)[..|payload|] == payload
    ensures (Frame(payload) + rest)[|payload| + 1..] == rest
  {
    assert (Frame(payload) + rest)[..|payload|] == payload;
    FirstNulUnique(Frame(payload) + rest, |payload|);
  }

  /** A connected socket, or the `None` a closed connection leaves behind. */
  class Socket {
    /** The segments successive `recv` calls deliver; `recv` returns `b''` once they are exhausted. */
    var chunks: seq<seq<byte>>
    /** Every byte `sendall` has written. */
    var sent: seq<byte>

    constructor (chunks: seq<seq<byte>>)
      ensures this.chunks == chunks && sent == []
    {
      this.chunks := chunks;
      sent := [];
    }

    /** The network never delivers an empty segment: `recv` is empty only at end of stream. */
    predicate Valid()
      reads this
    {
      forall i | 0 <= i < |chunks| :: chunks[i] != []
    }

    /** The bytes still to be received. */
    function Pending(): seq<byte>
      reads this
    {
      Flatten(chunks)
    }

    /** `sock.recv(n)`: the next at most `n` bytes of the stream, `b''` exactly when the peer has closed. */
    method Recv(n: nat) returns (data: seq<byte>)
      requires Valid() && n > 0
      modifies this
      ensures Valid() && sent == old(sent)
      ensures |data| <= n && |data| <= |old(Pending())|
      ensures data == old(Pending())[..|data|] && Pending() == old(Pending())[|data|..]
      ensures data == [] <==> old(Pending()) == []
    {
      if chunks == [] {
        return [];
      }
      var head := chunks[0];
      assert Pending() == head + Flatten(chunks[1..]);
      if |head| <= n {
        data := head;
        chunks := chunks[1..];
      } else {
        data := head[..n];
        assert Flatten([head[n..]] + chunks[1..]) == head[n..] + Flatten(chunks[1..]);
        chunks := [head[n..]] + chunks[1..];
      }
    }

    /** `sock.sendall(bytes)`. */
    method SendAll(bytes: seq<byte>)
      modifies this
      ensures sent == old(sent) + bytes && chunks == old(chunks)
    {
      sent := sent + bytes;
    }
  }

  // ---------------------------------------------------------------------
  // send_model and read_message (client/common.py:131-153)
  // ---------------------------------------------------------------------

  /** What `read_message` returns for a stream: the bytes before the first NUL, or `ConnectionError` without one. */
  function ReadMessageSpec(stream: seq<byte>): (r: Result<seq<byte>, PyError>)
    ensures r.Ok? <==> FirstNul(stream).Some?
  {
    match FirstNul(stream)
    case Some(i) => Ok(stream[..i])
    case None => Err(ConnectionError("Connection closed"))
  }

  /** `read_message` reads back what `send_model` framed, provided the JSON holds no NUL. */
  lemma ReadMessageRoundTrip(json: seq<byte>, rest: seq<byte>)
    requires NulFree(json)
    ensures ReadMessageSpec(Frame(json) + rest) == Ok(json)
  {
    FirstNulOfFrame(json, rest);
  }

  /** Moving a received chunk from the pending bytes to the end of the buffer keeps the stream. */
  lemma Regroup<T>(buf: seq<T>, data: seq<T>, pending: seq<T>, before: seq<T>, all: seq<T>)
    requires data + pending == before && buf + before == all
    ensures (buf + data) + pending == all
  {
  }

  lemma SuffixOfWhole<T>(buf: seq<T>, pending: seq<T>, all: seq<T>)
    requires buf + pending == all
    ensures |buf| + |pending| == |all| && pending == all[|all| - |pending|..]
  {
    assert all[|buf|..] == pending;
  }

  /** `send_model` (client/common.py:131-136): the JSON and one NUL, or `ConnectionError` without a socket. */
  method SendModel(sock: Socket?, json: seq<byte>) returns (r: Result<(), PyError>)
    modifies sock
    ensures sock == null ==> r == Err(ConnectionError("Connection closed"))
    ensures sock != null ==> r == Ok(()) && sock.sent == old(sock.sent) + Frame(json) && sock.chunks == old(sock.chunks)
  {
    if sock == null {
      return Err(ConnectionError("Connection closed"));
    }
    sock.SendAll(json + [0]);
    return Ok(());
  }

  /**
   * `read_message` (client/common.py:139-153): receive 4096-byte chunks until
   * the buffer holds a NUL and return what precedes it. The buffer is local,
   * so whatever the last chunk carried after the NUL is lost: the stream left
   * on the socket starts after it.
   */
  method ReadMessage(sock: Socket?) returns (r: Result<seq<byte>, PyError>)
    requires sock != null ==> sock.Valid()
    modifies sock
    ensures sock == null ==> r == Err(ConnectionError("Connection closed"))
    ensures sock != null ==> sock.Valid() && sock.sent == old(sock.sent) && r == ReadMessageSpec(old(sock.Pending()))
    ensures sock != null && r.Ok? ==>
      var s, rest := old(sock.Pending()), sock.Pending();
      |r.value| + 1 + |rest| <= |s| && rest == s[|s| - |rest|..]
    ensures sock != null && r.Err? ==> sock.Pending() == []
  {
    if sock == null {
      return Err(ConnectionError("Connection closed"));
    }
    ghost var s := sock.Pending();
    var buf: seq<byte> := [];
    while true
      invariant sock.Valid() && sock.sent == old(sock.sent)
      invariant buf + sock.Pending() == s && NulFree(buf)
      decreases |sock.Pending()|
    {
      ghost var before := sock.Pending();
      var data := sock.Recv(4096);
      assert data + sock.Pending() == before;
      if data == [] {
        assert NulFree(s) by { assert s == buf; }
        return Err(ConnectionError("Connection closed"));
      }
      Regroup(buf, data, sock.Pending(), before, s);
      buf := buf + data;
      var cut := FirstNul(buf);
      if cut.Some? {
        assert FirstNul(s) == cut && buf[..cut.value] == s[..cut.value] by {
          FirstNulExtend(buf, sock.Pending());
        }
        SuffixOfWhole(buf, sock.Pending(), s);
        return Ok(buf[..cut.value]);
      }
    }
  }

  // ---------------------------------------------------------------------
  // Client._read_command, _send_result and _handle_commands (client/client.py:45-66)
  // ---------------------------------------------------------------------

  /**
   * What a `_read_command` call ends in: a message; `ConnectionError` when
   * nothing at all is buffered or pending; or a loop that never exits, when
   * the peer has closed with an unterminated message buffered.
   */
  datatype Incoming = Message(body: seq<byte>) | Closed | Hangs

  /**
   * `_read_command` on the client's buffer followed by the stream still to
   * come: the outcome and the bytes left, buffered or pending, for the next
   * call. No byte is lost.
   */
  function ReadCommandSpec(all: seq<byte>): (r: (Incoming, seq<byte>))
    ensures r.0.Message? ==> |r.1| < |all|
  {
    match FirstNul(all)
    case Some(i) => (Message(all[..i]), all[i + 1..])
    case None => if all == [] then (Closed, []) else (Hangs, all)
  }

  /** No byte is lost: a message is a frame cut from the front; otherwise everything stays, and it holds no NUL. */
  lemma ReadCommandFacts(all: seq<byte>)
    ensures var r := ReadCommandSpec(all);
      (r.0.Message? <==> FirstNul(all).Some?)
      && (r.0.Message? ==> Frame(r.0.body) + r.1 == all)
      && (r.0 == Closed <==> all == [])
      && (r.0 == Hangs ==> r.1 == all && NulFree(all))
  {
    match FirstNul(all)
    case Some(i) =>
      assert ReadCommandSpec(all) == (Message(all[..i]), all[i + 1..]);
      assert Frame(all[..i]) + all[i + 1..] == all by {
        CutAtNul(all, i);
      }
    case None =>
      assert NulFree(all);
  }

  lemma CutAtNul(all: seq<byte>, i: nat)
    requires i < |all| && all[i] == 0
    ensures Frame(all[..i]) + all[i + 1..] == all
  {
    assert all == all[..i] + [0] + all[i + 1..];
  }

  /** A frame at the front of the bytes is returned whole, and the rest is kept for the next call. */
  lemma ReadCommandFrame(payload: seq<byte>, rest: seq<byte>)
    requires NulFree(payload)
    ensures ReadCommandSpec(Frame(payload) + rest) == (Message(payload), rest)
  {
    FirstNulOfFrame(payload, rest);
  }

  /** Bytes without a NUL, with the peer gone, leave `_read_command` looping with all of them still buffered. */
  lemma UnterminatedHangs(all: seq<byte>)
    requires all != [] && NulFree(all)
    ensures ReadCommandSpec(all) == (Hangs, all)
  {
  }

  /** `k` successive `_read_command` calls, stopping at the first that does not return a message. */
  function ReadCommands(all: seq<byte>, k: nat): (seq<Incoming>, seq<byte>) {
    if k == 0 then ([], all)
    else
      var (first, rest) := ReadCommandSpec(all);
      if !first.Message? then ([first], rest)
      else
        var (later, left) := ReadCommands(rest, k - 1);
        ([first] + later, left)
  }

  /** A buffer that already holds a NUL yields its first message, whatever is still pending. */
  lemma ReadCommandBuffered(buffered: seq<byte>, pending: seq<byte>)
    requires FirstNul(buffered).Some?
    ensures var i := FirstNul(buffered).value;
      ReadCommandSpec(buffered + pending) == (Message(buffered[..i]), buffered[i + 1..] + pending)
  {
    var i := FirstNul(buffered).value;
    FirstNulExtend(buffered, pending);
    assert (buffered + pending)[..i] == buffered[..i];
    assert (buffered + pending)[i + 1..] == buffered[i + 1..] + pending;
  }

  /** The outcomes of reading each payload's frame. */
  function AsMessages(payloads: seq<seq<byte>>): (r: seq<Incoming>)
    ensures |r| == |payloads|
  {
    if payloads == [] then [] else [Message(payloads[0])] + AsMessages(payloads[1..])
  }

  /** A run of frames is its first frame followed by the others. */
  lemma FramesCons(payloads: seq<seq<byte>>, rest: seq<byte>)
    requires payloads != []
    ensures Frames(payloads) + rest == Frame(payloads[0]) + (Frames(payloads[1..]) + rest)
  {
    var first, later := Frame(payloads[0]), Frames(payloads[1..]);
    assert Frames(payloads) == first + later;
    AppendAssoc(first, later, rest);
  }

  lemma AppendAssoc<T>(a: seq<T>, b: seq<T>, c: seq<T>)
    ensures (a + b) + c == a + (b + c)
  {
  }

  /** A frame at the front is the first of `k` commands read; the other `k - 1` come from what follows it. */
  lemma ReadCommandsFrame(payload: seq<byte>, more: seq<byte>, all: seq<byte>, k: nat)
    requires NulFree(payload) && k > 0 && all == Frame(payload) + more
    ensures ReadCommands(all, k) == ([Message(payload)] + ReadCommands(more, k - 1).0, ReadCommands(more, k - 1).1)
  {
    ReadCommandFrame(payload, more);
  }

  /** Frames that arrive together, in one segment or spread over several, come out one per call in arrival order. */
  lemma {:induction false} ReadCommandsInOrder(payloads: seq<seq<byte>>, rest: seq<byte>)
    requires forall i | 0 <= i < |payloads| :: NulFree(payloads[i])
    ensures ReadCommands(Frames(payloads) + rest, |payloads|) == (AsMessages(payloads), rest)
    decreases |payloads|
  {
    if payloads != [] {
      var tail, more := payloads[1..], Frames(payloads[1..]) + rest;
      assert ReadCommands(more, |tail|) == (AsMessages(tail), rest) by {
        ReadCommandsInOrder(tail, rest);
      }
      FramesCons(payloads, rest);
      ReadCommandsFrame(payloads[0], more, Frames(payloads) + rest, |payloads|);
      assert AsMessages(payloads) == [Message(payloads[0])] + AsMessages(tail);
    } else {
      assert Frames(payloads) + rest == rest;
    }
  }

  /** A result handler's failure, or the way the read loop ended. */
  datatype Ending = Failed(error: PyError) | ReadEnded(how: Incoming)

  /**
   * The results `_handle_commands` sends for the buffered and pending bytes
   * `all`, with `respond` standing for `determine_command` followed by
   * `Shell.execute` and the result's JSON, and how the loop ends.
   */
  function Session(all: seq<byte>, respond: seq<byte> -> Result<seq<byte>, PyError>): (r: (seq<seq<byte>>, Ending))
    decreases |all|
  {
    var (incoming, rest) := ReadCommandSpec(all);
    if !incoming.Message? then ([], ReadEnded(incoming))
    else match respond(incoming.body)
      case Err(e) => ([], Failed(e))
      case Ok(result) =>
        var (results, ending) := Session(rest, respond);
        ([result] + results, ending)
  }

  /** What `respond` answers to each payload, when it answers every one. */
  function Answers(payloads: seq<seq<byte>>, respond: seq<byte> -> Result<seq<byte>, PyError>): (r: seq<seq<byte>>)
    requires forall i | 0 <= i < |payloads| :: respond(payloads[i]).Ok?
    ensures |r| == |payloads|
  {
    if payloads == [] then [] else [respond(payloads[0]).value] + Answers(payloads[1..], respond)
  }

  /** A frame at the front is answered first; the rest of the session runs on what follows it. */
  lemma SessionFrame(payload: seq<byte>, more: seq<byte>, all: seq<byte>, respond: seq<byte> -> Result<seq<byte>, PyError>)
    requires NulFree(payload) && respond(payload).Ok? && all == Frame(payload) + more
    ensures Session(all, respond)
         == ([respond(payload).value] + Session(more, respond).0, Session(more, respond).1)
  {
    ReadCommandFrame(payload, more);
  }

  lemma AnswersCons(payloads: seq<seq<byte>>, respond: seq<byte> -> Result<seq<byte>, PyError>)
    requires payloads != [] && forall i | 0 <= i < |payloads| :: respond(payloads[i]).Ok?
    ensures Answers(payloads, respond) == [respond(payloads[0]).value] + Answers(payloads[1..], respond)
  {
  }

  /** Putting one answer in front of the answers that precede the rest. */
  lemma ConsAppend<T>(x: T, whole: seq<T>, later: seq<T>, answers: seq<T>, all: seq<T>, tail: seq<T>)
    requires whole == [x] + later && later == answers + tail && all == [x] + answers
    ensures whole == all + tail
  {
  }

  /** One result per command, in command order, until the connection ends. */
  lemma {:induction false} SessionAnswersInOrder(payloads: seq<seq<byte>>, rest: seq<byte>,
                                                 respond: seq<byte> -> Result<seq<byte>, PyError>)
    requires forall i | 0 <= i < |payloads| :: NulFree(payloads[i]) && respond(payloads[i]).Ok?
    ensures Session(Frames(payloads) + rest, respond).0 == Answers(payloads, respond) + Session(rest, respond).0
    ensures Session(Frames(payloads) + rest, respond).1 == Session(rest, respond).1
    decreases |payloads|
  {
    if payloads != [] {
      var tail, more := payloads[1..], Frames(payloads[1..]) + rest;
      assert Session(more, respond).0 == Answers(tail, respond) + Session(rest, respond).0
          && Session(more, respond).1 == Session(rest, respond).1
      by {
        SessionAnswersInOrder(tail, rest, respond);
      }
      var all, x := Frames(payloads) + rest, respond(payloads[0]).value;
      assert Session(all, respond) == ([x] + Session(more, respond).0, Session(more, respond).1) by {
        FramesCons(payloads, rest);
        SessionFrame(payloads[0], more, all, respond);
      }
      assert Answers(payloads, respond) == [x] + Answers(tail, respond) by {
        AnswersCons(payloads, respond);
      }
      ConsAppend(x, Session(all, respond).0, Session(more, respond).0,
                 Answers(tail, respond), Answers(payloads, respond), Session(rest, respond).0);
    } else {
      assert Frames(payloads) + rest == rest;
    }
  }

  /** `Client` (client/client.py:16-66): the bytes received past the last returned message. */
  class Client {
    var data: seq<byte>

    constructor ()
      ensures data == []
    {
      data := [];
    }

    /**
     * `_read_command` (client/client.py:53-62): receive at least once, then
     * split at the first NUL of the buffer and keep the remainder buffered.
     * When the peer has closed and the buffer holds an unterminated message,
     * every further iteration receives nothing and changes nothing; the
     * method reports that as `Hangs` instead of looping.
     */
    method ReadCommand(sock: Socket) returns (incoming: Incoming)
      requires sock.Valid()
      modifies this, sock
      ensures sock.Valid() && sock.sent == old(sock.sent)
      ensures (incoming, data + sock.Pending()) == ReadCommandSpec(old(data) + old(sock.Pending()))
      ensures old(sock.Pending()) != [] ==> |sock.Pending()| < |old(sock.Pending())|
      ensures !incoming.Message? ==> sock.Pending() == []
    {
      ghost var all := data + sock.Pending();
      ghost var first := true;
      while true
        invariant sock.Valid() && sock.sent == old(sock.sent)
        invariant data + sock.Pending() == all
        invariant first ==> data == old(data) && sock.Pending() == old(sock.Pending())
        invariant !first ==> NulFree(data) && (old(sock.Pending()) != [] ==> |sock.Pending()| < |old(sock.Pending())|)
        decreases |sock.Pending()|, first
      {
        ghost var before := sock.Pending();
        var chunk := sock.Recv(1024);
        assert (data + chunk) + sock.Pending() == all by {
          assert chunk + sock.Pending() == before;
          Regroup(data, chunk, sock.Pending(), before, all);
        }
        data := data + chunk;
        if data == [] {
          assert all == [];
          return Closed;
        }
        var cut := FirstNul(data);
        if cut.Some? {
          assert ReadCommandSpec(all) == (Message(data[..cut.value]), data[cut.value + 1..] + sock.Pending()) by {
            ReadCommandBuffered(data, sock.Pending());
          }
          incoming := Message(data[..cut.value]);
          data := data[cut.value + 1..];
          return;
        }
        if chunk == [] {
          assert ReadCommandSpec(all) == (Hangs, all) by {
            assert all == data;
            UnterminatedHangs(all);
          }
          return Hangs;
        }
        first := false;
      }
    }

    /** `_send_result` (client/client.py:64-66): the result's JSON and one NUL. */
    method SendResult(sock: Socket, json: seq<byte>)
      modifies sock
      ensures sock.sent == old(sock.sent) + Frame(json) && sock.chunks == old(sock.chunks)
    {
      sock.SendAll(json + [0]);
    }

    /**
     * `_handle_commands` (client/client.py:45-51): read a command, answer it,
     * send the result, for as long as commands come; the loop ends only by
     * an exception (or, as `_read_command` does, by hanging).
     */
    method HandleCommands(sock: Socket, respond: seq<byte> -> Result<seq<byte>, PyError>) returns (ending: Ending)
      requires sock.Valid()
      modifies this, sock
      ensures var (results, end) := Session(old(data) + old(sock.Pending()), respond);
        ending == end && sock.sent == old(sock.sent) + Frames(results)
    {
      ghost var done: seq<seq<byte>> := [];
      ghost var cur := data + sock.Pending();
      ghost var total := Session(cur, respond);
      assert done + total.0 == total.0;
      while true
        invariant sock.Valid() && cur == data + sock.Pending()
        invariant sock.sent == old(sock.sent) + Frames(done)
        invariant total == (done + Session(cur, respond).0, Session(cur, respond).1)
        decreases |cur|
      {
        var stop, answer := HandleCommand(sock, respond);
        if stop.Some? {
          assert done + [] == done;
          return stop.value;
        }
        SentAdvance(old(sock.sent), sock.sent, done, answer);
        SessionAdvance(total, done, answer, Session(cur, respond), Session(data + sock.Pending(), respond));
        done, cur := done + [answer], data + sock.Pending();
      }
    }

    /**
     * One iteration of `_handle_commands`: read a command and send its
     * result, or stop with how the loop ends.
     */
    method HandleCommand(sock: Socket, respond: seq<byte> -> Result<seq<byte>, PyError>)
      returns (stop: Option<Ending>, answer: seq<byte>)
      requires sock.Valid()
      modifies this, sock
      ensures sock.Valid()
      ensures stop.Some? ==> (sock.sent == old(sock.sent)
        && Session(old(data) + old(sock.Pending()), respond) == ([], stop.value))
      ensures stop.None? ==> (sock.sent == old(sock.sent) + Frame(answer)
        && |data + sock.Pending()| < |old(data) + old(sock.Pending())|
        && Session(old(data) + old(sock.Pending()), respond)
           == ([answer] + Session(data + sock.Pending(), respond).0, Session(data + sock.Pending(), respond).1))
    {
      var incoming := ReadCommand(sock);
      if !incoming.Message? {
        return Some(ReadEnded(incoming)), [];
      }
      var result := respond(incoming.body);
      if result.Err? {
        return Some(Failed(result.error)), [];
      }
      SendResult(sock, result.value);
      return None, result.value;
    }
  }

  /** Moving one answer from the rest of the session to the answers already sent. */
  lemma SessionAdvance(total: (seq<seq<byte>>, Ending), done: seq<seq<byte>>, answer: seq<byte>,
                       now: (seq<seq<byte>>, Ending), later: (seq<seq<byte>>, Ending))
    requires total == (done + now.0, now.1) && now == ([answer] + later.0, later.1)
    ensures total == ((done + [answer]) + later.0, later.1)
  {
    assert done + ([answer] + later.0) == (done + [answer]) + later.0;
  }

  /** After one more result, the bytes sent are the frames of all results so far. */
  lemma SentAdvance(start: seq<byte>, sent: seq<byte>, done: seq<seq<byte>>, answer: seq<byte>)
    requires sent == start + Frames(done) + Frame(answer)
    ensures sent == start + Frames(done + [answer])
  {
    FramesSnoc(done, answer);
  }

  /** Appending one frame to a run of frames. */
  lemma {:induction false} FramesSnoc(payloads: seq<seq<byte>>, last: seq<byte>)
    ensures Frames(payloads + [last]) == Frames(payloads) + Frame(last)
    decreases |payloads|
  {
    if payloads != [] {
      assert (payloads + [last])[1..] == payloads[1..] + [last];
      FramesSnoc(payloads[1..], last);
    }
  }

  // ---------------------------------------------------------------------
  // expect (client/common.py:118-128)
  // ---------------------------------------------------------------------

  /** The `as_a` argument of `expect`: a union of message classes, one message class, or anything else. */
  datatype Target<K> = Union(members: seq<K>) | MessageClass(kind: K) | NotAMessage

  /**
   * `expect(what, as_a)`: `validate(k)` is `what` validated as class `k`
   * (`None` for a `ValidationError`). A union takes its first member that
   * validates; a single class raises its own `ValidationError`; anything
   * else, or a union none of whose members validates, raises `ValueError`.
   * The union's own message is overwritten before it is raised, so both
   * carry `Invalid object: ...`.
   */
  method Expect<K, M>(what: string, target: Target<K>, validate: K -> Option<M>) returns (r: Result<M, PyError>)
    ensures target.Union? ==>
      (r.Ok? <==> exists i | 0 <= i < |target.members| :: validate(target.members[i]).Some?)
    ensures target.Union? && r.Ok? ==>
      exists i | 0 <= i < |target.members| ::
        validate(target.members[i]) == Some(r.value)
        && forall j | 0 <= j < i :: validate(target.members[j]).None?
    ensures target.MessageClass? ==>
      r == (if validate(target.kind).Some? then Ok(validate(target.kind).value) else Err(ValidationError))
    ensures r.Err? && !target.MessageClass? ==> r.error == ValueError("Invalid object: " + what)
  {
    match target {
      case Union(members) =>
        for i := 0 to |members|
          invariant forall j | 0 <= j < i :: validate(members[j]).None?
        {
          var v := validate(members[i]);
          if v.Some? {
            return Ok(v.value);
          }
        }
      case MessageClass(kind) =>
        var v := validate(kind);
        if v.Some? {
          return Ok(v.value);
        }
        return Err(ValidationError);
      case NotAMessage =>
    }
    return Err(ValueError("Invalid object: " + what));
  }
}
