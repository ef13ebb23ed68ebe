/** Messages on the daemon's socket: a four-byte big-endian length and a body. */
module Framing {
  import opened Git

  const MAX_MSG_LEN: nat := 1024 * 1024

  datatype FrameError = Json | TooLarge(len: nat) | UnexpectedEof

  function BigEndian(n: nat): seq<Byte>
    requires n < 0x1_0000_0000
  {
    [(n / 0x100_0000) as Byte, (n / 0x1_0000 % 0x100) as Byte, (n / 0x100 % 0x100) as Byte, (n % 0x100) as Byte]
  }

  function Value(b: seq<Byte>): nat
    requires |b| == 4
  {
    b[0] as nat * 0x100_0000 + b[1] as nat * 0x1_0000 + b[2] as nat * 0x100 + b[3] as nat
  }

  lemma ValueOfBigEndian(n: nat)
    requires n < 0x1_0000_0000
    ensures Value(BigEndian(n)) == n
  {
    assert n / 0x1_0000 == n / 0x100 / 0x100;
    assert n / 0x100_0000 == n / 0x1_0000 / 0x100;
  }

  function Frame(body: seq<Byte>): seq<Byte>
    requires |body| <= MAX_MSG_LEN
  {
    BigEndian(|body|) + body
  }

  /** The layout: four bytes of length, the most significant first, then the body. */
  lemma FrameLayout(body: seq<Byte>)
    requires |body| <= MAX_MSG_LEN
    ensures var f := Frame(body);
      && |f| == 4 + |body| && f[4..] == body
      && |body| == ((f[0] as nat * 256 + f[1] as nat) * 256 + f[2] as nat) * 256 + f[3] as nat
  {
    ValueOfBigEndian(|body|);
    assert Frame(body)[..4] == BigEndian(|body|);
  }

  /** One end of a connection: the bytes written and not read yet. */
  class Stream {
    var bytes: seq<Byte>

    /** `read_exact`: all of it or nothing useful, the rest being lost with the connection. */
    method ReadExact(n: nat) returns (r: Result<seq<Byte>, FrameError>)
      modifies this
      ensures if n <= |old(bytes)| then r == Ok(old(bytes)[..n]) && bytes == old(bytes)[n..]
              else r == Err(UnexpectedEof) && bytes == []
    {
      if n <= |bytes| {
        r := Ok(bytes[..n]);
        bytes := bytes[n..];
      } else {
        r := Err(UnexpectedEof);
        bytes := [];
      }
    }

    /** `write_message`: the whole frame, or nothing if the body is too long. */
    method WriteMessage<T>(encode: T -> seq<Byte>, msg: T) returns (r: Result<(), FrameError>)
      modifies this
      ensures r.Ok? <==> |encode(msg)| <= MAX_MSG_LEN
      ensures r.Ok? ==> bytes == old(bytes) + Frame(encode(msg))
      ensures r.Err? ==> r == Err(TooLarge(|encode(msg)|)) && bytes == old(bytes)
    {
      var body := encode(msg);
      if |body| > MAX_MSG_LEN {
        return Err(TooLarge(|body|));
      }
      bytes := bytes + BigEndian(|body|);
      bytes := bytes + body;
      r := Ok(());
      assert bytes == old(bytes) + Frame(encode(msg));
    }

    method ReadMessage<T>(decode: seq<Byte> -> Option<T>) returns (r: Result<T, FrameError>)
      modifies this
      ensures (r, bytes) == Receive(decode, old(bytes))
    {
      var prefix := ReadExact(4);
      if prefix.Err? {
        return Err(prefix.error);
      }
      var len := Value(prefix.value);
      if len > MAX_MSG_LEN {
        return Err(TooLarge(len));
      }
      var body := ReadExact(len);
      if body.Err? {
        return Err(body.error);
      }
      r := match decode(body.value) case Some(msg) => Ok(msg) case None => Err(Json);
    }
  }

  /** What reading one message off these bytes gives, and what is left of them. */
  function Receive<T>(decode: seq<Byte> -> Option<T>, bytes: seq<Byte>): (Result<T, FrameError>, seq<Byte>) {
    if |bytes| < 4 then (Err(UnexpectedEof), []) else
    var len, rest := Value(bytes[..4]), bytes[4..];
    if len > MAX_MSG_LEN then (Err(TooLarge(len)), rest)
    else if |rest| < len then (Err(UnexpectedEof), [])
    else (match decode(rest[..len]) case Some(msg) => Ok(msg) case None => Err(Json), rest[len..])
  }

  /** A frame is read back whole, whatever follows it. */
  lemma FrameReadsBack<T>(decode: seq<Byte> -> Option<T>, body: seq<Byte>, msg: T, after: seq<Byte>)
    requires |body| <= MAX_MSG_LEN && decode(body) == Some(msg)
    ensures Receive(decode, Frame(body) + after) == (Ok(msg), after)
  {
    ValueOfBigEndian(|body|);
    var bytes := Frame(body) + after;
    assert bytes[..4] == BigEndian(|body|) && bytes[4..] == body + after;
    assert (body + after)[..|body|] == body && (body + after)[|body|..] == after;
  }

  /** A frame cut short anywhere is an end of file, never a message. */
  lemma CutFrameIsEof<T>(decode: seq<Byte> -> Option<T>, body: seq<Byte>, n: nat)
    requires |body| <= MAX_MSG_LEN && n < |Frame(body)|
    ensures Receive(decode, Frame(body)[..n]) == (Err(UnexpectedEof), [])
  {
    if n >= 4 {
      ValueOfBigEndian(|body|);
      assert Frame(body)[..n][..4] == BigEndian(|body|);
    }
  }

  /** Frames written back to back. */
  function Written<T>(encode: T -> seq<Byte>, msgs: seq<T>): seq<Byte>
    requires forall m | m in msgs :: |encode(m)| <= MAX_MSG_LEN
  {
    if msgs == [] then [] else Frame(encode(msgs[0])) + Written(encode, msgs[1..])
  }

  /** Messages read one after the other until one fails, and what is left. */
  function ReceiveMany<T>(decode: seq<Byte> -> Option<T>, bytes: seq<Byte>, n: nat): (seq<T>, seq<Byte>) {
    if n == 0 then ([], bytes) else
    var (r, rest) := Receive(decode, bytes);
    if r.Err? then ([], rest) else
    var (more, left) := ReceiveMany(decode, rest, n - 1);
    ([r.value] + more, left)
  }

  /** Any sequence of messages written back to back reads back as that sequence, leaving
      whatever was written after it. */
  lemma {:induction false} SequenceReadsBack<T>(
      encode: T -> seq<Byte>, decode: seq<Byte> -> Option<T>, msgs: seq<T>, after: seq<Byte>)
    requires forall m | m in msgs :: |encode(m)| <= MAX_MSG_LEN && decode(encode(m)) == Some(m)
    ensures ReceiveMany(decode, Written(encode, msgs) + after, |msgs|) == (msgs, after)
    decreases |msgs|
  {
    if msgs == [] {
      assert Written(encode, msgs) + after == after;
    } else {
      var m, rest := msgs[0], msgs[1..];
      assert Written(encode, msgs) + after == Frame(encode(m)) + (Written(encode, rest) + after);
      FrameReadsBack(decode, encode(m), m, Written(encode, rest) + after);
      SequenceReadsBack(encode, decode, rest, after);
      assert [m] + rest == msgs;
    }
  }
}
