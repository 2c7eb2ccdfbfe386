/** NDJSON framing: one JSON value per line, at most 1 MiB per line. The JSON codec itself is
    a parameter. */
module Framing {
  import opened Protocol

  newtype byte = x: int | 0 <= x < 256

  const MAX_LINE_BYTES: nat := 1_048_576
  const LF: byte := 10
  const CR: byte := 13

  datatype FramingError = LineTooLong | BadJson

  /** `read_until(b'\n')`: the next line with its line feed, if it has one. */
  function NextLine(stream: seq<byte>): (line: seq<byte>)
    ensures line <= stream
    ensures line == [] <==> stream == []
  {
    if stream == [] then []
    else if stream[0] == LF then [LF]
    else
      assert [stream[0]] + NextLine(stream[1..]) <= stream;
      [stream[0]] + NextLine(stream[1..])
  }

  /** Trailing line feeds and carriage returns are popped. */
  function Chomp(line: seq<byte>): seq<byte> {
    if line != [] && (line[|line| - 1] == LF || line[|line| - 1] == CR) then Chomp(line[..|line| - 1]) else line
  }

  function Decoded<V>(line: seq<byte>, decode: seq<byte> -> Option<V>): Result<V, FramingError> {
    if |line| > MAX_LINE_BYTES then Err(LineTooLong)
    else match decode(Chomp(line))
      case Some(v) => Ok(v)
      case None => Err(BadJson)
  }

  /** What repeated reads return, up to the end of the stream. */
  function ReadAll<V>(stream: seq<byte>, decode: seq<byte> -> Option<V>): seq<Result<V, FramingError>>
    decreases |stream|
  {
    if stream == [] then []
    else
      var line := NextLine(stream);
      [Decoded(line, decode)] + ReadAll(stream[|line|..], decode)
  }

  function WriteAll<V>(messages: seq<V>, encode: V -> seq<byte>): seq<byte> {
    if messages == [] then []
    else encode(messages[0]) + [LF] + WriteAll(messages[1..], encode)
  }

  /** What the reader makes of a message: itself, if its encoding and a line feed fit. */
  function Received<V>(messages: seq<V>, encode: V -> seq<byte>): seq<Result<V, FramingError>> {
    if messages == [] then []
    else [if |encode(messages[0])| < MAX_LINE_BYTES then Ok(messages[0]) else Err(LineTooLong)]
         + Received(messages[1..], encode)
  }

  /** A compact JSON encoding reads back and holds no raw control characters. */
  ghost predicate Faithful<V>(v: V, encode: V -> seq<byte>, decode: seq<byte> -> Option<V>) {
    decode(encode(v)) == Some(v) && LF !in encode(v) && CR !in encode(v)
  }

  lemma {:induction false} NextLineIs(body: seq<byte>, rest: seq<byte>)
    requires LF !in body
    ensures NextLine(body + [LF] + rest) == body + [LF]
  {
    var s := body + [LF] + rest;
    if body == [] {
      assert s[0] == LF;
    } else {
      assert body[0] in body;
      assert s[1..] == body[1..] + [LF] + rest;
      NextLineIs(body[1..], rest);
    }
  }

  lemma {:induction false} NoNextLine(s: seq<byte>)
    requires LF !in s
    ensures NextLine(s) == s
  {
    if s != [] {
      assert s[0] in s;
      NoNextLine(s[1..]);
    }
  }

  lemma ChompLine(body: seq<byte>)
    requires LF !in body && CR !in body
    ensures Chomp(body + [LF]) == body
  {
    assert (body + [LF])[..|body|] == body;
    if body != [] {
      assert body[|body| - 1] in body;
    }
  }

  /** Writing any sequence of messages and reading until the end of the stream returns the
      same sequence, one result per message: the message itself if its encoding has at most
      1,048,575 bytes, and `LineTooLong` otherwise. An overlong message never spoils the
      ones after it. */
  lemma {:induction false} FramingRoundTrip<V>(messages: seq<V>, encode: V -> seq<byte>, decode: seq<byte> -> Option<V>)
    requires forall v | v in messages :: Faithful(v, encode, decode)
    ensures ReadAll(WriteAll(messages, encode), decode) == Received(messages, encode)
  {
    if messages != [] {
      var v, body := messages[0], encode(messages[0]);
      assert Faithful(v, encode, decode);
      var rest := WriteAll(messages[1..], encode);
      NextLineIs(body, rest);
      ChompLine(body);
      var stream := body + [LF] + rest;
      assert stream[|body| + 1..] == rest;
      FramingRoundTrip(messages[1..], encode, decode);
    }
  }

  // ----------------------------------------------------------------------- the readers

  class Stream {
    var data: seq<byte>

    constructor (data: seq<byte>)
      ensures this.data == data
    {
      this.data := data;
    }

    method ReadUntilLf(limit: nat) returns (buf: seq<byte>)
      modifies this
      ensures buf == NextLine(Take(old(data), limit)) && data == old(data)[|buf|..]
    {
      buf := [];
      var taken := Take(data, limit);
      while |buf| < |taken|
        invariant data == old(data) && buf <= taken && LF !in buf
      {
        var b := taken[|buf|];
        assert taken == buf + [b] + taken[|buf| + 1..];
        if b == LF {
          NextLineIs(buf, taken[|buf| + 1..]);
          buf := buf + [b];
          data := data[|buf|..];
          return;
        }
        buf := buf + [b];
      }
      assert buf == taken;
      NoNextLine(taken);
      data := data[|buf|..];
    }

    /** `read_message`; `None` is the end of the stream. */
    method ReadMessage<V>(decode: seq<byte> -> Option<V>) returns (r: Option<Result<V, FramingError>>)
      modifies this
      ensures old(data) == [] ==> r == None && data == []
      ensures old(data) != [] ==> r.Some? && [r.value] + ReadAll(data, decode) == ReadAll(old(data), decode)
    {
      var buf := ReadUntilLf(|data|);
      assert Take(old(data), |old(data)|) == old(data);
      if buf == [] { return None; }
      if |buf| > MAX_LINE_BYTES { return Some(Err(LineTooLong)); }
      ghost var line := buf;
      while buf != [] && (buf[|buf| - 1] == LF || buf[|buf| - 1] == CR)
        invariant Chomp(buf) == Chomp(line)
      {
        buf := buf[..|buf| - 1];
      }
      var v := decode(buf);
      return Some(if v.Some? then Ok(v.value) else Err(BadJson));
    }

    /** `read_request` up to the point where the text goes to the JSON parser: at most one
        byte over the limit is ever read, and the text must be UTF-8. */
    method ReadRequestLine(utf8: seq<byte> -> bool) returns (r: Verdict)
      modifies this
      ensures r == Bounded(old(data), utf8)
      ensures |old(data)| - |data| <= MAX_LINE_BYTES + 1
    {
      var line := ReadUntilLf(MAX_LINE_BYTES + 1);
      if !utf8(line) { return ReadFailed; }
      if line == [] { return Eof; }
      if |line| > MAX_LINE_BYTES { return TooLong; }
      return Line(line);
    }
  }

  function Take(s: seq<byte>, n: nat): seq<byte> {
    if |s| <= n then s else s[..n]
  }

  datatype Verdict = Eof | ReadFailed | TooLong | Line(line: seq<byte>)

  /** The router's reader. */
  function Bounded(stream: seq<byte>, utf8: seq<byte> -> bool): Verdict {
    var line := NextLine(Take(stream, MAX_LINE_BYTES + 1));
    if !utf8(line) then ReadFailed
    else if line == [] then Eof
    else if |line| > MAX_LINE_BYTES then TooLong
    else Line(line)
  }

  /** The length check of `read_message`, which reads the whole line first. */
  function Unbounded(stream: seq<byte>): Verdict {
    var line := NextLine(stream);
    if line == [] then Eof
    else if |line| > MAX_LINE_BYTES then TooLong
    else Line(line)
  }

  lemma {:induction false} NextLineOfPrefix(stream: seq<byte>, n: nat)
    ensures NextLine(Take(stream, n)) == Take(NextLine(stream), n)
    decreases |stream|
  {
    if n > 0 && stream != [] && stream[0] != LF {
      NextLineOfPrefix(stream[1..], n - 1);
      assert Take(stream, n)[1..] == Take(stream[1..], n - 1);
      var line := NextLine(stream);
      assert line == [stream[0]] + NextLine(stream[1..]);
      assert Take(line, n) == [stream[0]] + Take(NextLine(stream[1..]), n - 1);
    }
  }

  /** On every byte stream the two readers agree. The bounded one rejects for length exactly
      when the unbounded one does, except that a line cut in the middle of a UTF-8 character
      fails as unreadable instead; it never accepts an overlong line; and a line that fits is
      passed on whole if it is UTF-8. */
  lemma BoundedReaderAgrees(stream: seq<byte>, utf8: seq<byte> -> bool)
    requires utf8([])
    ensures var b, u := Bounded(stream, utf8), Unbounded(stream);
            && (u == Eof <==> b == Eof)
            && (b == TooLong <==> u == TooLong && utf8(NextLine(stream)[..MAX_LINE_BYTES + 1]))
            && (u == TooLong ==> b == TooLong || b == ReadFailed)
            && (forall line :: b == Line(line) <==> u == Line(line) && utf8(line))
  {
    NextLineOfPrefix(stream, MAX_LINE_BYTES + 1);
    var line := NextLine(stream);
    assert |line| == MAX_LINE_BYTES + 1 ==> line[..MAX_LINE_BYTES + 1] == line;
  }

  /** Where they part: a line of exactly 1 MiB followed by a two-byte character. The bounded
      reader cuts the character in half and fails to read; the unbounded one finds the line
      too long. */
  lemma SplitCharacterFails(utf8: seq<byte> -> bool)
    requires !utf8(seq(MAX_LINE_BYTES, _ => 97) + [0xC3])
    ensures var stream := seq(MAX_LINE_BYTES, _ => 97) + [0xC3, 0xA9];
            Bounded(stream, utf8) == ReadFailed && Unbounded(stream) == TooLong
  {
    var head: seq<byte> := seq(MAX_LINE_BYTES, _ => 97);
    var stream := head + [0xC3, 0xA9];
    NoNextLine(stream);
    NoNextLine(stream[..MAX_LINE_BYTES + 1]);
    assert stream[..MAX_LINE_BYTES + 1] == head + [0xC3];
  }
}
