/** The buffered socket stream, the line reader, and the chunked writer and reader on top of them. */
module ChunkedStreams {
  import opened Strings
  import opened Chunked

  /** A connected socket: what will still arrive before the peer closes, and what was sent. */
  class Socket {
    var incoming: string
    var sent: string

    /** Puts some of what arrives, at most `max`, into `buf`. Zero means that the peer has closed. */
    method Receive(buf: array<char>, max: nat) returns (n: nat)
      requires 0 < max <= buf.Length
      modifies this`incoming, buf
      ensures n <= max && (n == 0 <==> old(incoming) == "")
      ensures buf[..n] + incoming == old(incoming)
    {
      if incoming == "" { return 0; }
      n :| 0 < n <= max && n <= |incoming|;
      forall i | 0 <= i < n { buf[i] := incoming[i]; }
      assert buf[..n] == incoming[..n];
      incoming := incoming[n..];
    }

    method Send(data: string) returns (n: nat)
      requires data != ""
      modifies this`sent
      ensures 0 < n <= |data| && sent == old(sent) + data[..n]
    {
      n :| 0 < n <= |data|;
      sent := sent + data[..n];
    }
  }

  method Copy(dst: array<char>, src: array<char>, from: nat, n: nat)
    requires dst != src && n <= dst.Length && from + n <= src.Length
    modifies dst
    ensures dst[..n] == src[from..from + n]
  {
    forall i | 0 <= i < n { dst[i] := src[from + i]; }
  }

  const READ_BUFF_SIZE := 4096

  class SocketStream {
    const sock: Socket
    const readBuff: array<char>
    var off: nat
    var contentSize: nat

    constructor (sock: Socket)
      ensures Valid() && Remaining() == sock.incoming
      ensures this.sock == sock && fresh(readBuff)
    {
      this.sock := sock;
      readBuff := new char[READ_BUFF_SIZE];
      off, contentSize := 0, 0;
    }

    ghost predicate Valid()
      reads this
    {
      off <= contentSize <= readBuff.Length == READ_BUFF_SIZE
    }

    /** What the reader has still to get: what is buffered, and then what is still to arrive. */
    ghost function Remaining(): string
      requires Valid()
      reads this, readBuff, sock
    {
      readBuff[off..contentSize] + sock.incoming
    }

    /** Serves a read from the buffer. */
    method ReadBuffered(ptr: array<char>, size: nat) returns (n: nat)
      requires Valid() && off < contentSize && 0 < size <= ptr.Length && ptr != readBuff
      modifies `off, ptr
      ensures Valid() && 0 < n <= size && ptr[..n] + Remaining() == old(Remaining())
    {
      n := if size <= contentSize - off then size else contentSize - off;
      Copy(ptr, readBuff, off, n);
      assert readBuff[off..contentSize] == readBuff[off..off + n] + readBuff[off + n..contentSize];
      off := off + n;
    }

    /** Fills the buffer from the socket, hands over the first bytes and keeps the others. */
    method ReadThroughBuffer(ptr: array<char>, size: nat) returns (n: nat)
      requires Valid() && off == contentSize == 0 && 0 < size <= ptr.Length && ptr != readBuff
      modifies `off, `contentSize, readBuff, sock`incoming, ptr
      ensures Valid() && n <= size && (n == 0 <==> old(sock.incoming) == "")
      ensures ptr[..n] + Remaining() == old(sock.incoming)
    {
      var got := sock.Receive(readBuff, READ_BUFF_SIZE);
      if got <= size {
        Copy(ptr, readBuff, 0, got);
        n := got;
        assert Remaining() == sock.incoming;
      } else {
        assert readBuff[..got] == readBuff[..size] + readBuff[size..got];
        Copy(ptr, readBuff, 0, size);
        off, contentSize := size, got;
        n := size;
      }
    }

    /** Serves a read from the socket, through the buffer when that is larger. */
    method ReadSocket(ptr: array<char>, size: nat) returns (n: nat)
      requires Valid() && off == contentSize && 0 < size <= ptr.Length && ptr != readBuff
      modifies `off, `contentSize, readBuff, sock`incoming, ptr
      ensures Valid() && n <= size && (n == 0 <==> old(sock.incoming) == "")
      ensures ptr[..n] + Remaining() == old(sock.incoming)
    {
      off, contentSize := 0, 0;
      if size < READ_BUFF_SIZE {
        n := ReadThroughBuffer(ptr, size);
      } else {
        n := sock.Receive(ptr, size);
        assert Remaining() == sock.incoming;
      }
    }

    /** No byte is lost, repeated or moved, and nothing is read only at the end of the stream. */
    method Read(ptr: array<char>, size: nat) returns (n: nat)
      requires Valid() && 0 < size <= ptr.Length && ptr != readBuff
      modifies `off, `contentSize, readBuff, sock`incoming, ptr
      ensures Valid() && n <= size && (n == 0 <==> old(Remaining()) == "")
      ensures ptr[..n] + Remaining() == old(Remaining())
    {
      if off < contentSize {
        n := ReadBuffered(ptr, size);
      } else {
        assert Remaining() == sock.incoming;
        n := ReadSocket(ptr, size);
      }
    }

    method Write(data: string) returns (n: nat)
      requires data != ""
      modifies sock`sent
      ensures 0 < n <= |data| && sock.sent == old(sock.sent) + data[..n]
    {
      n := sock.Send(data);
    }
  }

  /** Everything is sent, in as many pieces as it takes. */
  method WriteData(strm: SocketStream, data: string)
    modifies strm.sock`sent
    ensures strm.sock.sent == old(strm.sock.sent) + data
  {
    var offset := 0;
    while offset < |data|
      invariant offset <= |data| && strm.sock.sent == old(strm.sock.sent) + data[..offset]
    {
      var n := strm.Write(data[offset..]);
      assert data[..offset + n] == data[..offset] + data[offset..][..n];
      offset := offset + n;
    }
  }

  // ---------- lines ----------

  lemma {:induction false} CStringOfMemory(s: string, behind: string)
    ensures CString(s + ("\0" + behind)) == CString(s)
  {
    if s != "" { assert (s + ("\0" + behind))[1..] == s[1..] + ("\0" + behind); CStringOfMemory(s[1..], behind); }
  }

  lemma {:induction false} LineIsAll(a: string)
    requires '\n' !in a
    ensures Line(a) == a && AfterLine(a) == ""
  {
    if a != "" { LineIsAll(a[1..]); }
  }

  lemma LineStep(s: string, text: string, rest: string)
    requires s == text + rest && '\n' !in text
    ensures rest == "" ==> Line(s) == text && AfterLine(s) == "" && s == text
    ensures rest != "" ==> s == (text + rest[..1]) + rest[1..]
    ensures rest != "" && rest[0] == '\n' ==> Line(s) == text + [rest[0]] && AfterLine(s) == rest[1..]
  {
    if rest == "" {
      LineIsAll(text);
      assert s == text;
    } else if rest[0] == '\n' {
      assert s == text + ("\n" + rest[1..]);
      LineIs(text, rest[1..]);
    }
  }

  /** A line grows in the fixed buffer, always followed by NUL, and moves to a string when that is full. */
  class StreamLineReader {
    const strm: SocketStream
    const fixed: array<char>
    var used: nat
    var growable: string

    constructor (strm: SocketStream, fixed: array<char>)
      requires fixed.Length >= 2 && fixed != strm.readBuff
      ensures Valid() && this.strm == strm && this.fixed == fixed
    {
      this.strm, this.fixed := strm, fixed;
      used, growable := 0, "";
    }

    ghost predicate Valid()
      reads this, fixed
    {
      && fixed != strm.readBuff
      && used < fixed.Length && 2 <= fixed.Length
      && (used > 0 ==> fixed[used] == '\0')
    }

    /** The line read so far. */
    ghost function Text(): string
      requires Valid()
      reads this, fixed
    {
      if growable == "" then fixed[..used] else growable
    }

    /** The memory at `ptr()`; as a C string it is the line. */
    method Ptr() returns (memory: string)
      requires Valid() && Text() != ""
      ensures CString(memory) == CString(Text())
    {
      if growable == "" {
        memory := fixed[..];
        CStringOfMemory(fixed[..used], fixed[used + 1..]);
        assert memory == fixed[..used] + ("\0" + fixed[used + 1..]);
      } else {
        memory := growable + "\0";
        CStringOfMemory(growable, "");
        assert memory == growable + ("\0" + "");
      }
    }

    method Append(c: char)
      requires Valid() && (growable != "" ==> used == fixed.Length - 1)
      modifies this`used, this`growable, fixed
      ensures Valid() && (growable != "" ==> used == fixed.Length - 1)
      ensures Text() == old(Text()) + [c]
    {
      if used < fixed.Length - 1 {
        fixed[used] := c;
        used := used + 1;
        fixed[used] := '\0';
        assert fixed[..used] == old(fixed[..used]) + [c];
      } else {
        if growable == "" {
          assert fixed[used] == '\0';
          growable := fixed[..used];
        }
        growable := growable + [c];
      }
    }

    /** Reads one byte; None at the end of the stream. */
    method ReadByte() returns (ok: bool, c: char)
      requires Valid() && strm.Valid()
      modifies strm`off, strm`contentSize, strm.readBuff, strm.sock`incoming
      ensures strm.Valid()
      ensures ok <==> old(strm.Remaining()) != ""
      ensures old(strm.Remaining()) == if ok then [c] + strm.Remaining() else strm.Remaining()
    {
      var byte := new char[1];
      byte[0] := '\0';
      var n := strm.Read(byte, 1);
      assert n == 1 ==> byte[..n] == [byte[0]];
      return n == 1, byte[0];
    }

    /** One byte more, unless the stream is at its end. */
    method Step() returns (ok: bool, byte: char)
      requires Valid() && strm.Valid() && (growable != "" ==> used == fixed.Length - 1)
      modifies this`used, this`growable, fixed, strm`off, strm`contentSize, strm.readBuff, strm.sock`incoming
      ensures Valid() && strm.Valid() && (growable != "" ==> used == fixed.Length - 1)
      ensures ok <==> old(strm.Remaining()) != ""
      ensures old(strm.Remaining()) == if ok then [byte] + strm.Remaining() else strm.Remaining()
      ensures Text() == old(Text()) + if ok then [byte] else ""
    {
      ok, byte := ReadByte();
      if ok { Append(byte); }
    }

    /** The next line of the stream. */
    method GetLine() returns (ok: bool)
      requires Valid() && strm.Valid()
      modifies this`used, this`growable, fixed, strm`off, strm`contentSize, strm.readBuff, strm.sock`incoming
      ensures Valid() && strm.Valid()
      ensures ok <==> old(strm.Remaining()) != ""
      ensures Text() == Line(old(strm.Remaining())) && strm.Remaining() == AfterLine(old(strm.Remaining()))
    {
      hide Line, CString, AfterLine;
      used, growable := 0, "";
      ghost var s, text, rest := strm.Remaining(), "", strm.Remaining();
      var i := 0;
      while true
        invariant Valid() && strm.Valid() && (growable != "" ==> used == fixed.Length - 1)
        invariant text == Text() && rest == strm.Remaining()
        invariant i == |text| && s == text + rest && '\n' !in text
        decreases |rest|
      {
        var got, byte := Step();
        LineStep(s, text, rest);
        if !got { return i != 0; }
        text, rest := text + [byte], rest[1..];
        if byte == '\n' { return true; }
        i := i + 1;
      }
    }
  }

  // ---------- the writer ----------

  /** The digits above those already printed. */
  function HexAbove(n: nat): string { if n == 0 then "" else Hex(n) }

  /** `from_i_to_hex`. */
  method FromIToHex(size: nat) returns (ret: string)
    ensures ret == Hex(size)
  {
    hide HexDigit;
    ret := [HexDigit(size % 16)];
    var n: nat := size / 16;
    while n > 0
      invariant Hex(size) == HexAbove(n) + ret
    {
      assert HexAbove(n / 16) + [HexDigit(n % 16)] == Hex(n);
      ret := [HexDigit(n % 16)] + ret;
      n := n / 16;
    }
  }

  /** What the content provider is given, with a compressor that changes nothing. */
  class DataSink {
    const strm: SocketStream
    var dataAvailable: bool
    var offset: nat

    constructor (strm: SocketStream)
      ensures this.strm == strm && dataAvailable
    {
      this.strm := strm;
      dataAvailable, offset := true, 0;
    }

    method Write(data: string)
      modifies this, strm.sock`sent
      ensures strm.sock.sent == old(strm.sock.sent) + Emitted(Op.Write(data))
      ensures dataAvailable == More(Op.Write(data)) && offset == old(offset) + |data|
    {
      dataAvailable := |data| > 0;
      offset := offset + |data|;
      if data != "" {
        var size := FromIToHex(|data|);
        WriteData(strm, size + CRLF + (data + CRLF));
      }
    }

    method Done()
      modifies this, strm.sock`sent
      ensures strm.sock.sent == old(strm.sock.sent) + Emitted(Op.Done) && dataAvailable == More(Op.Done)
    {
      dataAvailable := false;
      WriteData(strm, LAST_CHUNK);
    }

    /** One call of the provider, which does `ops`. */
    method Provide(ops: seq<Op>)
      modifies this, strm.sock`sent
      ensures strm.sock.sent == old(strm.sock.sent) + EmittedAll(ops)
      ensures dataAvailable == if ops == [] then old(dataAvailable) else MoreAfter(ops)
    {
      hide Emitted, More;
      if ops != [] {
        match ops[0] {
          case Write(data) => Write(data);
          case Done => Done();
        }
        Provide(ops[1..]);
      }
    }
  }

  lemma {:induction false} EmittedConcat(a: seq<Op>, b: seq<Op>)
    ensures EmittedAll(a + b) == EmittedAll(a) + EmittedAll(b)
  {
    if a == [] {
      assert a + b == b;
    } else {
      assert (a + b)[0] == a[0] && (a + b)[1..] == a[1..] + b;
      EmittedConcat(a[1..], b);
    }
  }

  lemma CallPerformed(calls: seq<seq<Op>>, i: nat, before: seq<Op>)
    requires i <= |calls|
    ensures i == |calls| ==> !Performed(calls[i..]).1 && before + Performed(calls[i..]).0 == before
    ensures i < |calls| && calls[i] == [] ==> MoreAfter(calls[i])
    ensures i < |calls| && MoreAfter(calls[i]) ==>
      var (ops, finished) := Performed(calls[i + 1..]);
      (before + Performed(calls[i..]).0, Performed(calls[i..]).1) == (before + calls[i] + ops, finished)
    ensures i < |calls| && !MoreAfter(calls[i]) ==> Performed(calls[i..]) == (calls[i], true)
  {
    if i < |calls| {
      assert calls[i..][0] == calls[i] && calls[i..][1..] == calls[i + 1..];
      assert before + (calls[i] + Performed(calls[i + 1..]).0) == before + calls[i] + Performed(calls[i + 1..]).0;
    } else {
      assert calls[i..] == [] && before + [] == before;
    }
  }

  /** `calls` says what the provider does each time it is called. False when it cancels. */
  method WriteContentChunked(strm: SocketStream, calls: seq<seq<Op>>) returns (ok: bool)
    modifies strm.sock`sent
    ensures var (ops, finished) := Performed(calls);
      ok == finished && strm.sock.sent == old(strm.sock.sent) + EmittedAll(ops)
  {
    hide EmittedAll, MoreAfter, Performed;
    ghost var (ops, finished) := Performed(calls);
    var sink := new DataSink(strm);
    ghost var before: seq<Op> := [];
    assert EmittedAll([]) == "" by { EmittedNothing(); }
    var i := 0;
    while sink.dataAvailable
      invariant i <= |calls| && sink.strm == strm && fresh(sink)
      invariant strm.sock.sent == old(strm.sock.sent) + EmittedAll(before)
      invariant sink.dataAvailable ==>
        before + Performed(calls[i..]).0 == ops && Performed(calls[i..]).1 == finished
      invariant !sink.dataAvailable ==> before == ops && finished
      decreases |calls| - i, sink.dataAvailable
    {
      CallPerformed(calls, i, before);
      if i == |calls| { return false; }
      sink.Provide(calls[i]);
      EmittedConcat(before, calls[i]);
      before := before + calls[i];
      i := i + 1;
    }
    return true;
  }

  lemma EmittedNothing()
    ensures EmittedAll([]) == ""
  {
  }

  // ---------- the reader ----------

  /** The receiver of the content, which accepts everything. */
  class Receiver {
    var data: string

    method Out(buf: array<char>, n: nat)
      requires n <= buf.Length
      modifies this
      ensures data == old(data) + buf[..n]
    {
      data := data + buf[..n];
    }
  }

  const RECV_BUFSIZ := 4096

  /** Hands over the next `len` bytes, or as many as there are. */
  method ReadContentWithLength(strm: SocketStream, len: nat, out: Receiver) returns (ok: bool)
    requires strm.Valid()
    modifies strm`off, strm`contentSize, strm.readBuff, strm.sock`incoming, out
    ensures strm.Valid()
    ensures var s := old(strm.Remaining());
      var n := if len <= |s| then len else |s|;
      ok == (len <= |s|) && out.data == old(out.data) + s[..n] && strm.Remaining() == s[n..]
  {
    ghost var s := strm.Remaining();
    var buf := new char[RECV_BUFSIZ];
    var r := 0;
    while r < len
      invariant strm.Valid() && r <= len && r <= |s|
      invariant out.data == old(out.data) + s[..r] && strm.Remaining() == s[r..]
    {
      var n := strm.Read(buf, if len - r < RECV_BUFSIZ then len - r else RECV_BUFSIZ);
      if n == 0 { return false; }
      assert s[r..][..n] == buf[..n] && s[r..][n..] == strm.Remaining();
      out.Out(buf, n);
      r := r + n;
    }
    return true;
  }

  /** `strcmp` with an empty line. */
  method IsCrlf(reader: StreamLineReader, ghost s: string) returns (same: bool)
    requires reader.Valid() && s != "" && reader.Text() == Line(s)
    ensures same == AtCrlf(s)
  {
    var memory := reader.Ptr();
    return CString(memory) == CRLF;
  }

  /** What follows a size line that is neither malformed nor zero. */
  function ReadBody(size: nat, body: string): Read {
    if |body| < size then Read(false, body, "") else ReadRest(body[..size], body[size..])
  }

  /** What a size line leads to. */
  lemma SizeLine(s: string, size: nat, isNumber: bool)
    requires s != "" && (size, isNumber) == Strtoul(CString(Line(s)))
    ensures var body := AfterLine(s);
      ReadChunks(s) ==
        if !isNumber || size == ULONG_MAX then Read(false, "", body)
        else if size == 0 then Read(AtCrlf(body), "", AfterLine(body))
        else ReadBody(size, body)
  {
  }

  lemma BodyRead(size: nat, body: string, before: string)
    ensures var r := ReadBody(size, body).After(before);
      if |body| < size then r == Read(false, before + body, "")
      else
        var (data, s) := (before + body[..size], body[size..]);
        if s == "" then r == Read(false, data, "")
        else if !AtCrlf(s) then r == Read(true, data, AfterLine(s))
        else if AfterLine(s) == "" then r == Read(false, data, "")
        else |AfterLine(s)| < |body| && r == ReadChunks(AfterLine(s)).After(data)
  {
    hide Line, CString, AtCrlf, AfterLine, ReadChunks;
    EmptyRead();
    if size <= |body| && AtCrlf(body[size..]) {
      var r := ReadChunks(AfterLine(body[size..]));
      assert before + (body[..size] + r.data) == before + body[..size] + r.data;
    }
  }

  /** The data of a chunk, the line that ends it, and the next size line; `s` is the stream from there. */
  method ReadChunk(strm: SocketStream, size: nat, reader: StreamLineReader, out: Receiver)
    returns (more: bool, ok: bool, ghost s: string)
    requires strm.Valid() && reader.Valid() && reader.strm == strm
    modifies strm`off, strm`contentSize, strm.readBuff, strm.sock`incoming, out
    modifies reader`used, reader`growable, reader.fixed
    ensures strm.Valid() && reader.Valid()
    ensures var r := ReadBody(size, old(strm.Remaining())).After(old(out.data));
      if more
      then s != "" && reader.Text() == Line(s) && strm.Remaining() == AfterLine(s) && |s| < |old(strm.Remaining())|
           && r == ReadChunks(s).After(out.data)
      else r == Read(ok, out.data, strm.Remaining())
  {
    hide Line, ReadChunks, AfterLine, CString, Strtoul, ReadBody, AtCrlf;
    BodyRead(size, strm.Remaining(), out.data);
    s := "";
    ok := ReadContentWithLength(strm, size, out);
    if !ok { return false, false, s; }
    s := strm.Remaining();
    ok := reader.GetLine();
    if !ok { return false, false, s; }
    ok := IsCrlf(reader, s);
    if !ok { return false, true, s; }
    s := strm.Remaining();
    ok := reader.GetLine();
    more := ok;
  }

  method ReadContentChunked(strm: SocketStream, out: Receiver) returns (ok: bool)
    requires strm.Valid()
    modifies strm`off, strm`contentSize, strm.readBuff, strm.sock`incoming, out
    ensures strm.Valid()
    ensures Read(ok, out.data, strm.Remaining()) == ReadChunks(old(strm.Remaining())).After(old(out.data))
  {
    hide Strtoul, CString, Line, ReadChunks, AfterLine, ReadBody;
    EmptyRead();
    ghost var result := ReadChunks(strm.Remaining()).After(out.data);
    var buf := new char[16];
    var reader := new StreamLineReader(strm, buf);
    ghost var s := strm.Remaining();
    ok := reader.GetLine();
    if !ok { return; }
    while true
      invariant reader.Valid() && strm.Valid() && s != ""
      invariant reader.Text() == Line(s) && strm.Remaining() == AfterLine(s)
      invariant ReadChunks(s).After(out.data) == result
      decreases |s|
    {
      var memory := reader.Ptr();
      var (size, isNumber) := Strtoul(CString(memory));
      SizeLine(s, size, isNumber);
      if !isNumber || size == ULONG_MAX { return false; }
      if size == 0 { break; }
      var more;
      more, ok, s := ReadChunk(strm, size, reader, out);
      if !more { return; }
    }
    s := strm.Remaining();
    ok := reader.GetLine();
    if ok { ok := IsCrlf(reader, s); }
  }

  /**
   Pieces written one a call and sent over a connection on which `rest` follows: however the sends and the receives
   are cut, the reader hands over the concatenation and leaves `rest` in its stream.
   */
  method Transfer(pieces: seq<string>, rest: string) returns (ok: bool, data: string, ghost left: string)
    requires "" !in pieces && forall p :: p in pieces ==> |p| < ULONG_MAX
    ensures ok && data == Concat(pieces) && left == rest
  {
    hide ReadChunks, EmittedAll, Performed, PieceByPiece, Concat;
    var near, far := new Socket, new Socket;
    near.sent := "";
    var strm := new SocketStream(near);
    ok := WriteContentChunked(strm, PieceByPiece(pieces));
    ghost var emitted := EmittedAll(Performed(PieceByPiece(pieces)).0);
    assert near.sent == emitted;
    far.incoming := near.sent + rest;
    strm := new SocketStream(far);
    var out := new Receiver;
    out.data := "";
    assert ReadChunks(emitted + rest).After("") == Read(true, Concat(pieces), rest) by {
      PiecesReadBackIffNonEmpty(pieces);
    }
    ok := ReadContentChunked(strm, out);
    return ok, out.data, strm.Remaining();
  }
}
