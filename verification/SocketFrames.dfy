/** The frames exchanged on sockets, and the loop that receives them from fragments of any size. */
module SocketFrames {
  import opened ExchangeDoc
  import opened Datasets
  import opened Wrappers

  datatype Frame = Frame(id: nat, payload: Bytes)

  ghost predicate ValidFrame(f: Frame) { f.id < END && |f.payload| < UINT32 }

  ghost predicate ValidFrames(fs: seq<Frame>) { forall f :: f in fs ==> ValidFrame(f) }

  /** A `uint32_t` as it lies in memory. */
  function Word(n: nat): (w: Bytes)
    requires n < UINT32
    ensures |w| == 4
  {
    [n % 256, n / 0x100 % 256, n / 0x1_0000 % 256, n / 0x100_0000 % 256]
  }

  function ReadWord(w: Bytes): (n: nat)
    requires |w| == 4
    ensures n < UINT32
  {
    w[0] as int + 0x100 * (w[1] as int) + 0x1_0000 * (w[2] as int) + 0x100_0000 * (w[3] as int)
  }

  lemma ReadWordOfWord(n: nat)
    requires n < UINT32
    ensures ReadWord(Word(n)) == n
  {
  }

  ghost function Encode(f: Frame): Bytes
    requires ValidFrame(f)
  {
    Word(f.id) + Word(|f.payload|) + f.payload
  }

  /** The bytes of a frame: its id, its length, each the lowest byte first, and its payload. */
  lemma EncodeInFull(f: Frame)
    requires ValidFrame(f)
    ensures |Encode(f)| == 8 + |f.payload| && Encode(f)[8..] == f.payload
    ensures var e := Encode(f);
      e[0] as int + 256 * (e[1] as int) + 65536 * (e[2] as int) + 16777216 * (e[3] as int) == f.id
    ensures var e := Encode(f);
      e[4] as int + 256 * (e[5] as int) + 65536 * (e[6] as int) + 16777216 * (e[7] as int) == |f.payload|
  {
    hide ReadWord;
    WordInFull(f.id);
    WordInFull(|f.payload|);
    hide Word;
  }

  lemma WordInFull(n: nat)
    requires n < UINT32
    ensures var w := Word(n); w[0] as int + 256 * (w[1] as int) + 65536 * (w[2] as int) + 16777216 * (w[3] as int) == n
  {
    ReadWordOfWord(n);
  }

  /** The end signal is four bytes of ones. */
  lemma EndInFull()
    ensures Word(END) == [255, 255, 255, 255]
  {
  }

  /** All that a sender puts on its connection. */
  ghost function Stream(fs: seq<Frame>): (s: Bytes)
    requires ValidFrames(fs)
    ensures |s| >= 4
  {
    if fs == [] then Word(END) else Encode(fs[0]) + Stream(fs[1..])
  }

  lemma StreamHead(fs: seq<Frame>)
    requires ValidFrames(fs)
    ensures fs != [] ==> ValidFrame(fs[0])
    ensures ReadWord(Stream(fs)[..4]) == if fs == [] then END else fs[0].id
    ensures fs == [] ==> Stream(fs)[4..] == []
    ensures fs != [] ==> Stream(fs)[4..] == Word(|fs[0].payload|) + (fs[0].payload + Stream(fs[1..]))
  {
    if fs == [] {
      ReadWordOfWord(END);
    } else {
      assert fs[0] in fs;
      ReadWordOfWord(fs[0].id);
      assert Stream(fs) == Word(fs[0].id) + (Word(|fs[0].payload|) + (fs[0].payload + Stream(fs[1..])));
    }
  }

  /** A connected socket whose sender keeps it supplied: `incoming` is all that will still arrive. */
  class Socket {
    var incoming: Bytes

    /** One `receive` returns some of the bytes asked for, at least one. */
    method Receive(max: nat) returns (chunk: Bytes)
      requires 0 < max && incoming != []
      modifies this
      ensures 0 < |chunk| <= max
      ensures chunk + incoming == old(incoming)
    {
      var n :| 0 < n <= max && n <= |incoming|;
      chunk := incoming[..n];
      incoming := incoming[n..];
    }

    /** A 4-byte header arrives whole. */
    method ReceiveWord() returns (n: nat)
      requires |incoming| >= 4
      modifies this
      ensures n == ReadWord(old(incoming)[..4]) && incoming == old(incoming)[4..]
    {
      n := ReadWord(incoming[..4]);
      incoming := incoming[4..];
    }
  }

  /** The payload is put together from as many fragments as it takes. */
  method ReceivePayload(socket: Socket, length: nat) returns (buffer: array<Byte>)
    requires length <= |socket.incoming|
    modifies socket
    ensures fresh(buffer) && buffer[..] == old(socket.incoming)[..length]
    ensures socket.incoming == old(socket.incoming)[length..]
  {
    buffer := new Byte[length];
    var received := 0;
    while received < length
      invariant received <= length
      invariant buffer[..received] == old(socket.incoming)[..received]
      invariant socket.incoming == old(socket.incoming)[received..]
    {
      ghost var before := socket.incoming;
      var chunk := socket.Receive(length - received);
      assert old(socket.incoming)[received..][..|chunk|] == chunk;
      forall i | 0 <= i < |chunk| { buffer[received + i] := chunk[i]; }
      received := received + |chunk|;
    }
  }

  /** A frame, or None for the end signal. `fs` and `rest` say what the sender put on the connection. */
  method ReceiveFrame(socket: Socket, ghost fs: seq<Frame>, ghost rest: Bytes) returns (r: Option<Frame>)
    requires ValidFrames(fs) && socket.incoming == Stream(fs) + rest
    modifies socket
    ensures r == if fs == [] then None else Some(fs[0])
    ensures socket.incoming == if fs == [] then rest else Stream(fs[1..]) + rest
  {
    StreamHead(fs);
    assert socket.incoming[..4] == Stream(fs)[..4] && socket.incoming[4..] == Stream(fs)[4..] + rest;
    var id := socket.ReceiveWord();
    if id == END { return None; }
    ghost var payload, tail := fs[0].payload, Stream(fs[1..]) + rest;
    assert socket.incoming == Word(|payload|) + (payload + tail);
    ReadWordOfWord(|payload|);
    var length := socket.ReceiveWord();
    assert socket.incoming == payload + tail;
    var buffer := ReceivePayload(socket, length);
    return Some(Frame(id, buffer[..]));
  }

  /** Receiving until the end signal gives the frames that were sent, however they are cut up. */
  method ReceiveAll(socket: Socket, ghost fs: seq<Frame>, ghost rest: Bytes) returns (got: seq<Frame>)
    requires ValidFrames(fs) && socket.incoming == Stream(fs) + rest
    modifies socket
    ensures got == fs && socket.incoming == rest
  {
    got := [];
    ghost var left := fs;
    while true
      invariant ValidFrames(left) && got + left == fs
      invariant socket.incoming == Stream(left) + rest
      decreases |left|
    {
      var frame := ReceiveFrame(socket, left, rest);
      if frame.None? { return; }
      got := got + [frame.value];
      left := left[1..];
    }
  }
}
