/**
 What the reader makes of a chunked coding that was cut: it reports success exactly when the cut is right behind the
 carriage return that follows the data of a chunk.
 */
module ChunkedCuts {
  import opened Strings
  import opened Chunked

  /** The line behind the data of a chunk decides: the reader stops, goes on, or ends as if the body were complete. */
  lemma LineBehindDataDecides(data: string, s: string)
    requires 0 < |data| < ULONG_MAX
    ensures ReadChunks(Hex(|data|) + (CRLF + (data + s))) ==
      if s == "" then Read(false, data, "")
      else if AtCrlf(s) then ReadChunks(AfterLine(s)).After(data)
      else Read(true, data, AfterLine(s))
  {
    hide Strtoul, Hex, CString, Line, AtCrlf;
    SizeLineRead(|data|, data + s);
    assert (data + s)[..|data|] == data && (data + s)[|data|..] == s;
  }

  /** How much of a chunk there is up to the end of its data. */
  function ToDataEnd(data: string): nat { |Hex(|data|)| + 2 + |data| }

  /** The first n characters of the coding end right behind the carriage return that follows the data of chunk i. */
  predicate EndsBehindCr(ops: seq<Op>, i: nat, n: nat) {
    i < |ops| && ops[i].Write? && ops[i].data != "" && n == |EmittedAll(ops[..i])| + ToDataEnd(ops[i].data) + 1
  }

  ghost predicate CutBehindCr(ops: seq<Op>, n: nat) { exists i: nat :: EndsBehindCr(ops, i, n) }

  lemma FirstOrLater(ops: seq<Op>, i: nat, n: nat)
    requires ops != []
    ensures var m := |Emitted(ops[0])|;
      EndsBehindCr(ops, i + 1, n) <==> n >= m && EndsBehindCr(ops[1..], i, n - m)
  {
    hide Emitted, ToDataEnd;
    if i + 1 < |ops| {
      assert ops[..i + 1][0] == ops[0] && ops[..i + 1][1..] == ops[1..][..i];
    }
  }

  /** The cut is in the first operation's chunk or in those of the others. */
  lemma CutIsHereOrLater(ops: seq<Op>, n: nat)
    requires ops != []
    ensures CutBehindCr(ops, n) <==>
      var m := |Emitted(ops[0])|;
      EndsBehindCr(ops, 0, n) || (n >= m && CutBehindCr(ops[1..], n - m))
  {
    hide EndsBehindCr, Emitted;
    if i: nat :| EndsBehindCr(ops, i, n) {
      if i > 0 { FirstOrLater(ops, i - 1, n); }
    }
    if n >= |Emitted(ops[0])| {
      var (tail, rest) := (ops[1..], n - |Emitted(ops[0])|);
      if i: nat :| EndsBehindCr(tail, i, rest) {
        FirstOrLater(ops, i, n);
      }
    }
  }

  /** A single line is never enough. */
  lemma OneLineFails(s: string)
    requires AfterLine(s) == ""
    ensures !ReadChunks(s).ok && ReadChunks(s).data == ""
  {
    hide Strtoul, CString, Line, AfterLine;
    if s != "" {
      var (size, isNumber) := Strtoul(CString(Line(s)));
      assert !AtCrlf("");
      assert isNumber && 0 < size != ULONG_MAX ==> ReadChunks(s) == Read(false, "", "");
    }
  }

  lemma {:induction false} NoLineFeed(s: string)
    requires '\n' !in s
    ensures Line(s) == s && AfterLine(s) == ""
  {
    if s != "" {
      NoLineFeed(s[1..]);
      assert s[..1] + s[1..] == s;
    }
  }

  /** A size line, or the beginning of one, is a single line. */
  lemma CutSizeLine(size: nat, n: nat)
    requires n <= |Hex(size)| + 2
    ensures AfterLine((Hex(size) + CRLF)[..n]) == ""
  {
    hide Hex, Line, AfterLine;
    var line := Hex(size) + CRLF;
    HexIsHex(size);
    if n < |line| {
      NoLineFeed(line[..n]);
    } else {
      LineIs(Hex(size) + "\r", "");
      assert line[..n] == Hex(size) + "\r" + ("\n" + "");
    }
  }

  lemma CutChunk(data: string, n: nat)
    requires 0 < |data| < ULONG_MAX && n < |Chunk(data)|
    ensures var r := ReadChunks(Chunk(data)[..n]);
      (r.ok <==> n == ToDataEnd(data) + 1) && r.data <= data
  {
    hide Hex, ReadChunks;
    var (hex, chunk) := (Hex(|data|), Chunk(data));
    var m := |hex| + 2;
    if n <= m {
      assert chunk[..n] == (hex + CRLF)[..n];
      CutSizeLine(|data|, n);
      OneLineFails(chunk[..n]);
    } else if n < m + |data| {
      assert chunk[..n] == hex + (CRLF + data[..n - m]);
      CutData(data, n - m);
    } else {
      var s := CRLF[..n - m - |data|];
      assert chunk[..n] == hex + (CRLF + (data + s));
      LineBehindDataDecides(data, s);
      if s != "" { CrIsNoLine(); }
    }
  }

  lemma CutData(data: string, n: nat)
    requires n < |data| < ULONG_MAX
    ensures ReadChunks(Hex(|data|) + (CRLF + data[..n])) == Read(false, data[..n], "")
  {
    hide Strtoul, Hex, CString, Line;
    SizeLineRead(|data|, data[..n]);
  }

  lemma CrIsNoLine()
    ensures CRLF[..1] == "\r" && !AtCrlf("\r") && AfterLine("\r") == ""
  {
    NoLineFeed("\r");
    NoNul("\r");
  }

  lemma CutLastChunk(n: nat)
    requires n < |LAST_CHUNK|
    ensures !ReadChunks(LAST_CHUNK[..n]).ok && ReadChunks(LAST_CHUNK[..n]).data == ""
  {
    hide ReadChunks, Line;
    assert Hex(0) == "0";
    if n <= 3 {
      assert LAST_CHUNK[..n] == (Hex(0) + CRLF)[..n];
      CutSizeLine(0, n);
      OneLineFails(LAST_CHUNK[..n]);
    } else {
      assert LAST_CHUNK[..n] == Hex(0) + (CRLF + "\r");
      CutEmptyLine();
    }
  }

  lemma CutEmptyLine()
    ensures ReadChunks(Hex(0) + (CRLF + "\r")) == Read(false, "", "")
  {
    hide Strtoul, CString, Line, Hex;
    SizeLineRead(0, "\r");
    CrIsNoLine();
  }

  /**
   A finished coding that is cut anywhere is reported as complete if and only if the cut is right behind the carriage
   return that follows the data of a chunk. What was handed over is in any case a beginning of the content.
   */
  lemma {:induction false} CutAcceptedIffBehindCr(ops: seq<Op>, n: nat)
    requires Fits(ops) && EndsDone(ops) && n < |EmittedAll(ops)|
    ensures var r := ReadChunks(EmittedAll(ops)[..n]);
      (r.ok <==> CutBehindCr(ops, n)) && r.data <= Content(ops)
  {
    hide Chunk, ReadChunks, CutBehindCr, ToDataEnd;
    var tail := EmittedAll(ops[1..]);
    CutIsHereOrLater(ops, n);
    assert ops[..0] == [];
    match ops[0]
    case Done =>
      SilentEmitsNothing(ops[1..]);
      assert EmittedAll(ops)[..n] == LAST_CHUNK[..n];
      CutLastChunk(n);
    case Write(data) =>
      assert Fits(ops[1..]);
      if data == "" {
        assert EmittedAll(ops) == tail;
        CutAcceptedIffBehindCr(ops[1..], n);
      } else {
        var chunk := Chunk(data);
        assert ops[0] in ops && EmittedAll(ops) == chunk + tail;
        ChunkIsLonger(data);
        if n < |chunk| {
          assert EmittedAll(ops)[..n] == chunk[..n];
          CutChunk(data, n);
        } else {
          assert EmittedAll(ops)[..n] == chunk + tail[..n - |chunk|];
          ChunkRead(data, tail[..n - |chunk|]);
          CutAcceptedIffBehindCr(ops[1..], n - |chunk|);
        }
      }
  }

  lemma ChunkIsLonger(data: string)
    ensures |Chunk(data)| == ToDataEnd(data) + 2
  {
  }

  /** At such a cut the reader hands over the content up to and with that chunk, and loses the rest. */
  lemma {:induction false} CutLosesTheRest(ops: seq<Op>, i: nat, n: nat)
    requires Fits(ops) && EndsDone(ops) && EndsBehindCr(ops, i, n)
    ensures n <= |EmittedAll(ops)|
    ensures ReadChunks(EmittedAll(ops)[..n]) == Read(true, Content(ops[..i + 1]), "")
  {
    hide Chunk, ReadChunks, ToDataEnd;
    var tail := EmittedAll(ops[1..]);
    assert ops[0] in ops && Fits(ops[1..]);
    if ops[0] == Done {
      SilentTail(ops[1..], i);
    } else if i == 0 {
      var data := ops[0].data;
      ChunkIsLonger(data);
      assert ops[..0] == [];
      assert EmittedAll(ops) == Chunk(data) + tail;
      assert EmittedAll(ops)[..n] == Chunk(data)[..n];
      CutBehindData(data);
      ContentOfOne(ops);
    } else {
      FirstOrLater(ops, i - 1, n);
      var m := |Emitted(ops[0])|;
      CutLosesTheRest(ops[1..], i - 1, n - m);
      assert EmittedAll(ops)[..n] == Emitted(ops[0]) + tail[..n - m];
      assert ops[..i + 1][0] == ops[0] && ops[..i + 1][1..] == ops[1..][..i];
      if ops[0].data != "" {
        ChunkRead(ops[0].data, tail[..n - m]);
      } else {
        assert EmittedAll(ops)[..n] == tail[..n];
      }
    }
  }

  lemma ContentOfOne(ops: seq<Op>)
    requires ops != [] && ops[0].Write?
    ensures Content(ops[..1]) == ops[0].data
  {
    assert ops[..1][1..] == [];
    assert Content(ops[..1]) == ops[0].data + "";
  }

  /** Nothing is written behind `Done`. */
  lemma {:induction false} SilentTail(tail: seq<Op>, i: nat)
    requires Silent(tail) && 0 < i <= |tail|
    ensures tail[i - 1] == Write("")
  {
    if i > 1 { SilentTail(tail[1..], i - 1); }
  }

  lemma CutBehindData(data: string)
    requires 0 < |data| < ULONG_MAX
    ensures ToDataEnd(data) + 1 <= |Chunk(data)|
    ensures ReadChunks(Chunk(data)[..ToDataEnd(data) + 1]) == Read(true, data, "")
  {
    hide Hex, ReadChunks;
    assert Chunk(data)[..ToDataEnd(data) + 1] == Hex(|data|) + (CRLF + (data + "\r"));
    LineBehindDataDecides(data, "\r");
    CrIsNoLine();
  }

  /** Two chunks, cut behind the first carriage return that follows data: the second is lost, and nobody is told. */
  lemma CutIsTakenForComplete()
    ensures var ops := [Write("a"), Write("b"), Done];
      EndsDone(ops) && Content(ops) == "ab" && EmittedAll(ops)[..5] == "1\r\na\r"
      && ReadChunks(EmittedAll(ops)[..5]) == Read(true, "a", "")
  {
    hide ReadChunks;
    var ops := [Write("a"), Write("b"), Done];
    assert Hex(1) == "1";
    assert ops[1..] == [Write("b"), Done] && ops[1..][1..] == [Done] && ops[1..][1..][1..] == [];
    assert EmittedAll(ops)[..5] == Hex(|"a"|) + (CRLF + ("a" + "\r"));
    LineBehindDataDecides("a", "\r");
    CrIsNoLine();
  }
}
