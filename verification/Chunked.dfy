/**
 The chunked transfer coding (section 4.1 of RFC 7230): what the writer emits, what the reader makes of any
 bytes, and exactly when the reader gets back what was written.
 */
module Chunked {
  import opened Strings

  /** `unsigned long` and `size_t` have 64 bits. */
  const ULONG_MAX: nat := 0xFFFF_FFFF_FFFF_FFFF

  // ---------- numbers ----------

  function HexDigit(d: nat): (c: char)
    requires d < 16
  {
    if d < 10 then '0' + d as char else 'a' + (d - 10) as char
  }

  /** The size of a chunk in text. */
  function Hex(n: nat): (s: string)
    ensures s != ""
  {
    (if n < 16 then "" else Hex(n / 16)) + [HexDigit(n % 16)]
  }

  /** How many hexadecimal digits `s` starts with. */
  function Digits(s: string): (n: nat)
    ensures n <= |s| && forall i :: 0 <= i < n ==> IsHex(s[i])
  {
    if s != "" && IsHex(s[0]) then 1 + Digits(s[1..]) else 0
  }

  function Number(digits: string): nat
    requires forall i :: 0 <= i < |digits| ==> IsHex(digits[i])
  {
    if digits == "" then 0 else 16 * Number(digits[..|digits| - 1]) + HexValue(digits[|digits| - 1])
  }

  /** A string in memory ends before its first NUL. */
  function CString(s: string): string {
    if s == "" || s[0] == '\0' then "" else s[..1] + CString(s[1..])
  }

  predicate HasSign(s: string) { s != "" && (s[0] == '-' || s[0] == '+') }

  predicate HasPrefix(s: string) { |s| >= 3 && s[0] == '0' && (s[1] == 'x' || s[1] == 'X') && IsHex(s[2]) }

  /** `strtoul` in base 16: the value, and whether there was a number at all. */
  function Strtoul(s: string): (nat, bool) {
    var signed := SkipSpace(s);
    var unsigned := if HasSign(signed) then signed[1..] else signed;
    var bare := if HasPrefix(unsigned) then unsigned[2..] else unsigned;
    var digits := bare[..Digits(bare)];
    if digits == "" then (0, false)
    else if Number(digits) > ULONG_MAX then (ULONG_MAX, true)
    else if HasSign(signed) && signed[0] == '-' && Number(digits) > 0 then (ULONG_MAX + 1 - Number(digits), true)
    else (Number(digits), true)
  }

  // ---------- the writer ----------

  /** What a content provider may do with the sink that it is given. */
  datatype Op = Write(data: string) | Done

  function Chunk(data: string): string { Hex(|data|) + CRLF + (data + CRLF) }

  const LAST_CHUNK := "0\r\n\r\n"

  function Emitted(op: Op): string {
    match op
    case Write(data) => if data == "" then "" else Chunk(data)
    case Done => LAST_CHUNK
  }

  function EmittedAll(ops: seq<Op>): string {
    if ops == [] then "" else Emitted(ops[0]) + EmittedAll(ops[1..])
  }

  /** Whether more data is to be expected, after an operation and after a call of the provider. */
  predicate More(op: Op) { op.Write? && op.data != "" }

  predicate MoreAfter(ops: seq<Op>) { ops == [] || More(ops[|ops| - 1]) }

  /**
   The operations performed when the provider's calls do `calls` in turn. The loop ends with the first call after
   which no more data is expected; a provider that has nothing left cancels.
   */
  function Performed(calls: seq<seq<Op>>): (r: (seq<Op>, bool)) {
    if calls == [] then ([], false)
    else if !MoreAfter(calls[0]) then (calls[0], true)
    else
      var (ops, finished) := Performed(calls[1..]);
      (calls[0] + ops, finished)
  }

  // ---------- the reader ----------

  /** What a line reader gets: everything up to and including the first line feed, or all there is. */
  function Line(s: string): (line: string)
    ensures |line| <= |s| && line == s[..|line|] && (s != "" ==> line != "")
  {
    if s == "" then "" else if s[0] == '\n' then s[..1] else s[..1] + Line(s[1..])
  }

  function AfterLine(s: string): (rest: string)
    ensures |rest| <= |s| && (s != "" ==> |rest| < |s|)
  {
    s[|Line(s)|..]
  }

  /** The result, the content handed over, and what is left in the stream. */
  datatype Read = Read(ok: bool, data: string, rest: string) {
    function After(before: string): Read { this.(data := before + data) }
  }

  predicate AtCrlf(s: string) { s != "" && CString(Line(s)) == CRLF }

  function ReadChunks(s: string): Read
    decreases |s|
  {
    if s == "" then Read(false, "", "") else
      var ((size, isNumber), body) := (Strtoul(CString(Line(s))), AfterLine(s));
      if !isNumber || size == ULONG_MAX then Read(false, "", body)
      else if size == 0 then Read(AtCrlf(body), "", AfterLine(body))
      else if |body| < size then Read(false, body, "")
      else ReadRest(body[..size], body[size..])
  }

  /** What follows the data of a chunk. */
  function ReadRest(data: string, s: string): Read
    decreases |s|
  {
    if s == "" then Read(false, data, "")
    else if !AtCrlf(s) then Read(true, data, AfterLine(s))
    else ReadChunks(AfterLine(s)).After(data)
  }

  // ---------- reading what was written ----------

  ghost predicate AllHex(s: string) { forall i :: 0 <= i < |s| ==> IsHex(s[i]) }

  lemma {:induction false} HexIsHex(n: nat)
    ensures AllHex(Hex(n))
  {
    if n >= 16 { HexIsHex(n / 16); }
  }

  lemma {:induction false} NumberOfHex(n: nat)
    ensures AllHex(Hex(n)) && Number(Hex(n)) == n
  {
    HexIsHex(n);
    if n >= 16 {
      NumberOfHex(n / 16);
      assert Hex(n)[..|Hex(n)| - 1] == Hex(n / 16);
    } else {
      assert Hex(n)[..|Hex(n)| - 1] == "";
    }
  }

  lemma {:induction false} DigitsAre(digits: string, s: string)
    requires AllHex(digits) && (s != "" ==> !IsHex(s[0]))
    ensures Digits(digits + s) == |digits|
  {
    if digits == "" {
      assert digits + s == s;
    } else {
      assert (digits + s)[1..] == digits[1..] + s;
      DigitsAre(digits[1..], s);
    }
  }

  lemma {:induction false} LineIs(a: string, s: string)
    requires '\n' !in a
    ensures Line(a + ("\n" + s)) == a + "\n" && AfterLine(a + ("\n" + s)) == s
  {
    var t := a + ("\n" + s);
    if a != "" {
      assert t[1..] == a[1..] + ("\n" + s);
      LineIs(a[1..], s);
      assert t[..1] + (a[1..] + "\n") == a + "\n";
    }
    assert t == Line(t) + s;
  }

  lemma {:induction false} NoNul(s: string)
    requires '\0' !in s
    ensures CString(s) == s
  {
    if s != "" { NoNul(s[1..]); }
  }

  lemma StrtoulOfHex(hex: string)
    requires hex != "" && AllHex(hex) && Number(hex) <= ULONG_MAX
    ensures Strtoul(hex + CRLF) == (Number(hex), true)
  {
    var s := hex + CRLF;
    assert IsHex(s[0]) && s[1] != 'x' && s[1] != 'X';
    assert SkipSpace(s) == s;
    DigitsAre(hex, CRLF);
    assert s[..|hex|] == hex;
  }

  /** The size line of a chunk is read as its size. */
  lemma SizeLineRead(n: nat, s: string)
    requires n <= ULONG_MAX
    ensures var t := Hex(n) + (CRLF + s);
      Strtoul(CString(Line(t))) == (n, true) && AfterLine(t) == s
  {
    hide Strtoul, Line, CString, Number;
    var hex := Hex(n);
    NumberOfHex(n);
    assert hex + (CRLF + s) == hex + "\r" + ("\n" + s);
    LineIs(hex + "\r", s);
    assert hex + "\r" + "\n" == hex + CRLF;
    assert '\0' !in hex && '\0' !in CRLF;
    NoNul(hex + CRLF);
    StrtoulOfHex(hex);
  }

  lemma CrlfRead(s: string)
    ensures AtCrlf(CRLF + s) && AfterLine(CRLF + s) == s
  {
    assert CRLF + s == "\r" + ("\n" + s);
    LineIs("\r", s);
    NoNul(CRLF);
    assert "\r" + "\n" == CRLF;
  }

  lemma ChunkRead(data: string, s: string)
    requires 0 < |data| < ULONG_MAX
    ensures ReadChunks(Chunk(data) + s) == ReadChunks(s).After(data)
  {
    hide Strtoul, Hex, CString, Line;
    var body := data + (CRLF + s);
    assert Chunk(data) + s == Hex(|data|) + (CRLF + body);
    SizeLineRead(|data|, body);
    assert body[..|data|] == data && body[|data|..] == CRLF + s;
    CrlfRead(s);
  }

  lemma LastChunkRead(s: string)
    ensures ReadChunks(LAST_CHUNK + s) == Read(true, "", s)
  {
    hide Strtoul, CString, Line;
    assert Hex(0) == "0" && LAST_CHUNK == "0" + (CRLF + CRLF);
    assert LAST_CHUNK + s == Hex(0) + (CRLF + (CRLF + s));
    SizeLineRead(0, CRLF + s);
    CrlfRead(s);
  }

  // ---------- the round trip ----------

  /** All that was written, in order. */
  function Content(ops: seq<Op>): string {
    if ops == [] then "" else (if ops[0].Write? then ops[0].data else "") + Content(ops[1..])
  }

  /** No more than memory can hold in one piece. */
  ghost predicate Fits(ops: seq<Op>) { forall op :: op in ops ==> op.Write? ==> |op.data| < ULONG_MAX }

  ghost predicate Silent(ops: seq<Op>) { ops == [] || (ops[0] == Write("") && Silent(ops[1..])) }

  /** `Done` is there, and nothing that emits anything comes after it. */
  ghost predicate EndsDone(ops: seq<Op>) {
    ops != [] && if ops[0] == Done then Silent(ops[1..]) else EndsDone(ops[1..])
  }

  lemma {:induction false} SilentEmitsNothing(ops: seq<Op>)
    ensures Silent(ops) <==> EmittedAll(ops) == ""
    ensures Silent(ops) ==> Content(ops) == ""
  {
    if ops != [] {
      SilentEmitsNothing(ops[1..]);
      assert |Emitted(ops[0])| == 0 <==> ops[0] == Write("");
    }
  }

  /** The operations before the first `Done` are read back; what follows stays in the stream. */
  lemma {:induction false} ReadBack(ops: seq<Op>, rest: string)
    requires Fits(ops)
    ensures EndsDone(ops) ==> ReadChunks(EmittedAll(ops) + rest) == Read(true, Content(ops), rest)
    ensures !EndsDone(ops) ==>
      var r := ReadChunks(EmittedAll(ops));
      !r.ok || r.rest != ""
  {
    hide Chunk, ReadChunks;
    if ops == [] {
      assert ReadChunks("") == Read(false, "", "") by { EmptyRead(); }
    } else {
      var tail := EmittedAll(ops[1..]);
      match ops[0]
      case Done =>
        SilentEmitsNothing(ops[1..]);
        LastChunkRead(tail);
        LastChunkRead(rest);
        if Silent(ops[1..]) { assert LAST_CHUNK + tail == LAST_CHUNK; }
      case Write(data) =>
        assert Fits(ops[1..]);
        ReadBack(ops[1..], rest);
        if data == "" {
          assert Emitted(ops[0]) + tail == tail;
        } else {
          assert ops[0] in ops;
          ChunkRead(data, tail);
          ChunkRead(data, tail + rest);
          assert Chunk(data) + tail + rest == Chunk(data) + (tail + rest);
        }
    }
  }

  lemma EmptyRead()
    ensures ReadChunks("") == Read(false, "", "")
  {
  }

  /**
   Once the writer has finished, the reader takes exactly what was written, and all that was emitted, if and only if
   `Done` was called and nothing was written after it.
   */
  lemma ReadsBackIffDone(calls: seq<seq<Op>>)
    requires var (ops, finished) := Performed(calls); finished && Fits(ops)
    ensures var ops := Performed(calls).0;
      ReadChunks(EmittedAll(ops)) == Read(true, Content(ops), "") <==> EndsDone(ops)
  {
    var ops := Performed(calls).0;
    ReadBack(ops, "");
    assert EmittedAll(ops) + "" == EmittedAll(ops);
  }

  /** The calls of a provider that writes one piece a call and then says that it is done. */
  function PieceByPiece(pieces: seq<string>): seq<seq<Op>> {
    if pieces == [] then [[Done]] else [[Write(pieces[0])]] + PieceByPiece(pieces[1..])
  }

  function Concat(pieces: seq<string>): string {
    if pieces == [] then "" else pieces[0] + Concat(pieces[1..])
  }

  lemma {:induction false} PiecesPerformed(pieces: seq<string>)
    ensures var (ops, finished) := Performed(PieceByPiece(pieces));
      finished
      && (EndsDone(ops) <==> "" !in pieces)
      && ("" !in pieces ==> Content(ops) == Concat(pieces))
      && (forall op :: op in ops && op.Write? ==> op.data in pieces)
  {
    if pieces == [] {
      assert Performed(PieceByPiece(pieces)) == ([Done], true);
    } else {
      var (calls, op) := (PieceByPiece(pieces), Write(pieces[0]));
      assert calls[0] == [op] && calls[1..] == PieceByPiece(pieces[1..]);
      assert pieces == [pieces[0]] + pieces[1..];
      PiecesPerformed(pieces[1..]);
      if pieces[0] == "" {
        assert Performed(calls).0 == [op];
        assert !EndsDone([op][1..]);
      } else {
        var ops := Performed(calls[1..]).0;
        assert ([op] + ops)[1..] == ops;
      }
    }
  }

  /**
   Pieces written one a call come back as their concatenation, with the rest of the stream untouched, if and only if
   none of them is empty: an empty piece ends the loop, and the last chunk is never sent.
   */
  lemma PiecesReadBackIffNonEmpty(pieces: seq<string>)
    requires forall p :: p in pieces ==> |p| < ULONG_MAX
    ensures var emitted := EmittedAll(Performed(PieceByPiece(pieces)).0);
      (forall rest :: ReadChunks(emitted + rest) == Read(true, Concat(pieces), rest)) <==> "" !in pieces
  {
    hide ReadChunks, Performed, EmittedAll, PieceByPiece, Content, Concat, EndsDone;
    var ops := Performed(PieceByPiece(pieces)).0;
    var emitted := EmittedAll(ops);
    PiecesPerformed(pieces);
    if "" !in pieces {
      forall rest ensures ReadChunks(emitted + rest) == Read(true, Concat(pieces), rest) { ReadBack(ops, rest); }
    } else {
      ReadBack(ops, "");
      assert emitted + "" == emitted;
    }
  }

  lemma EmptyPieceIsNotReadBack()
    ensures var calls := PieceByPiece([""]);
      Performed(calls) == ([Write("")], true) && !ReadChunks(EmittedAll(Performed(calls).0)).ok
  {
    assert PieceByPiece([""])[0] == [Write("")];
    assert EmittedAll([Write("")]) == "";
  }
}
