/** Query strings: percent coding, splitting, and what parsing makes of a printed parameter list. */
module Queries {
  import opened Strings
  import opened Wrappers

  // ---------- percent coding ----------

  /** The bytes of a `std::string`. */
  ghost predicate IsBytes(s: string) { forall i :: 0 <= i < |s| ==> s[i] as int < 256 }

  predicate IsPlain(c: char) {
    'a' <= c <= 'z' || 'A' <= c <= 'Z' || '0' <= c <= '9' || c in "-_.!~*'()"
  }

  function UpperHex(d: nat): char
    requires d < 16
  {
    if d < 10 then '0' + d as char else 'A' + (d - 10) as char
  }

  /** `from_hex_to_i` on the first `n` characters. */
  function FromHex(s: string, n: nat): (v: Option<nat>)
    requires 0 < n <= 4
    ensures v.Some? ==> |s| >= n && v.value < [1, 0x10, 0x100, 0x1000, 0x1_0000][n]
  {
    if |s| < n || !IsHex(s[n - 1]) then None
    else if n == 1 then Some(HexValue(s[0]))
    else
      match FromHex(s, n - 1)
      case Some(high) => Some(16 * high + HexValue(s[n - 1]))
      case None => None
  }

  function EncodeChar(c: char): string
    requires c as int < 256
  {
    if IsPlain(c) then [c] else ['%', UpperHex(c as nat / 16), UpperHex(c as nat % 16)]
  }

  function Encode(s: string): string
    requires IsBytes(s)
  {
    if s == "" then "" else EncodeChar(s[0]) + Encode(s[1..])
  }

  /** The bytes of a code below 0x10000 in UTF-8, none for a surrogate. */
  function ToUtf8(code: nat): string
    requires code < 0x10000
  {
    if code < 0x80 then [code as char]
    else if code < 0x800 then [(0xC0 + code / 0x40) as char, (0x80 + code % 0x40) as char]
    else if 0xD800 <= code < 0xE000 then ""
    else [(0xE0 + code / 0x1000) as char, (0x80 + code / 0x40 % 0x40) as char, (0x80 + code % 0x40) as char]
  }

  /** The first decoded bytes, and how many characters they stand for. */
  function DecodeHead(s: string, plusIsSpace: bool): (r: (string, nat))
    requires s != ""
    ensures 0 < r.1 <= |s|
  {
    if s[0] == '%' && |s| > 1 then
      if s[1] == 'u' then
        if FromHex(s[2..], 4).Some? then (ToUtf8(FromHex(s[2..], 4).value), 6) else ("%", 1)
      else if FromHex(s[1..], 2).Some? then ([FromHex(s[1..], 2).value as char], 3) else ("%", 1)
    else if plusIsSpace && s[0] == '+' then (" ", 1)
    else ([s[0]], 1)
  }

  function Decode(s: string, plusIsSpace: bool): string
    decreases |s|
  {
    if s == "" then "" else
      var (head, n) := DecodeHead(s, plusIsSpace);
      head + Decode(s[n..], plusIsSpace)
  }

  lemma HeadOfEncoded(c: char, rest: string, plusIsSpace: bool)
    requires c as int < 256
    ensures DecodeHead(EncodeChar(c) + rest, plusIsSpace) == ([c], |EncodeChar(c)|)
  {
    var s := EncodeChar(c) + rest;
    if !IsPlain(c) {
      var (hi, lo) := (UpperHex(c as nat / 16), UpperHex(c as nat % 16));
      assert s[1..][0] == hi && s[1..][1] == lo;
      assert IsHex(hi) && HexValue(hi) == c as nat / 16 && IsHex(lo) && HexValue(lo) == c as nat % 16;
      assert FromHex(s[1..], 1) == Some(HexValue(hi));
      assert FromHex(s[1..], 2) == Some(c as nat);
    }
  }

  /** Decoding gives back every byte string that was encoded. */
  lemma {:induction false} DecodeUndoesEncode(s: string, plusIsSpace: bool)
    requires IsBytes(s)
    ensures Decode(Encode(s), plusIsSpace) == s
  {
    hide EncodeChar, DecodeHead;
    if s != "" {
      DecodeUndoesEncode(s[1..], plusIsSpace);
      HeadOfEncoded(s[0], Encode(s[1..]), plusIsSpace);
      assert Encode(s)[|EncodeChar(s[0])|..] == Encode(s[1..]);
    }
  }

  /** What an encoded text is made of. */
  predicate IsCoded(c: char) { IsPlain(c) || c == '%' }

  predicate AllCoded(s: string) { forall i :: 0 <= i < |s| ==> IsCoded(s[i]) }

  lemma {:induction false} EncodedIsCoded(s: string)
    requires IsBytes(s)
    ensures AllCoded(Encode(s))
  {
    if s != "" { EncodedIsCoded(s[1..]); }
  }

  // ---------- splitting ----------

  predicate Lacks(s: string, d: char) { forall i :: 0 <= i < |s| ==> s[i] != d }

  /** The pieces between delimiters. */
  function Cut(s: string, d: char): (pieces: seq<string>)
    ensures pieces != []
  {
    if s == "" then [""]
    else if s[0] == d then [""] + Cut(s[1..], d)
    else
      var rest := Cut(s[1..], d);
      [s[..1] + rest[0]] + rest[1..]
  }

  function Compact(pieces: seq<string>): seq<string> {
    if pieces == [] then []
    else (if Trim(pieces[0]) == "" then [] else [Trim(pieces[0])]) + Compact(pieces[1..])
  }

  /** `split`: the pieces, trimmed, without the empty ones. */
  function Split(s: string, d: char): seq<string> { Compact(Cut(s, d)) }

  lemma {:induction false} CutOne(s: string, d: char)
    requires Lacks(s, d)
    ensures Cut(s, d) == [s]
  {
    if s != "" {
      CutOne(s[1..], d);
      assert s[..1] + s[1..] == s;
    }
  }

  lemma {:induction false} CutFirst(a: string, d: char, rest: string)
    requires Lacks(a, d)
    ensures Cut(a + ([d] + rest), d) == [a] + Cut(rest, d)
  {
    var s := a + ([d] + rest);
    if a == "" {
      assert s[1..] == rest;
    } else {
      CutFirst(a[1..], d, rest);
      assert s[1..] == a[1..] + ([d] + rest);
      assert s[..1] + a[1..] == a;
    }
  }

  lemma TrimOfTrimmed(s: string)
    requires Trimmed(s)
    ensures Trim(s) == s
  {
  }

  // ---------- parameter lists ----------

  type Param = (string, string)

  /** The order of `std::string`. */
  predicate AtMost(a: string, b: string) {
    a == "" || (b != "" && (a[0] < b[0] || (a[0] == b[0] && AtMost(a[1..], b[1..]))))
  }

  lemma {:induction false} AtMostTotal(a: string, b: string)
    ensures AtMost(a, b) || AtMost(b, a)
  {
    if a != "" && b != "" { AtMostTotal(a[1..], b[1..]); }
  }

  lemma {:induction false} AtMostTransitive(a: string, b: string, c: string)
    requires AtMost(a, b) && AtMost(b, c)
    ensures AtMost(a, c)
  {
    if a != "" && a[0] == b[0] && b[0] == c[0] { AtMostTransitive(a[1..], b[1..], c[1..]); }
  }

  /** A `std::multimap` from first to last entry. */
  ghost predicate Sorted(ps: seq<Param>) { forall i, j :: 0 <= i < j < |ps| ==> AtMost(ps[i].0, ps[j].0) }

  /** `emplace`: behind all entries whose keys are at most that of the new one. */
  function Emplace(ps: seq<Param>, p: Param): seq<Param> {
    if ps == [] then [p]
    else if AtMost(ps[|ps| - 1].0, p.0) then ps + [p]
    else Emplace(ps[..|ps| - 1], p) + [ps[|ps| - 1]]
  }

  lemma {:induction false} EmplaceKeepsSorted(ps: seq<Param>, p: Param)
    requires Sorted(ps)
    ensures Sorted(Emplace(ps, p))
    ensures forall q :: q in Emplace(ps, p) <==> q == p || q in ps
  {
    if ps != [] {
      var last := ps[|ps| - 1];
      assert ps == ps[..|ps| - 1] + [last];
      if AtMost(last.0, p.0) {
        forall i | 0 <= i < |ps| ensures AtMost(ps[i].0, p.0) {
          if i < |ps| - 1 { AtMostTransitive(ps[i].0, last.0, p.0); }
        }
      } else {
        EmplaceKeepsSorted(ps[..|ps| - 1], p);
        AtMostTotal(last.0, p.0);
        forall q | q in Emplace(ps[..|ps| - 1], p) ensures AtMost(q.0, last.0) {}
      }
    }
  }

  function PrintParam(p: Param): string
    requires IsBytes(p.1)
  {
    p.0 + "=" + Encode(p.1)
  }

  ghost predicate BytesValues(ps: seq<Param>) { forall i :: 0 <= i < |ps| ==> IsBytes(ps[i].1) }

  /** `params_to_query_str`: the keys are not encoded. */
  function Print(ps: seq<Param>): string
    requires BytesValues(ps)
  {
    if ps == [] then ""
    else if |ps| == 1 then PrintParam(ps[0])
    else PrintParam(ps[0]) + ("&" + Print(ps[1..]))
  }

  function Last(parts: seq<string>): string { if |parts| > 1 then parts[|parts| - 1] else "" }

  /** One piece of a query: its key and value, None when there is no key. */
  function ReadParam(piece: string): Option<Param> {
    var parts := Split(piece, '=');
    if parts == [] then None else Some((Decode(parts[0], true), Decode(Last(parts), true)))
  }

  /** The parameters from the pieces; a piece that came before is skipped. */
  function ReadParams(pieces: seq<string>): seq<Param> {
    if pieces == [] then [] else
      var (before, piece) := (pieces[..|pieces| - 1], pieces[|pieces| - 1]);
      if piece in before then ReadParams(before)
      else match ReadParam(piece)
        case Some(p) => Emplace(ReadParams(before), p)
        case None => ReadParams(before)
  }

  /** `parse_query_text`, into an empty list. */
  function Parse(s: string): seq<Param> { ReadParams(Split(s, '&')) }

  /** Whatever is parsed, the result is a multimap. */
  lemma {:induction false} ReadParamsSorted(pieces: seq<string>)
    ensures Sorted(ReadParams(pieces))
  {
    if pieces != [] {
      var (before, piece) := (pieces[..|pieces| - 1], pieces[|pieces| - 1]);
      ReadParamsSorted(before);
      if piece !in before && ReadParam(piece).Some? {
        EmplaceKeepsSorted(ReadParams(before), ReadParam(piece).value);
      }
    }
  }

  // ---------- the round trip ----------

  /** No percent sign begins something that is decoded. */
  predicate NoEscape(s: string) { forall i :: 0 <= i < |s| && s[i] == '%' ==> DecodeHead(s[i..], true).1 == 1 }

  /** A key that survives without being encoded. */
  ghost predicate GoodKey(k: string) {
    k != "" && Trimmed(k) && Lacks(k, '&') && Lacks(k, '=') && Lacks(k, '+') && NoEscape(k)
  }

  ghost predicate GoodParam(p: Param) { GoodKey(p.0) && IsBytes(p.1) }

  ghost predicate GoodParams(ps: seq<Param>) { forall i :: 0 <= i < |ps| ==> GoodParam(ps[i]) }

  lemma {:induction false} DecodeKey(k: string)
    requires Lacks(k, '+') && NoEscape(k)
    ensures Decode(k, true) == k
  {
    if k != "" {
      NoEscapeBehind(k);
      DecodeKey(k[1..]);
      assert k[0..] == k;
    }
  }

  lemma NoEscapeBehind(k: string)
    requires k != ""
    ensures NoEscape(k) <==> NoEscape(k[1..]) && (k[0] == '%' ==> DecodeHead(k, true).1 == 1)
  {
    assert forall i :: 0 <= i < |k| - 1 ==> k[1..][i] == k[i + 1] && k[1..][i..] == k[i + 1..];
    assert k[0..] == k;
    if NoEscape(k[1..]) && (k[0] == '%' ==> DecodeHead(k, true).1 == 1) {
      forall i | 0 <= i < |k| && k[i] == '%' ensures DecodeHead(k[i..], true).1 == 1 {
        if i > 0 { assert k[1..][i - 1] == '%' && k[1..][i - 1..] == k[i..]; }
      }
    }
  }

  lemma {:induction false} CodedIsTrimmed(s: string)
    requires AllCoded(s)
    ensures Trimmed(s)
  {
  }

  lemma SplitParam(p: Param)
    requires GoodParam(p)
    ensures Split(PrintParam(p), '=') == if p.1 == "" then [p.0] else [p.0, Encode(p.1)]
  {
    hide Trim, Trimmed, IsCoded, AllCoded;
    var (k, v) := (p.0, Encode(p.1));
    EncodedIsCoded(p.1);
    assert Lacks(v, '=') by { CodedHasNoMark(v); }
    CutOne(v, '=');
    CutFirst(k, '=', v);
    assert PrintParam(p) == k + (['='] + v);
    assert Cut(PrintParam(p), '=') == [k, v];
    TrimOfTrimmed(k);
    CodedIsTrimmed(v);
    TrimOfTrimmed(v);
    assert v == "" <==> p.1 == "" by { EncodedLength(p.1); }
    assert [k, v][1..] == [v] && [v][1..] == [];
    assert Compact([v]) == if v == "" then [] else [v];
  }

  lemma EncodedLength(s: string)
    requires IsBytes(s)
    ensures Encode(s) == "" <==> s == ""
  {
  }

  lemma CodedHasNoMark(s: string)
    requires AllCoded(s)
    ensures Lacks(s, '=') && Lacks(s, '&')
  {
  }

  lemma ReadPrintedParam(p: Param)
    requires GoodParam(p)
    ensures ReadParam(PrintParam(p)) == Some(p)
  {
    hide Split, Decode, Encode, PrintParam;
    SplitParam(p);
    DecodeKey(p.0);
    DecodeUndoesEncode(p.1, true);
    EmptyDecodes();
  }

  lemma EmptyDecodes()
    ensures Decode("", true) == ""
  {
  }

  ghost function PrintAll(ps: seq<Param>): seq<string>
    requires BytesValues(ps)
  {
    seq(|ps|, i requires 0 <= i < |ps| => PrintParam(ps[i]))
  }

  /** Keys that leave an entry one piece. */
  ghost predicate OnePieces(ps: seq<Param>) {
    forall i :: 0 <= i < |ps| ==> Lacks(ps[i].0, '&') && Trimmed(ps[i].0)
  }

  lemma PrintedParamIsPiece(p: Param)
    requires IsBytes(p.1) && Lacks(p.0, '&') && Trimmed(p.0)
    ensures Lacks(PrintParam(p), '&') && PrintParam(p) != "" && Trimmed(PrintParam(p))
  {
    EncodedIsCoded(p.1);
    CodedHasNoMark(Encode(p.1));
    CodedIsTrimmed(Encode(p.1));
    var s := PrintParam(p);
    assert s[0] == if p.0 == "" then '=' else p.0[0];
    if Encode(p.1) == "" { assert s[|s| - 1] == '='; } else { assert s[|s| - 1] == Encode(p.1)[|Encode(p.1)| - 1]; }
  }

  lemma CompactCons(s: string, rest: seq<string>)
    requires s != "" && Trimmed(s)
    ensures Compact([s] + rest) == [s] + Compact(rest)
  {
    TrimOfTrimmed(s);
    assert ([s] + rest)[1..] == rest;
  }

  lemma {:induction false} SplitPrinted(ps: seq<Param>)
    requires OnePieces(ps) && BytesValues(ps)
    ensures Split(Print(ps), '&') == PrintAll(ps)
  {
    hide PrintParam, Trim, Trimmed, Compact, Cut;
    EmptySplits();
    if ps != [] {
      var s := PrintParam(ps[0]);
      PrintedParamIsPiece(ps[0]);
      SplitPrinted(ps[1..]);
      if |ps| == 1 {
        CutOne(s, '&');
        CompactCons(s, []);
        assert [s] + [] == [s];
      } else {
        CutFirst(s, '&', Print(ps[1..]));
        assert Print(ps) == s + (['&'] + Print(ps[1..]));
        CompactCons(s, Cut(Print(ps[1..]), '&'));
      }
      assert PrintAll(ps) == [s] + PrintAll(ps[1..]);
    }
  }

  lemma EmptySplits()
    ensures Split("", '&') == [] && Compact([]) == []
  {
    assert [""][1..] == [];
  }

  /** The entries without those that came before. */
  function Dedup(ps: seq<Param>): (r: seq<Param>)
    ensures forall p :: p in r <==> p in ps
    ensures |r| <= |ps|
  {
    if ps == [] then [] else
      var (before, last) := (ps[..|ps| - 1], ps[|ps| - 1]);
      assert ps == before + [last];
      if last in before then Dedup(before) else Dedup(before) + [last]
  }

  lemma PrintedApart(ps: seq<Param>, i: nat, p: Param)
    requires GoodParams(ps) && BytesValues(ps) && GoodParam(p) && i < |ps|
    ensures PrintAll(ps)[i] == PrintParam(p) <==> ps[i] == p
  {
    hide PrintParam, ReadParam;
    assert GoodParam(ps[i]);
    ReadPrintedParam(ps[i]);
    ReadPrintedParam(p);
  }

  lemma {:induction false} ReadPrinted(ps: seq<Param>)
    requires Sorted(ps) && GoodParams(ps) && BytesValues(ps)
    ensures ReadParams(PrintAll(ps)) == Dedup(ps)
  {
    hide PrintParam, ReadParam, GoodParam;
    if ps != [] {
      var (before, last) := (ps[..|ps| - 1], ps[|ps| - 1]);
      assert PrintAll(ps)[..|ps| - 1] == PrintAll(before);
      ReadPrinted(before);
      forall i | 0 <= i < |before| ensures PrintAll(before)[i] == PrintParam(last) <==> before[i] == last {
        PrintedApart(before, i, last);
      }
      assert PrintParam(last) in PrintAll(before) <==> last in before;
      ReadPrintedParam(last);
      AppendsLast(before, last);
    }
  }

  lemma AppendsLast(before: seq<Param>, last: Param)
    requires Sorted(before + [last])
    ensures Emplace(Dedup(before), last) == Dedup(before) + [last]
  {
    var d := Dedup(before);
    if d != [] {
      assert d[|d| - 1] in d;
      var i :| 0 <= i < |before| && before[i] == d[|d| - 1];
      assert AtMost((before + [last])[i].0, (before + [last])[|before|].0);
    }
  }

  lemma GoodValues(ps: seq<Param>)
    requires GoodParams(ps)
    ensures BytesValues(ps)
  {
    forall i | 0 <= i < |ps| ensures IsBytes(ps[i].1) { assert GoodParam(ps[i]); }
  }

  /** Parsing a printed list gives its entries in order, each the first time that it occurs. */
  lemma ParsePrinted(ps: seq<Param>)
    requires Sorted(ps) && GoodParams(ps)
    ensures BytesValues(ps) && Parse(Print(ps)) == Dedup(ps)
  {
    GoodValues(ps);
    forall i | 0 <= i < |ps| ensures Lacks(ps[i].0, '&') && Trimmed(ps[i].0) { assert GoodParam(ps[i]); }
    SplitPrinted(ps);
    ReadPrinted(ps);
  }

  ghost predicate NoRepeats(ps: seq<Param>) { forall i, j :: 0 <= i < j < |ps| ==> ps[i] != ps[j] }

  lemma {:induction false} DedupOfDistinct(ps: seq<Param>)
    ensures Dedup(ps) == ps <==> NoRepeats(ps)
    ensures !NoRepeats(ps) ==> |Dedup(ps)| < |ps|
  {
    if ps != [] {
      var (before, last) := (ps[..|ps| - 1], ps[|ps| - 1]);
      assert ps == before + [last];
      DedupOfDistinct(before);
      assert NoRepeats(ps) <==> NoRepeats(before) && last !in before;
    }
  }

  /** A parameter list with good keys survives if and only if no entry occurs twice. */
  lemma GoodRoundTrip(ps: seq<Param>)
    requires Sorted(ps) && GoodParams(ps)
    ensures BytesValues(ps) && (Parse(Print(ps)) == ps <==> NoRepeats(ps))
  {
    ParsePrinted(ps);
    DedupOfDistinct(ps);
  }
}
