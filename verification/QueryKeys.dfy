/**
 Exactly which parameter lists survive printing and parsing. The keys are printed as they are, so that every character
 of a key that separates, is trimmed or is decoded makes what is read back shorter than what was printed.
 */
module QueryKeys {
  import opened Strings
  import opened Queries
  import opened Wrappers

  // ---------- sizes ----------

  function SizeOf(p: Param): nat { |p.0| + |p.1| }

  function Size(ps: seq<Param>): nat {
    if ps == [] then 0 else Size(ps[..|ps| - 1]) + SizeOf(ps[|ps| - 1])
  }

  /** The size of what a piece is read as. */
  function ReadSize(piece: string): nat {
    match ReadParam(piece)
    case Some(p) => SizeOf(p)
    case None => 0
  }

  function ReadSizes(pieces: seq<string>): nat {
    if pieces == [] then 0 else ReadSize(pieces[0]) + ReadSizes(pieces[1..])
  }

  function Lengths(pieces: seq<string>): nat { if pieces == [] then 0 else |pieces[0]| + Lengths(pieces[1..]) }

  lemma {:induction false} ReadSizesConcat(a: seq<string>, b: seq<string>)
    ensures ReadSizes(a + b) == ReadSizes(a) + ReadSizes(b)
  {
    hide ReadSize;
    if a == [] {
      assert a + b == b;
    } else {
      assert (a + b)[0] == a[0] && (a + b)[1..] == a[1..] + b;
      ReadSizesConcat(a[1..], b);
    }
  }

  lemma {:induction false} EmplaceSize(ps: seq<Param>, p: Param)
    ensures Size(Emplace(ps, p)) == Size(ps) + SizeOf(p)
  {
    hide AtMost;
    if ps == [] {
      assert [p][..0] == [];
    } else {
      var (before, last) := (ps[..|ps| - 1], ps[|ps| - 1]);
      if AtMost(last.0, p.0) {
        assert (ps + [p])[..|ps|] == ps;
      } else {
        EmplaceSize(before, p);
        var r := Emplace(ps, p);
        assert r[..|r| - 1] == Emplace(before, p);
      }
    }
  }

  /** Nothing is read twice. */
  lemma {:induction false} ReadParamsSize(pieces: seq<string>)
    ensures Size(ReadParams(pieces)) <= ReadSizes(pieces)
  {
    hide ReadParam, Emplace;
    if pieces != [] {
      var (before, piece) := (pieces[..|pieces| - 1], pieces[|pieces| - 1]);
      ReadParamsSize(before);
      assert pieces == before + [piece];
      ReadSizesConcat(before, [piece]);
      assert [piece][1..] == [];
      if piece !in before && ReadParam(piece).Some? { EmplaceSize(ReadParams(before), ReadParam(piece).value); }
    }
  }

  // ---------- decoding, trimming and cutting only shorten ----------

  lemma HeadShortens(s: string)
    requires s != ""
    ensures var (head, n) := DecodeHead(s, true); |head| <= n && (|head| == n ==> n == 1)
  {
  }

  /** A text that is as long when decoded has nothing to decode but plus signs. */
  lemma {:induction false} DecodeShortens(s: string)
    ensures |Decode(s, true)| <= |s|
    ensures |Decode(s, true)| == |s| ==> NoEscape(s) && Lacks(Decode(s, true), '+')
    decreases |s|
  {
    hide NoEscape;
    if s == "" {
      assert NoEscape(s) by { NothingToEscape(); }
    } else {
      HeadShortens(s);
      var (head, n) := DecodeHead(s, true);
      DecodeShortens(s[n..]);
      if |head| == n {
        NoEscapeBehind(s);
        PlusIsDecoded(s);
      }
    }
  }

  lemma NothingToEscape()
    ensures NoEscape("")
  {
  }

  lemma PlusIsDecoded(s: string)
    requires s != "" && DecodeHead(s, true).1 == 1
    ensures Lacks(DecodeHead(s, true).0, '+')
  {
  }

  lemma TrimShortens(s: string)
    ensures |Trim(s)| <= |s| && (|Trim(s)| == |s| ==> Trim(s) == s && Trimmed(s))
  {
  }

  /** The pieces are together as long as the text without the delimiters and what is trimmed. */
  lemma {:induction false} CompactShortens(s: string, d: char)
    ensures Lengths(Compact(Cut(s, d))) <= Lengths(Cut(s, d)) <= |s|
    ensures !Lacks(s, d) ==> Lengths(Cut(s, d)) < |s|
  {
    hide Compact;
    LengthsOfCompact(Cut(s, d));
    LengthsOfCut(s, d);
  }

  lemma {:induction false} LengthsOfCompact(pieces: seq<string>)
    ensures Lengths(Compact(pieces)) <= Lengths(pieces)
  {
    hide Trim;
    if pieces != [] {
      var t := Trim(pieces[0]);
      TrimShortens(pieces[0]);
      LengthsOfCompact(pieces[1..]);
      if t == "" {
        assert Compact(pieces) == Compact(pieces[1..]);
      } else {
        assert Compact(pieces)[0] == t && Compact(pieces)[1..] == Compact(pieces[1..]);
      }
    }
  }

  /** What the first character does to the pieces. */
  lemma CutHead(s: string, d: char)
    requires s != ""
    ensures var rest := Cut(s[1..], d);
      Cut(s, d) == if s[0] == d then [""] + rest else [s[..1] + rest[0]] + rest[1..]
  {
  }

  lemma {:induction false} LengthsOfCut(s: string, d: char)
    ensures Lengths(Cut(s, d)) <= |s| && (!Lacks(s, d) ==> Lengths(Cut(s, d)) < |s|)
  {
    if s == "" {
      assert Cut(s, d)[1..] == [];
    } else {
      hide Cut;
      CutHead(s, d);
      LengthsOfCut(s[1..], d);
      var (all, rest) := (Cut(s, d), Cut(s[1..], d));
      if s[0] == d {
        assert all[0] == "" && all[1..] == rest;
      } else {
        assert all[1..] == rest[1..] && |all[0]| == 1 + |rest[0]|;
        assert s == s[..1] + s[1..];
        assert Lacks(s[1..], d) ==> Lacks(s, d);
      }
    }
  }

  lemma {:induction false} LastFits(parts: seq<string>)
    requires parts != []
    ensures |parts[0]| + |Last(parts)| <= Lengths(parts)
  {
    if |parts| > 1 { MemberFits(parts[1..], |parts| - 2); }
  }

  lemma {:induction false} MemberFits(parts: seq<string>, i: nat)
    requires i < |parts|
    ensures |parts[i]| <= Lengths(parts)
  {
    if i > 0 { MemberFits(parts[1..], i - 1); }
  }

  /** No piece is read as more than it is. */
  lemma PieceShortens(piece: string)
    ensures ReadSize(piece) <= |piece|
  {
    hide Cut, Compact, Decode;
    var parts := Split(piece, '=');
    CompactShortens(piece, '=');
    if parts != [] {
      LastFits(parts);
      DecodeShortens(parts[0]);
      DecodeShortens(Last(parts));
    }
  }

  // ---------- one printed entry ----------

  lemma {:induction false} CutConcat(a: string, d: char, b: string)
    ensures Cut(a + ([d] + b), d) == Cut(a, d) + Cut(b, d)
  {
    var s := a + ([d] + b);
    if a == "" {
      assert s[1..] == b;
    } else {
      hide Cut;
      CutConcat(a[1..], d, b);
      assert s[1..] == a[1..] + ([d] + b) && s[..1] == a[..1];
      CutHead(s, d);
      CutHead(a, d);
      JoinPieces(a[..1], Cut(a[1..], d), Cut(b, d));
    }
  }

  lemma JoinPieces(c: string, x: seq<string>, y: seq<string>)
    requires x != []
    ensures [""] + (x + y) == [""] + x + y
    ensures [c + (x + y)[0]] + (x + y)[1..] == [c + x[0]] + x[1..] + y
  {
  }

  lemma {:induction false} CompactConcat(a: seq<string>, b: seq<string>)
    ensures Compact(a + b) == Compact(a) + Compact(b)
  {
    hide Trim;
    if a == [] {
      assert a + b == b;
    } else {
      assert (a + b)[0] == a[0] && (a + b)[1..] == a[1..] + b;
      CompactConcat(a[1..], b);
    }
  }

  lemma CompactOne(piece: string)
    ensures Compact([piece]) == if Trim(piece) == "" then [] else [Trim(piece)]
  {
    hide Trim;
    assert [piece][1..] == [];
  }

  /** The parts of a printed entry: those of its key, and the value unless it is empty. */
  lemma PartsOfEntry(k: string, v: string)
    requires IsBytes(v)
    ensures Split(k + (['='] + Encode(v)), '=') == Compact(Cut(k, '=')) + if v == "" then [] else [Encode(v)]
  {
    hide Cut, Compact, Trim, Encode;
    var c := Encode(v);
    CutConcat(k, '=', c);
    CompactConcat(Cut(k, '='), Cut(c, '='));
    EncodedIsCoded(v);
    CodedHasNoMark(c);
    CutOne(c, '=');
    CompactOne(c);
    CodedIsTrimmed(c);
    TrimOfTrimmed(c);
    EncodedLength(v);
  }

  /** A printed key without `&`: what is read is no longer than the entry, and if as long, the key is good or empty. */
  lemma EntryShortens(k: string, v: string)
    requires IsBytes(v)
    ensures var piece := k + (['='] + Encode(v));
      && ReadSize(piece) <= |k| + |v|
      && (ReadSize(piece) == |k| + |v| ==>
            k == "" || (Lacks(k, '=') && Trimmed(k) && |Decode(k, true)| == |k|))
  {
    hide Cut, Compact, Trim, Encode, Decode, NoEscape;
    PartsOfEntry(k, v);
    CompactShortens(k, '=');
    DecodeUndoesEncode(v, true);
    EmptyDecodes();
    var keys := Compact(Cut(k, '='));
    if keys != [] {
      LastFits(keys);
      DecodeShortens(keys[0]);
      DecodeShortens(Last(keys));
      if Lacks(k, '=') {
        CutOne(k, '=');
        CompactOne(k);
        TrimShortens(k);
      }
    }
  }

  lemma {:induction false} TrimLeftOf(k: string, t: string)
    requires t != "" && !IsBlank(t[0])
    ensures TrimLeft(k + t) == TrimLeft(k) + t && |TrimLeft(k)| <= |k| && (|TrimLeft(k)| == |k| ==> TrimLeft(k) == k)
  {
    if k == "" {
      assert k + t == t;
    } else if IsBlank(k[0]) {
      assert (k + t)[1..] == k[1..] + t;
      TrimLeftOf(k[1..], t);
    }
  }

  /** Trimming a printed entry only takes blanks before its key. */
  lemma TrimEntry(k: string, v: string)
    requires IsBytes(v)
    ensures var t := ['='] + Encode(v);
      Trim(k + t) == TrimLeft(k) + t && |TrimLeft(k)| <= |k| && (|TrimLeft(k)| == |k| ==> TrimLeft(k) == k)
  {
    var t := ['='] + Encode(v);
    TrimLeftOf(k, t);
    EncodedIsCoded(v);
    var s := TrimLeft(k) + t;
    assert s[|s| - 1] == t[|t| - 1];
    assert |t| > 1 ==> t[|t| - 1] == Encode(v)[|t| - 2];
    assert !IsBlank(s[|s| - 1]);
  }

  lemma {:induction false} FirstMark(s: string, d: char) returns (i: nat)
    requires !Lacks(s, d)
    ensures i < |s| && s[i] == d && Lacks(s[..i], d)
  {
    if s[0] == d { return 0; }
    assert Lacks(s[1..], d) ==> Lacks(s, d) by { assert s == s[..1] + s[1..]; }
    i := FirstMark(s[1..], d);
    i := i + 1;
    assert s[..i] == s[..1] + s[1..][..i - 1];
  }

  /** What is read from the pieces of a text, between ampersands. */
  function TextSize(s: string): nat { ReadSizes(Split(s, '&')) }

  lemma FirstPiece(a: string, rest: string)
    requires Lacks(a, '&')
    ensures TextSize(a + (['&'] + rest)) == ReadSizes(Compact([a])) + TextSize(rest)
    ensures ReadSizes(Compact([a])) <= |a|
  {
    hide Cut, Compact, Trim, ReadSize;
    CutConcat(a, '&', rest);
    CutOne(a, '&');
    CompactConcat([a], Cut(rest, '&'));
    ReadSizesConcat(Compact([a]), Compact(Cut(rest, '&')));
    CompactOne(a);
    TrimShortens(a);
    PieceShortens(Trim(a));
    OneSize(Trim(a));
  }

  lemma OneSize(piece: string)
    ensures ReadSizes([piece]) == ReadSize(piece) && ReadSizes([]) == 0
  {
    hide ReadSize;
    assert [piece][1..] == [];
  }

  predicate KeptKey(k: string) {
    Lacks(k, '&') && (k == "" || (Lacks(k, '=') && Trimmed(k) && |Decode(k, true)| == |k|))
  }

  lemma LastEntry(k: string, v: string)
    requires IsBytes(v) && Lacks(k, '&')
    ensures var size := TextSize(k + (['='] + Encode(v)));
      size <= |k| + |v| && (size == |k| + |v| ==> KeptKey(k))
  {
    hide Cut, Compact, Trim, TrimLeft, ReadSize, Encode, Decode;
    var e := k + (['='] + Encode(v));
    EncodedIsCoded(v);
    CodedHasNoMark(Encode(v));
    CutOne(e, '&');
    CompactOne(e);
    OneSize(Trim(e));
    TrimEntry(k, v);
    EntryShortens(TrimLeft(k), v);
  }

  /** One printed entry, whatever its key, is read as no more than it is. */
  lemma {:induction false} EntrySize(k: string, v: string)
    requires IsBytes(v)
    ensures var size := TextSize(k + (['='] + Encode(v)));
      size <= |k| + |v| && (size == |k| + |v| ==> KeptKey(k))
    decreases |k|
  {
    if Lacks(k, '&') {
      LastEntry(k, v);
    } else {
      hide TextSize, KeptKey, Encode;
      var i := FirstMark(k, '&');
      var (a, rest, t) := (k[..i], k[i + 1..], ['='] + Encode(v));
      assert k + t == a + (['&'] + (rest + t));
      FirstPiece(a, rest + t);
      EntrySize(rest, v);
    }
  }

  /** An entry in front of others. */
  lemma {:induction false} EntryBefore(k: string, v: string, rest: string)
    requires IsBytes(v)
    ensures TextSize(k + (['='] + Encode(v)) + (['&'] + rest)) == TextSize(k + (['='] + Encode(v))) + TextSize(rest)
  {
    hide Cut, Compact, Encode, ReadSizes;
    var e := k + (['='] + Encode(v));
    CutConcat(e, '&', rest);
    CompactConcat(Cut(e, '&'), Cut(rest, '&'));
    ReadSizesConcat(Compact(Cut(e, '&')), Compact(Cut(rest, '&')));
  }

  lemma {:induction false} SizeFront(p: Param, ps: seq<Param>)
    ensures Size([p] + ps) == SizeOf(p) + Size(ps)
  {
    if ps == [] {
      assert [p] + ps == [p] && [p][..0] == [];
    } else {
      var all := [p] + ps;
      assert all[..|all| - 1] == [p] + ps[..|ps| - 1] && all[|all| - 1] == ps[|ps| - 1];
      SizeFront(p, ps[..|ps| - 1]);
    }
  }

  /** A printed list is read as no more than it is; if as much, its keys were kept. */
  lemma {:induction false} PrintedSize(ps: seq<Param>)
    requires BytesValues(ps)
    ensures TextSize(Print(ps)) <= Size(ps)
    ensures TextSize(Print(ps)) == Size(ps) ==> forall i :: 0 <= i < |ps| ==> KeptKey(ps[i].0)
  {
    hide TextSize, KeptKey, Encode;
    if ps == [] {
      assert TextSize("") == 0 by { NoText(); }
    } else {
      var (p, rest) := (ps[0], ps[1..]);
      assert ps == [p] + rest;
      SizeFront(p, rest);
      EntrySize(p.0, p.1);
      assert ['='] == "=" && ['&'] == "&";
      var e := p.0 + (['='] + Encode(p.1));
      assert PrintParam(p) == e;
      if rest == [] {
        assert Print(ps) == e;
      } else {
        PrintedSize(rest);
        EntryBefore(p.0, p.1, Print(rest));
      }
    }
  }

  lemma NoText()
    ensures TextSize("") == 0
  {
    EmptySplits();
  }

  // ---------- the round trip ----------

  /** What an entry with a kept key is read as. */
  lemma ReadKept(p: Param)
    requires IsBytes(p.1) && KeptKey(p.0)
    ensures match ReadParam(PrintParam(p))
      case None => true
      case Some(q) => q.0 != "" && (p.0 != "" ==> Lacks(q.0, '+'))
  {
    hide Cut, Compact, Trim, Encode, Decode;
    var (k, v) := p;
    assert ['='] == "=" && PrintParam(p) == k + (['='] + Encode(v));
    PartsOfEntry(k, v);
    CutLone(k, '=');
    CompactOne(k);
    if k != "" {
      TrimOfTrimmed(k);
      DecodeShortens(k);
    } else {
      assert Trim("") == "" by { TrimOfTrimmed(""); }
      DecodeUndoesEncode(v, true);
    }
  }

  lemma CutLone(k: string, d: char)
    ensures Lacks(k, d) ==> Cut(k, d) == [k]
  {
    if Lacks(k, d) { CutOne(k, d); }
  }

  /** Every parameter read comes from a piece. */
  lemma {:induction false} ParamsComeFromPieces(pieces: seq<string>, q: Param)
    requires q in ReadParams(pieces)
    ensures exists i :: 0 <= i < |pieces| && ReadParam(pieces[i]) == Some(q)
  {
    hide ReadParam, Emplace;
    var (before, piece) := (pieces[..|pieces| - 1], pieces[|pieces| - 1]);
    ReadParamsSorted(before);
    if piece !in before && ReadParam(piece).Some? { EmplaceKeepsSorted(ReadParams(before), ReadParam(piece).value); }
    if q in ReadParams(before) {
      ParamsComeFromPieces(before, q);
      var i :| 0 <= i < |before| && ReadParam(before[i]) == Some(q);
      assert ReadParam(pieces[i]) == Some(q);
    } else {
      assert ReadParam(pieces[|pieces| - 1]) == Some(q);
    }
  }

  /** In a list that comes back no key is empty, and none has a plus sign. */
  lemma ReturnedKeys(ps: seq<Param>, i: nat)
    requires BytesValues(ps) && Parse(Print(ps)) == ps && i < |ps|
    requires forall j :: 0 <= j < |ps| ==> KeptKey(ps[j].0)
    ensures ps[i].0 != "" && ((forall j :: 0 <= j < |ps| ==> ps[j].0 != "") ==> Lacks(ps[i].0, '+'))
  {
    hide ReadParam, PrintParam, Split, Decode, ReadParams, Print, Trimmed;
    assert forall j :: 0 <= j < |ps| ==> Trimmed(ps[j].0) by { EmptyIsTrimmed(); }
    SplitPrinted(ps);
    assert ps[i] in ReadParams(PrintAll(ps));
    ParamsComeFromPieces(PrintAll(ps), ps[i]);
    var j :| 0 <= j < |ps| && ReadParam(PrintAll(ps)[j]) == Some(ps[i]);
    ReadKept(ps[j]);
  }

  lemma EmptyIsTrimmed()
    ensures Trimmed("")
  {
  }

  /**
   A parameter list survives printing and parsing if and only if no entry occurs twice and every key is not empty, has
   no separator and no plus sign, no blank at its ends, and nothing that is decoded.
   */
  lemma RoundTripIffGoodAndDistinct(ps: seq<Param>)
    requires Sorted(ps) && BytesValues(ps)
    ensures Parse(Print(ps)) == ps <==> (forall i :: 0 <= i < |ps| ==> GoodKey(ps[i].0)) && NoRepeats(ps)
  {
    hide Sorted, Parse, Print, NoRepeats, KeptKey, GoodKey;
    if forall i :: 0 <= i < |ps| ==> GoodKey(ps[i].0) {
      GoodRoundTrip(ps);
    } else if Parse(Print(ps)) == ps {
      AllKept(ps);
      forall i | 0 <= i < |ps| ensures GoodKey(ps[i].0) { KeptIsGood(ps, i); }
    }
  }

  lemma AllKept(ps: seq<Param>)
    requires BytesValues(ps) && Parse(Print(ps)) == ps
    ensures forall i :: 0 <= i < |ps| ==> KeptKey(ps[i].0)
  {
    hide Split, Print, KeptKey, ReadParams;
    PrintedSize(ps);
    ReadParamsSize(Split(Print(ps), '&'));
  }

  lemma KeptIsGood(ps: seq<Param>, i: nat)
    requires BytesValues(ps) && Parse(Print(ps)) == ps && i < |ps|
    requires forall j :: 0 <= j < |ps| ==> KeptKey(ps[j].0)
    ensures GoodKey(ps[i].0)
  {
    hide Parse, Print, KeptKey, NoEscape;
    forall j | 0 <= j < |ps| ensures ps[j].0 != "" { ReturnedKeys(ps, j); }
    ReturnedKeys(ps, i);
    KeptMeans(ps[i].0);
  }

  lemma KeptMeans(k: string)
    requires KeptKey(k) && k != ""
    ensures Lacks(k, '&') && Lacks(k, '=') && Trimmed(k) && NoEscape(k)
  {
    hide NoEscape;
    DecodeShortens(k);
  }
}
