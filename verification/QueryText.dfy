/** The query functions in the form of the source: index loops over strings. */
module QueryText {
  import opened Strings
  import opened Queries
  import opened Wrappers

  lemma {:induction false} EncodeAppend(s: string, c: char)
    requires IsBytes(s) && c as int < 256
    ensures IsBytes(s + [c]) && Encode(s + [c]) == Encode(s) + EncodeChar(c)
  {
    hide EncodeChar;
    if s == "" {
      assert s + [c] == [c] && [c][1..] == "";
    } else {
      assert (s + [c])[0] == s[0] && (s + [c])[1..] == s[1..] + [c];
      EncodeAppend(s[1..], c);
    }
  }

  method EncodeQueryParam(value: string) returns (escaped: string)
    requires IsBytes(value)
    ensures escaped == Encode(value)
  {
    escaped := "";
    for i := 0 to |value|
      invariant IsBytes(value[..i]) && escaped == Encode(value[..i])
    {
      assert value[..i + 1] == value[..i] + [value[i]];
      EncodeAppend(value[..i], value[i]);
      var c := value[i];
      if IsPlain(c) {
        escaped := escaped + [c];
      } else {
        escaped := escaped + ['%', UpperHex(c as nat / 16), UpperHex(c as nat % 16)];
      }
    }
    assert value[..|value|] == value;
  }

  /** `from_hex_to_i`: `count` digits from position `from`; reading ends at the NUL behind the string. */
  method FromHexToI(s: string, from: nat, count: nat) returns (ok: bool, val: nat)
    requires 0 < count <= 4 && from <= |s|
    ensures ok == FromHex(s[from..], count).Some?
    ensures ok ==> val == FromHex(s[from..], count).value
  {
    if from >= |s| { return false, 0; }
    ghost var t := s[from..];
    val := 0;
    var i, left: nat := from, count;
    while left > 0
      invariant left <= count && i == from + (count - left) <= |s|
      invariant left < count ==> FromHex(t, count - left) == Some(val)
      invariant left == count ==> val == 0
      decreases left
    {
      if i == |s| || s[i] == '\0' || !IsHex(s[i]) {
        NotHex(t, count - left + 1, count);
        return false, 0;
      }
      assert t[count - left] == s[i];
      val := val * 16 + HexValue(s[i]);
      i, left := i + 1, left - 1;
    }
    return true, val;
  }

  lemma {:induction false} NotHex(s: string, n: nat, m: nat)
    requires 0 < n <= m <= 4 && (|s| < n || !IsHex(s[n - 1]))
    ensures FromHex(s, m).None?
  {
    if n < m { NotHex(s, n, m - 1); }
  }

  /** The bytes for what stands at position i, and how far to go on. */
  method DecodeAt(s: string, i: nat, plusIsSpace: bool) returns (head: string, n: nat)
    requires i < |s|
    ensures (head, n) == DecodeHead(s[i..], plusIsSpace)
  {
    hide FromHex;
    ghost var t := s[i..];
    if s[i] == '%' && i + 1 < |s| {
      if s[i + 1] == 'u' {
        assert t[2..] == s[i + 2..];
        var ok, val := FromHexToI(s, i + 2, 4);
        if ok { return ToUtf8(val), 6; }
      } else {
        assert t[1..] == s[i + 1..];
        var ok, val := FromHexToI(s, i + 1, 2);
        if ok { return [val as char], 3; }
      }
      return "%", 1;
    } else if plusIsSpace && s[i] == '+' {
      return " ", 1;
    } else {
      return [s[i]], 1;
    }
  }

  method DecodeUrl(s: string, plusIsSpace: bool) returns (result: string)
    ensures result == Decode(s, plusIsSpace)
  {
    hide DecodeHead;
    result := "";
    var i := 0;
    while i < |s|
      invariant i <= |s| && result + Decode(s[i..], plusIsSpace) == Decode(s, plusIsSpace)
    {
      var head, n := DecodeAt(s, i, plusIsSpace);
      assert s[i..][n..] == s[i + n..];
      result := result + head;
      i := i + n;
    }
  }

  // ---------- trimming and splitting ----------

  /** `trim`: the limits moved inwards over blanks, the left one as far as the end of the whole text. */
  method TrimRange(s: string, left: nat, right: nat) returns (l: nat, r: nat)
    requires left <= right <= |s|
    ensures left <= l <= |s| && r <= right
    ensures l == |s| || !IsBlank(s[l])
    ensures r == 0 || !IsBlank(s[r - 1])
    ensures forall i :: left <= i < l ==> IsBlank(s[i])
    ensures forall i :: r <= i < right ==> IsBlank(s[i])
  {
    l, r := left, right;
    while l < |s| && IsBlank(s[l])
      invariant left <= l <= |s| && forall i :: left <= i < l ==> IsBlank(s[i])
    {
      l := l + 1;
    }
    while r > 0 && IsBlank(s[r - 1])
      invariant r <= right && forall i :: r <= i < right ==> IsBlank(s[i])
    {
      r := r - 1;
    }
  }

  lemma {:induction false} TrimLeftIs(s: string, l: nat)
    requires l <= |s| && (forall i :: 0 <= i < l ==> IsBlank(s[i])) && (l < |s| ==> !IsBlank(s[l]))
    ensures TrimLeft(s) == s[l..]
  {
    if l > 0 {
      TrimLeftIs(s[1..], l - 1);
    }
  }

  lemma {:induction false} TrimRightIs(s: string, r: nat)
    requires r <= |s| && (forall i :: r <= i < |s| ==> IsBlank(s[i])) && (r > 0 ==> !IsBlank(s[r - 1]))
    ensures TrimRight(s) == s[..r]
  {
    if r < |s| {
      assert s[..|s| - 1][..r] == s[..r];
      TrimRightIs(s[..|s| - 1], r);
    } else {
      assert s[..r] == s;
    }
  }

  /** The range is that of the trimmed piece, or empty when the piece is blank. */
  lemma RangeIsTrim(s: string, left: nat, right: nat, l: nat, r: nat)
    requires left <= right <= |s| && left <= l <= |s| && r <= right
    requires (l == |s| || !IsBlank(s[l])) && (r == 0 || !IsBlank(s[r - 1]))
    requires forall i :: left <= i < l ==> IsBlank(s[i])
    requires forall i :: r <= i < right ==> IsBlank(s[i])
    ensures Trim(s[left..right]) == if l < r then s[l..r] else ""
  {
    var piece := s[left..right];
    if l < r {
      TrimLeftIs(piece, l - left);
      var tail := piece[l - left..];
      assert tail == s[l..right];
      TrimRightIs(tail, r - l);
      assert tail[..r - l] == s[l..r];
    } else {
      forall i | 0 <= i < |piece| ensures IsBlank(piece[i]) {
        assert piece[i] == s[left + i];
      }
      TrimLeftIs(piece, |piece|);
    }
  }

  lemma {:induction false} CompactAppend(a: seq<string>, piece: string)
    ensures Compact(a + [piece]) == Compact(a) + if Trim(piece) == "" then [] else [Trim(piece)]
  {
    hide Trim;
    if a == [] {
      assert a + [piece] == [piece] && [piece][1..] == [];
    } else {
      assert (a + [piece])[0] == a[0] && (a + [piece])[1..] == a[1..] + [piece];
      CompactAppend(a[1..], piece);
    }
  }

  lemma PieceEnds(s: string, d: char, begin: nat, i: nat)
    requires begin <= i <= |s| && Lacks(s[begin..i], d) && (i < |s| ==> s[i] == d)
    ensures Cut(s[begin..], d) == [s[begin..i]] + if i < |s| then Cut(s[i + 1..], d) else []
  {
    if i < |s| {
      assert s[begin..] == s[begin..i] + ([d] + s[i + 1..]);
      CutFirst(s[begin..i], d, s[i + 1..]);
    } else {
      assert s[begin..] == s[begin..i];
      CutOne(s[begin..], d);
    }
  }

  /** Hands over a piece, trimmed, unless it is blank. */
  method TakePiece(s: string, begin: nat, i: nat, pieces: seq<string>, ghost done: seq<string>)
    returns (more: seq<string>)
    requires begin <= i <= |s| && pieces == Compact(done)
    ensures more == Compact(done + [s[begin..i]])
  {
    hide Compact, Trim;
    var l, r := TrimRange(s, begin, i);
    RangeIsTrim(s, begin, i, l, r);
    CompactAppend(done, s[begin..i]);
    more := if l < r then pieces + [s[l..r]] else pieces;
  }

  /** `split`; `pieces` are what the callback is given, in order. */
  method SplitText(s: string, d: char) returns (pieces: seq<string>)
    ensures pieces == Split(s, d)
  {
    hide Cut, Compact;
    pieces := [];
    var i, begin := 0, 0;
    ghost var done: seq<string> := [];
    assert Compact([]) == [] by { EmptySplits(); }
    while i < |s|
      invariant begin <= i <= |s| && pieces == Compact(done)
      invariant Lacks(s[begin..i], d)
      invariant done + Cut(s[begin..], d) == Cut(s, d)
    {
      if s[i] == d {
        pieces := TakePiece(s, begin, i, pieces, done);
        PieceEnds(s, d, begin, i);
        assert done + ([s[begin..i]] + Cut(s[i + 1..], d)) == done + [s[begin..i]] + Cut(s[i + 1..], d);
        done := done + [s[begin..i]];
        begin := i + 1;
      } else {
        assert s[begin..i + 1] == s[begin..i] + [s[i]];
      }
      i := i + 1;
    }
    PieceEnds(s, d, begin, i);
    assert done + ([s[begin..i]] + []) == done + [s[begin..i]];
    if i > 0 {
      pieces := TakePiece(s, begin, i, pieces, done);
    } else {
      assert s == "" && Split(s, d) == [] by { NothingToSplit(d); }
    }
  }

  lemma NothingToSplit(d: char)
    ensures Split("", d) == []
  {
    assert [""][1..] == [];
  }

  // ---------- printing and parsing ----------

  method ParamsToQueryStr(ps: seq<Param>) returns (query: string)
    requires BytesValues(ps)
    ensures query == Print(ps)
  {
    hide PrintParam;
    query := "";
    var i := 0;
    while i < |ps|
      invariant i <= |ps| && query == Print(ps[..i])
    {
      PrintAppend(ps[..i], ps[i]);
      assert ps[..i + 1] == ps[..i] + [ps[i]];
      if i != 0 { query := query + "&"; }
      var value := EncodeQueryParam(ps[i].1);
      PrintedIs(ps[i]);
      query := query + (ps[i].0 + "=" + value);
      i := i + 1;
    }
    assert ps[..i] == ps;
  }

  lemma {:induction false} PrintAppend(ps: seq<Param>, p: Param)
    requires BytesValues(ps) && IsBytes(p.1)
    ensures BytesValues(ps + [p])
    ensures Print(ps + [p]) == (if ps == [] then "" else Print(ps) + "&") + PrintParam(p)
  {
    hide PrintParam;
    if ps != [] {
      assert (ps + [p])[0] == ps[0] && (ps + [p])[1..] == ps[1..] + [p];
      PrintAppend(ps[1..], p);
      if |ps| == 1 {
        assert ps[1..] == [];
      } else {
        var (a, b, c) := (PrintParam(ps[0]), Print(ps[1..]), PrintParam(p));
        assert a + ("&" + (b + "&" + c)) == a + ("&" + b) + "&" + c;
      }
    }
  }

  lemma PrintedIs(p: Param)
    requires IsBytes(p.1)
    ensures PrintParam(p) == p.0 + "=" + Encode(p.1)
  {
  }

  /** The key and the value of one piece, as the inner callback leaves them. */
  method SplitKeyValue(kv: string) returns (key: string, val: string)
    ensures var parts := Split(kv, '=');
      if parts == [] then key == "" else key == parts[0] != "" && val == Last(parts)
  {
    var parts := SplitText(kv, '=');
    SplitNonEmpty(kv, '=');
    key, val := "", "";
    var i := 0;
    while i < |parts|
      invariant i <= |parts| && key == (if i == 0 then "" else parts[0])
      invariant val == if i <= 1 then "" else parts[i - 1]
    {
      if key == "" { key := parts[i]; } else { val := parts[i]; }
      i := i + 1;
    }
  }

  lemma SplitNonEmpty(s: string, d: char)
    ensures forall i :: 0 <= i < |Split(s, d)| ==> Split(s, d)[i] != ""
  {
    CompactNonEmpty(Cut(s, d));
  }

  lemma {:induction false} CompactNonEmpty(pieces: seq<string>)
    ensures forall i :: 0 <= i < |Compact(pieces)| ==> Compact(pieces)[i] != ""
  {
    if pieces != [] { CompactNonEmpty(pieces[1..]); }
  }

  /** A multimap insertion: the new entry goes up past the entries with greater keys. */
  method EmplaceParam(ps: seq<Param>, p: Param) returns (r: seq<Param>)
    ensures r == Emplace(ps, p)
  {
    var i: nat := |ps|;
    assert ps[..i] == ps && ps[i..] == [];
    while i > 0 && !AtMost(ps[i - 1].0, p.0)
      invariant i <= |ps| && Emplace(ps, p) == Emplace(ps[..i], p) + ps[i..]
    {
      assert ps[..i][..i - 1] == ps[..i - 1] && [ps[i - 1]] + ps[i..] == ps[i - 1..];
      i := i - 1;
    }
    r := ps[..i] + [p] + ps[i..];
  }

  method ParseQueryText(s: string) returns (params: seq<Param>)
    ensures params == Parse(s) && Sorted(params)
  {
    hide Split, Decode, Emplace;
    var pieces := SplitText(s, '&');
    params := [];
    var cache: set<string> := {};
    var i := 0;
    while i < |pieces|
      invariant i <= |pieces| && cache == (set kv | kv in pieces[..i]) && params == ReadParams(pieces[..i])
    {
      var kv := pieces[i];
      assert pieces[..i + 1][..i] == pieces[..i];
      assert pieces[..i + 1] == pieces[..i] + [kv];
      if kv !in cache {
        cache := cache + {kv};
        var key, val := SplitKeyValue(kv);
        if key != "" {
          key := DecodeUrl(key, true);
          val := DecodeUrl(val, true);
          params := EmplaceParam(params, (key, val));
        }
      }
      i := i + 1;
    }
    assert pieces[..i] == pieces;
    ReadParamsSorted(pieces);
  }
}
