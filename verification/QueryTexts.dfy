/** What query strings mean, text by text: what is decoded, what is encoded, and which parameters a text has. */
module QueryTexts {
  import opened Strings
  import opened Queries
  import opened QueryKeys
  import opened Wrappers

  const SMALL_HEX := "0123456789abcdef"
  const CAPITAL_HEX := "0123456789ABCDEF"

  /** `c` is a hexadecimal digit, small or capital, with value `v`. */
  predicate Hex(c: char, v: nat) { v < 16 && (c == SMALL_HEX[v] || c == CAPITAL_HEX[v]) }

  lemma HexInFull(c: char, v: nat)
    ensures Hex(c, v) <==> IsHex(c) && HexValue(c) == v
  {
  }

  // ---------- decoding ----------

  lemma PlusIsBlank(rest: string)
    ensures Decode("+" + rest, true) == " " + Decode(rest, true)
    ensures Decode("+" + rest, false) == "+" + Decode(rest, false)
  {
    assert ("+" + rest)[1..] == rest;
  }

  lemma OthersAreKept(c: char, rest: string, plusIsSpace: bool)
    requires c != '%' && c != '+'
    ensures Decode([c] + rest, plusIsSpace) == [c] + Decode(rest, plusIsSpace)
  {
    assert ([c] + rest)[1..] == rest;
  }

  lemma FromHexTwo(s: string, a: nat, b: nat)
    requires |s| >= 2 && Hex(s[0], a) && Hex(s[1], b)
    ensures FromHex(s, 2) == Some(16 * a + b)
  {
    hide Hex;
    HexInFull(s[0], a);
    HexInFull(s[1], b);
    assert FromHex(s, 1) == Some(a);
  }

  /** A percent sign and two digits are the byte with that value. */
  lemma CodeIsByte(h: char, l: char, a: nat, b: nat, rest: string, plusIsSpace: bool)
    requires Hex(h, a) && Hex(l, b)
    ensures Decode(['%', h, l] + rest, plusIsSpace) == [(16 * a + b) as char] + Decode(rest, plusIsSpace)
  {
    hide FromHex;
    var s := ['%', h, l] + rest;
    assert s[1..] == [h, l] + rest && s[3..] == rest && s[1] != 'u';
    FromHexTwo(s[1..], a, b);
  }

  /** The bytes of a code in UTF-8 (section 3 of RFC 3629); the source has none for a surrogate. */
  predicate IsUtf8(bytes: string, code: nat) {
    if code < 128 then |bytes| == 1 && bytes[0] as int == code
    else if code < 2048 then
      && |bytes| == 2 && 192 <= bytes[0] as int < 224 && 128 <= bytes[1] as int < 192
      && code == (bytes[0] as int - 192) * 64 + (bytes[1] as int - 128)
    else if 55296 <= code < 57344 then bytes == ""
    else
      && |bytes| == 3 && 224 <= bytes[0] as int < 240 && 128 <= bytes[1] as int < 192 && 128 <= bytes[2] as int < 192
      && code == (bytes[0] as int - 224) * 4096 + (bytes[1] as int - 128) * 64 + (bytes[2] as int - 128)
  }

  lemma CodeInUtf8(code: nat)
    requires code < 0x10000
    ensures IsUtf8(ToUtf8(code), code)
  {
  }

  lemma FromHexFour(s: string, a: nat, b: nat, c: nat, d: nat)
    requires |s| >= 4 && Hex(s[0], a) && Hex(s[1], b) && Hex(s[2], c) && Hex(s[3], d)
    ensures FromHex(s, 4) == Some(4096 * a + 256 * b + 16 * c + d)
  {
    hide Hex;
    FromHexTwo(s, a, b);
    HexInFull(s[2], c);
    HexInFull(s[3], d);
    assert FromHex(s, 3) == Some(256 * a + 16 * b + c);
  }

  /** A percent sign, a small u and four digits are the code with that value, in UTF-8. */
  lemma UnicodeIsUtf8(digits: string, a: nat, b: nat, c: nat, d: nat, rest: string, plusIsSpace: bool)
    returns (bytes: string)
    requires |digits| == 4 && Hex(digits[0], a) && Hex(digits[1], b) && Hex(digits[2], c) && Hex(digits[3], d)
    ensures Decode("%u" + digits + rest, plusIsSpace) == bytes + Decode(rest, plusIsSpace)
    ensures IsUtf8(bytes, 4096 * a + 256 * b + 16 * c + d)
  {
    hide FromHex, IsUtf8, ToUtf8;
    var s, code := "%u" + digits + rest, 4096 * a + 256 * b + 16 * c + d;
    assert s[2..] == digits + rest && s[6..] == rest && s[1] == 'u';
    FromHexFour(s[2..], a, b, c, d);
    bytes := ToUtf8(code);
    CodeInUtf8(code);
  }

  /** Behind a percent sign, two digits, or a small u and four digits. */
  predicate BeginsCode(s: string) {
    if s != "" && s[0] == 'u' then |s| >= 5 && IsHex(s[1]) && IsHex(s[2]) && IsHex(s[3]) && IsHex(s[4])
    else |s| >= 2 && IsHex(s[0]) && IsHex(s[1])
  }

  lemma HexOnlyOfDigits(s: string)
    ensures FromHex(s, 2).Some? ==> |s| >= 2 && IsHex(s[0]) && IsHex(s[1])
    ensures FromHex(s, 4).Some? ==> |s| >= 4 && IsHex(s[0]) && IsHex(s[1]) && IsHex(s[2]) && IsHex(s[3])
  {
    assert FromHex(s, 2).Some? ==> FromHex(s, 1).Some?;
    assert FromHex(s, 3).Some? ==> FromHex(s, 2).Some?;
    assert FromHex(s, 4).Some? ==> FromHex(s, 3).Some?;
  }

  /** Any other percent sign stays. */
  lemma StrayPercent(rest: string, plusIsSpace: bool)
    requires !BeginsCode(rest)
    ensures Decode("%" + rest, plusIsSpace) == "%" + Decode(rest, plusIsSpace)
  {
    hide FromHex;
    var s := "%" + rest;
    assert s[1..] == rest;
    HexOnlyOfDigits(rest);
    if |s| > 1 && s[1] == 'u' {
      assert s[2..] == rest[1..];
      HexOnlyOfDigits(s[2..]);
    }
  }

  /** A text without percent signs is decoded character by character, plus signs as blanks. */
  lemma {:induction false} PlainTextDecoded(s: string)
    requires Lacks(s, '%')
    ensures |Decode(s, true)| == |s|
    ensures forall i :: 0 <= i < |s| ==> Decode(s, true)[i] == if s[i] == '+' then ' ' else s[i]
  {
    hide DecodeHead;
    if s != "" {
      PlainTextDecoded(s[1..]);
      assert s == [s[0]] + s[1..];
      if s[0] == '+' { PlusIsBlank(s[1..]); } else { OthersAreKept(s[0], s[1..], true); }
    }
  }

  // ---------- encoding ----------

  lemma PlainCharsInFull(c: char)
    ensures IsPlain(c) <==> c in SMALL || c in CAPITALS || c in DIGITS || c in "-_.!~*'()"
  {
    hide SMALL, CAPITALS, DIGITS;
    InSmall(c);
    InCapitals(c);
    InDigits(c);
  }

  /** A character is itself, or a percent sign and its two digits, in capitals. */
  lemma EncodedInFull(c: char, rest: string)
    requires IsBytes([c] + rest)
    ensures c as int < 256 && IsBytes(rest)
    ensures Encode([c] + rest) ==
      (if IsPlain(c) then [c] else ['%', CAPITAL_HEX[c as int / 16], CAPITAL_HEX[c as int % 16]]) + Encode(rest)
  {
    hide IsPlain, UpperHex, CAPITAL_HEX;
    assert ([c] + rest)[0] == c && ([c] + rest)[1..] == rest;
    BytesBehind(c, rest);
    CapitalDigit(c as int / 16);
    CapitalDigit(c as int % 16);
  }

  lemma BytesBehind(c: char, rest: string)
    requires IsBytes([c] + rest)
    ensures c as int < 256 && IsBytes(rest)
  {
    assert ([c] + rest)[0] == c;
    forall i | 0 <= i < |rest| ensures rest[i] as int < 256 { assert ([c] + rest)[i + 1] == rest[i]; }
  }

  lemma CapitalDigit(d: nat)
    requires d < 16
    ensures UpperHex(d) == CAPITAL_HEX[d]
  {
  }

  // ---------- parameters ----------

  lemma CompactTwo(a: string, b: string)
    requires Trimmed(a) && Trimmed(b)
    ensures Compact([a]) == if a == "" then [] else [a]
    ensures Compact([a, b]) == Compact([a]) + Compact([b])
  {
    hide Trim;
    TrimOfTrimmed(a);
    TrimOfTrimmed(b);
    assert [a][1..] == [] && [b][1..] == [] && [a, b][1..] == [b];
    assert Compact([]) == [] && Compact([b]) == (if Trim(b) == "" then [] else [Trim(b)]) + Compact([]);
  }

  /** A key and its value. */
  lemma KeyAndValue(key: string, value: string)
    requires Lacks(key, '=') && Lacks(value, '=') && Trimmed(key) && Trimmed(value) && key != ""
    ensures ReadParam(key + "=" + value) == Some((Decode(key, true), if value == "" then "" else Decode(value, true)))
  {
    hide Decode, Compact, Cut;
    assert key + "=" + value == key + (['='] + value);
    CutFirst(key, '=', value);
    CutOne(value, '=');
    assert [key] + [value] == [key, value];
    CompactTwo(key, value);
    CompactTwo(value, key);
    assert Decode("", true) == "" by { DecodeNothing(); }
  }

  /** Of several values the last one counts. */
  lemma LastValueCounts(key: string, value: string, last: string)
    requires Lacks(key, '=') && Lacks(value, '=') && Lacks(last, '=')
    requires Trimmed(key) && Trimmed(value) && Trimmed(last) && key != "" && value != "" && last != ""
    ensures ReadParam(key + "=" + value + "=" + last) == Some((Decode(key, true), Decode(last, true)))
  {
    hide Decode, Split;
    ThreePieces(key, value, last);
  }

  lemma ThreePieces(key: string, value: string, last: string)
    requires Lacks(key, '=') && Lacks(value, '=') && Lacks(last, '=')
    requires Trimmed(key) && Trimmed(value) && Trimmed(last) && key != "" && value != "" && last != ""
    ensures Split(key + "=" + value + "=" + last, '=') == [key, value, last]
  {
    hide Compact, Cut, Lacks, Trimmed;
    var rest := value + (['='] + last);
    assert key + "=" + value + "=" + last == key + (['='] + rest);
    CutFirst(key, '=', rest);
    CutFirst(value, '=', last);
    CutOne(last, '=');
    assert [key] + ([value] + [last]) == [key, value, last];
    CompactThree(key, value, last);
  }

  lemma CompactThree(a: string, b: string, c: string)
    requires Trimmed(a) && Trimmed(b) && Trimmed(c) && a != "" && b != "" && c != ""
    ensures Compact([a, b, c]) == [a, b, c]
  {
    hide Trim;
    TrimOfTrimmed(a);
    CompactTwo(b, c);
    CompactTwo(c, b);
    assert [a, b, c][1..] == [b, c];
  }

  /** A key without equals sign has an empty value, and a piece without key is skipped. */
  lemma KeyAlone(key: string)
    requires Lacks(key, '=') && Trimmed(key)
    ensures ReadParam(key) == if key == "" then None else Some((Decode(key, true), ""))
  {
    hide Decode, Compact, Cut;
    CutOne(key, '=');
    CompactTwo(key, key);
    assert Decode("", true) == "" by { DecodeNothing(); }
  }

  lemma DecodeNothing()
    ensures Decode("", true) == ""
  {
  }

  /** The parameters of a text are those of its pieces between ampersands, and no others. */
  lemma {:induction false} ParamsArePieces(pieces: seq<string>, q: Param)
    ensures q in ReadParams(pieces) <==> exists i :: 0 <= i < |pieces| && ReadParam(pieces[i]) == Some(q)
  {
    hide ReadParam, Emplace;
    if pieces != [] {
      var n := |pieces| - 1;
      ParamsArePieces(pieces[..n], q);
      ReadParamsSorted(pieces[..n]);
      assert forall i :: 0 <= i < n ==> pieces[..n][i] == pieces[i];
      if pieces[n] in pieces[..n] {
        var j :| 0 <= j < n && pieces[..n][j] == pieces[n];
        assert pieces[j] == pieces[n];
      } else if ReadParam(pieces[n]).Some? {
        EmplaceKeepsSorted(ReadParams(pieces[..n]), ReadParam(pieces[n]).value);
      }
    }
  }

  lemma PiecesBetweenAmpersands(a: string, b: string)
    requires Lacks(a, '&') && Lacks(b, '&') && Trimmed(a) && Trimmed(b)
    ensures Split(a + "&" + b, '&') == (if a == "" then [] else [a]) + (if b == "" then [] else [b])
  {
    hide Compact, Cut;
    assert a + "&" + b == a + (['&'] + b);
    CutFirst(a, '&', b);
    CutOne(b, '&');
    assert [a] + [b] == [a, b];
    CompactTwo(a, b);
    CompactTwo(b, a);
  }

  /** The printed form of a list. */
  lemma PrintedInFull(ps: seq<Param>)
    requires BytesValues(ps)
    ensures |ps| == 0 ==> Print(ps) == ""
    ensures |ps| == 1 ==> Print(ps) == ps[0].0 + "=" + Encode(ps[0].1)
    ensures |ps| > 1 ==> Print(ps) == ps[0].0 + "=" + Encode(ps[0].1) + "&" + Print(ps[1..])
  {
    hide Encode;
    if |ps| > 1 { assert PrintParam(ps[0]) + ("&" + Print(ps[1..])) == PrintParam(ps[0]) + "&" + Print(ps[1..]); }
  }

  /** Keys are ordered by their first difference, and a beginning comes before the whole. */
  lemma {:induction false} OrderInFull(same: string, c: char, a: string, d: char, b: string)
    requires c < d
    ensures AtMost(same + ([c] + a), same + ([d] + b)) && !AtMost(same + ([d] + b), same + ([c] + a))
    ensures AtMost(same, same + ([c] + a)) && !AtMost(same + ([c] + a), same)
  {
    if same == "" {
      assert "" + ([c] + a) == [c] + a && "" + ([d] + b) == [d] + b;
    } else {
      OrderInFull(same[1..], c, a, d, b);
      assert (same + ([c] + a))[1..] == same[1..] + ([c] + a) && (same + ([d] + b))[1..] == same[1..] + ([d] + b);
    }
  }
}
