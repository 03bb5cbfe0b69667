/** Base 64 (section 4 of RFC 4648): the bit accumulator, the encoding by groups, and its inverse. */
module Base64 {
  import opened Datasets
  import Strings
  import opened Wrappers

  // ---------- the encoding ----------

  /** Table 1 of the standard. */
  function Letter(d: nat): char
    requires d < 64
  {
    if d < 26 then 'A' + d as char
    else if d < 52 then 'a' + (d - 26) as char
    else if d < 62 then '0' + (d - 52) as char
    else if d == 62 then '+' else '/'
  }

  function LetterValue(c: char): (d: Option<nat>)
    ensures d.Some? ==> d.value < 64
  {
    if 'A' <= c <= 'Z' then Some((c - 'A') as nat)
    else if 'a' <= c <= 'z' then Some((c - 'a') as nat + 26)
    else if '0' <= c <= '9' then Some((c - '0') as nat + 52)
    else if c == '+' then Some(62)
    else if c == '/' then Some(63)
    else None
  }

  /** The four letters of a group of three bytes. */
  function Group(a: Byte, b: Byte, c: Byte): (s: string)
    ensures |s| == 4
  {
    [Letter(a / 4), Letter(a % 4 * 16 + b / 16), Letter(b % 16 * 4 + c / 64), Letter(c % 64)]
  }

  function Encode(s: Bytes): string {
    if |s| == 0 then ""
    else if |s| == 1 then Group(s[0], 0, 0)[..2] + "=="
    else if |s| == 2 then Group(s[0], s[1], 0)[..3] + "="
    else Group(s[0], s[1], s[2]) + Encode(s[3..])
  }

  /** A decoder after the standard: groups of four, padding only at the end and only over zero bits. */
  function Decode(t: string): Option<Bytes> {
    if t == "" then Some([])
    else if |t| < 4 || LetterValue(t[0]).None? || LetterValue(t[1]).None? then None
    else
      var (a, b) := (LetterValue(t[0]).value, LetterValue(t[1]).value);
      if t[2..] == "==" && b % 16 == 0 then Some([a * 4 + b / 16])
      else if LetterValue(t[2]).None? then None
      else
        var c := LetterValue(t[2]).value;
        if t[3..] == "=" && c % 4 == 0 then Some([a * 4 + b / 16, b % 16 * 16 + c / 4])
        else if LetterValue(t[3]).None? then None
        else
          match Decode(t[4..])
          case Some(rest) => Some([a * 4 + b / 16, b % 16 * 16 + c / 4, c % 4 * 64 + LetterValue(t[3]).value] + rest)
          case None => None
  }

  lemma LetterIsRead(d: nat)
    requires d < 64
    ensures LetterValue(Letter(d)) == Some(d) && Letter(d) != '='
  {
  }

  lemma GroupIsRead(a: Byte, b: Byte, c: Byte)
    ensures var s := Group(a, b, c);
      LetterValue(s[0]) == Some(a / 4) && LetterValue(s[1]) == Some(a % 4 * 16 + b / 16)
      && LetterValue(s[2]) == Some(b % 16 * 4 + c / 64) && LetterValue(s[3]) == Some(c % 64)
      && s[2] != '=' && s[3] != '='
    ensures a / 4 * 4 + (a % 4 * 16 + b / 16) / 16 == a
    ensures (a % 4 * 16 + b / 16) % 16 * 16 + (b % 16 * 4 + c / 64) / 4 == b
    ensures (b % 16 * 4 + c / 64) % 4 * 64 + c % 64 == c
  {
    LetterIsRead(a / 4);
    LetterIsRead(a % 4 * 16 + b / 16);
    LetterIsRead(b % 16 * 4 + c / 64);
    LetterIsRead(c % 64);
  }

  lemma EncodeStep(a: Byte, b: Byte, c: Byte, rest: Bytes)
    ensures Encode([a, b, c] + rest) == Group(a, b, c) + Encode(rest)
  {
    hide Group;
    assert ([a, b, c] + rest)[3..] == rest;
  }

  /** Four letters without padding are three bytes. */
  lemma DecodeFour(t: string, rest: string)
    requires |t| == 4 && t[2] != '=' && t[3] != '=' && Decode(rest).Some?
    requires forall i :: 0 <= i < 4 ==> LetterValue(t[i]).Some?
    ensures var (a, b) := (LetterValue(t[0]).value, LetterValue(t[1]).value);
      var (c, d) := (LetterValue(t[2]).value, LetterValue(t[3]).value);
      Decode(t + rest) == Some([a * 4 + b / 16, b % 16 * 16 + c / 4, c % 4 * 64 + d] + Decode(rest).value)
  {
    hide LetterValue;
    var u := t + rest;
    assert u[0] == t[0] && u[1] == t[1] && u[2] == t[2] && u[3] == t[3] && u[4..] == rest;
    assert u[2..][0] == t[2] && u[3..][0] == t[3];
  }

  lemma DecodeStep(a: Byte, b: Byte, c: Byte, rest: string)
    requires Decode(rest).Some?
    ensures Decode(Group(a, b, c) + rest) == Some([a, b, c] + Decode(rest).value)
  {
    GroupIsRead(a, b, c);
    hide Group, LetterValue, Decode;
    DecodeFour(Group(a, b, c), rest);
  }

  lemma DecodeOne(a: Byte)
    ensures Decode(Group(a, 0, 0)[..2] + "==") == Some([a])
  {
    hide Letter, LetterValue;
    GroupIsRead(a, 0, 0);
    assert (Group(a, 0, 0)[..2] + "==")[2..] == "==";
  }

  lemma DecodeTwo(a: Byte, b: Byte)
    ensures Decode(Group(a, b, 0)[..3] + "=") == Some([a, b])
  {
    hide Letter, LetterValue;
    GroupIsRead(a, b, 0);
    var t := Group(a, b, 0)[..3] + "=";
    assert t[2] != '=' && t[3..] == "=";
  }

  /** Decoding gives back every byte string. */
  lemma {:induction false} DecodeUndoesEncode(s: Bytes)
    ensures Decode(Encode(s)) == Some(s)
  {
    hide Group;
    if |s| == 0 {
      assert s == [];
    } else if |s| == 1 {
      DecodeOne(s[0]);
      assert s == [s[0]];
    } else if |s| == 2 {
      DecodeTwo(s[0], s[1]);
      assert s == [s[0], s[1]];
    } else {
      hide Encode, Decode;
      assert s == [s[0], s[1], s[2]] + s[3..];
      EncodeStep(s[0], s[1], s[2], s[3..]);
      DecodeUndoesEncode(s[3..]);
      DecodeStep(s[0], s[1], s[2], Encode(s[3..]));
    }
  }

  lemma {:induction false} EncodedLength(s: Bytes)
    ensures |Encode(s)| == (|s| + 2) / 3 * 4
  {
    hide Group;
    if |s| > 2 { EncodedLength(s[3..]); }
  }

  // ---------- the encoding in full ----------

  /** The 64 letters in their order: capitals, small letters, digits, plus and slash. */
  lemma LettersInFull(d: nat)
    requires d < 64
    ensures Letter(d) ==
      if d < 26 then Strings.CAPITALS[d] else if d < 52 then Strings.SMALL[d - 26]
      else if d < 62 then Strings.DIGITS[d - 52] else "+/"[d - 62]
  {
    Strings.InCapitals(Letter(d));
    Strings.InSmall(Letter(d));
    Strings.InDigits(Letter(d));
  }

  /** Four letters are the 24 bits of three bytes, the highest first. */
  lemma GroupInFull(a: Byte, b: Byte, c: Byte) returns (x: nat, y: nat, z: nat, t: nat)
    ensures x < 64 && y < 64 && z < 64 && t < 64
    ensures 0x4_0000 * x + 0x1000 * y + 0x40 * z + t == 0x1_0000 * a + 0x100 * b + c
    ensures Group(a, b, c) == [Letter(x), Letter(y), Letter(z), Letter(t)]
  {
    hide Letter;
    x, y, z, t := a / 4, a % 4 * 16 + b / 16, b % 16 * 4 + c / 64, c % 64;
  }

  /** Test vectors of section 10 of the standard: the bytes of "", "f", "fo", "foo" and "foob". */
  lemma Vectors()
    ensures Encode([]) == "" && Encode([102]) == "Zg==" && Encode([102, 111]) == "Zm8="
    ensures Encode([102, 111, 111]) == "Zm9v"
    ensures Encode([102, 111, 111, 98]) == "Zm9vYg=="
  {
    VectorLetters();
    hide Group;
    assert [102, 111, 111] + [] == [102, 111, 111] && [102, 111, 111] + [98] == [102, 111, 111, 98];
    EncodeStep(102, 111, 111, []);
    EncodeStep(102, 111, 111, [98]);
  }

  lemma VectorLetters()
    ensures Group(102, 0, 0)[..2] == "Zg" && Group(102, 111, 0)[..3] == "Zm8" && Group(102, 111, 111) == "Zm9v"
    ensures Group(98, 0, 0)[..2] == "Yg"
  {
  }

  // ---------- the accumulator ----------

  /** A 32-bit `int`: what does not fit is cut off. */
  function Int32(n: int): (r: int)
    ensures -0x8000_0000 <= r < 0x8000_0000
  {
    (n + 0x8000_0000) % 0x1_0000_0000 - 0x8000_0000
  }

  /** `(val >> n) & 0x3F`; the shift of an `int` rounds down. */
  function Bits(val: int, n: nat): (d: nat)
    requires n == 0 || n == 2 || n == 4 || n == 6
    ensures d < 64
  {
    (if n == 0 then val else if n == 2 then val / 4 else if n == 4 then val / 16 else val / 64) % 64
  }

  /** The last three bytes are in the accumulator, whatever was cut off. */
  ghost predicate Low(val: int, a: nat, b: nat, c: nat) { val % 0x100_0000 == a * 0x1_0000 + b * 0x100 + c }

  lemma LowAdd(val: int, a: Byte, b: Byte, c: Byte, d: Byte)
    requires Low(val, a, b, c)
    ensures Low(Int32(val * 256 + d), b, c, d)
  {
    var q := val / 0x100_0000;
    assert val == q * 0x100_0000 + a * 0x1_0000 + b * 0x100 + c;
    var n := val * 256 + d;
    assert n == (q * 256 + a) * 0x100_0000 + b * 0x1_0000 + c * 0x100 + d;
    var k := (n + 0x8000_0000) / 0x1_0000_0000;
    assert Int32(n) == n - k * 0x1_0000_0000;
    assert Int32(n) == (q * 256 + a - k * 256) * 0x100_0000 + (b * 0x1_0000 + c * 0x100 + d);
  }

  /** Division with remainder is unique. */
  lemma Divided(n: int, m: nat, q: int, r: nat)
    requires m > 0 && n == q * m + r && r < m
    ensures n / m == q && n % m == r
  {
    var k := n / m - q;
    assert n == (q + k) * m + n % m && (q + k) * m == q * m + k * m;
    assert k >= 1 ==> k * m >= m;
    assert k <= -1 ==> k * m + m <= 0;
  }

  lemma LowBits(val: int, a: Byte, b: Byte, c: Byte)
    requires Low(val, a, b, c)
    ensures Bits(val, 0) == c % 64 && Bits(val, 2) == c / 4
    ensures Bits(val, 4) == b % 4 * 16 + c / 16 && Bits(val, 6) == b % 16 * 4 + c / 64
  {
    var q := val / 0x100_0000;
    assert val == q * 0x100_0000 + a * 0x1_0000 + b * 0x100 + c;
    Divided(val, 64, q * 0x4_0000 + a * 0x400 + b * 4 + c / 64, c % 64);
    Divided(val, 4, q * 0x40_0000 + a * 0x4000 + b * 0x40 + c / 4, c % 4);
    Divided(val / 4, 64, q * 0x1_0000 + a * 0x100 + b, c / 4);
    Divided(val, 16, q * 0x10_0000 + a * 0x1000 + b * 0x10 + c / 16, c % 16);
    Divided(val / 16, 64, q * 0x4000 + a * 0x40 + b / 4, b % 4 * 16 + c / 16);
    Divided(val / 64, 64, q * 0x1000 + a * 0x10 + b / 16, b % 16 * 4 + c / 64);
  }

  /** The byte k places before position n, zero before the first. */
  function Before(s: Bytes, n: nat, k: nat): Byte
    requires n <= |s|
  {
    if 0 < k <= n then s[n - k] else 0
  }

  /** What is out when n bytes are in the accumulator and `valb + 6` bits are still to come. */
  ghost function Out(s: Bytes, n: nat, valb: int): string
    requires n <= |s|
  {
    var (a, b, c) := (Before(s, n, 3), Before(s, n, 2), Before(s, n, 1));
    if n == 0 then ""
    else if n % 3 == 1 then Full(s[..n - 1]) + if valb == 2 then "" else Group(c, 0, 0)[..1]
    else if n % 3 == 2 then Full(s[..n - 2]) + Group(b, c, 0)[..if valb == 4 then 1 else 2]
    else if valb == -6 then Full(s[..n])
    else Full(s[..n - 3]) + Group(a, b, c)[..if valb == 6 then 2 else 3]
  }

  /** The groups of a string of whole groups. */
  ghost function Full(s: Bytes): string {
    if |s| < 3 then "" else Full(s[..|s| - 3]) + Group(s[|s| - 3], s[|s| - 2], s[|s| - 1])
  }

  predicate Counts(n: nat, valb: int) {
    if n % 3 == 0 then valb == 6 || valb == 0 || valb == -6
    else if n % 3 == 1 then valb == 2 || valb == -4
    else valb == 4 || valb == -2
  }

  /** What follows the whole groups. */
  ghost function Rest(r: Bytes): string
    requires |r| < 3
  {
    if |r| == 0 then "" else if |r| == 1 then Group(r[0], 0, 0)[..2] else Group(r[0], r[1], 0)[..3]
  }

  /** All letters without the padding. */
  ghost function Letters(s: Bytes): string {
    var n := |s| / 3 * 3;
    Full(s[..n]) + Rest(s[n..])
  }

  lemma {:induction false} EncodeFull(s: Bytes, rest: Bytes)
    requires |s| % 3 == 0
    ensures Encode(s + rest) == Full(s) + Encode(rest) && |Full(s)| % 4 == 0
  {
    hide Group, Encode;
    if s == [] {
      assert s + rest == rest;
    } else {
      var n := |s| - 3;
      var t := [s[n], s[n + 1], s[n + 2]];
      EncodeFull(s[..n], t + rest);
      EncodeStep(s[n], s[n + 1], s[n + 2], rest);
      assert s[..n] + (t + rest) == s + rest;
    }
  }

  /** The encoding is the letters, filled up to whole groups. */
  lemma Padded(s: Bytes)
    ensures |Letters(s)| <= |Encode(s)| && Letters(s) == Encode(s)[..|Letters(s)|]
    ensures forall i :: |Letters(s)| <= i < |Encode(s)| ==> Encode(s)[i] == '=' && i % 4 != 0
    ensures |Encode(s)| % 4 == 0
  {
    hide Encode, Rest, Full;
    var n := |s| / 3 * 3;
    EncodeFull(s[..n], s[n..]);
    RestPadded(s[n..]);
    assert s[..n] + s[n..] == s;
    var (f, r, e) := (Full(s[..n]), Rest(s[n..]), Encode(s[n..]));
    assert Encode(s) == f + e && Letters(s) == f + r;
    assert (f + e)[..|f + r|] == f + e[..|r|];
    forall i | |f + r| <= i < |f + e| ensures (f + e)[i] == '=' && i % 4 != 0 {
      assert (f + e)[i] == e[i - |f|];
    }
  }

  lemma RestPadded(r: Bytes)
    requires |r| < 3
    ensures |Rest(r)| <= |Encode(r)| <= 4 && Encode(r)[..|Rest(r)|] == Rest(r) && |Encode(r)| % 4 == 0
    ensures forall i :: |Rest(r)| <= i < |Encode(r)| ==> Encode(r)[i] == '=' && i % 4 != 0
  {
    hide Group;
  }

  lemma LastLetters(s: Bytes, val: int, valb: int)
    requires Counts(|s|, valb) && valb < 0
    requires Low(val, Before(s, |s|, 3), Before(s, |s|, 2), Before(s, |s|, 1))
    ensures Letters(s) == Out(s, |s|, valb) + if valb > -6 then [Letter(Bits(Int32(val * 256), valb + 8))] else ""
  {
    hide Letter, Bits, Full, Low, Int32, Before;
    var n := |s| / 3 * 3;
    var (a, b, c) := (Before(s, |s|, 3), Before(s, |s|, 2), Before(s, |s|, 1));
    LowAdd(val, a, b, c, 0);
    LowBits(Int32(val * 256), b, c, 0);
    FullOfNothing();
    LastBytes(s);
    hide Group;
    GroupPrefixes(c, 0, 0);
    GroupPrefixes(b, c, 0);
  }

  lemma LastBytes(s: Bytes)
    ensures |s| >= 1 ==> Before(s, |s|, 1) == s[|s| - 1]
    ensures |s| >= 2 ==> Before(s, |s|, 2) == s[|s| - 2]
  {
  }

  lemma NothingOut(s: Bytes)
    ensures Out(s, 0, -6) == "" && Low(0, 0, 0, 0)
  {
  }

  lemma FullOfNothing()
    ensures Full([]) == ""
  {
  }

  method Base64Encode(s: Bytes) returns (out: string)
    ensures out == Encode(s)
  {
    hide Out, Low, Letters, Encode, Group, Letter, Bits, Int32;
    out := "";
    var val, valb, n := 0, -6, 0;
    NothingOut(s);
    while n < |s|
      invariant n <= |s| && Counts(n, valb) && valb < 0 && out == Out(s, n, valb)
      invariant Low(val, Before(s, n, 3), Before(s, n, 2), Before(s, n, 1))
    {
      LowAdd(val, Before(s, n, 3), Before(s, n, 2), Before(s, n, 1), s[n]);
      NextByte(s, n, valb);
      val := Int32(val * 256 + s[n]);
      n, valb := n + 1, valb + 8;
      while valb >= 0
        invariant Counts(n, valb) && out == Out(s, n, valb)
        invariant valb >= -6
      {
        NextLetter(s, n, val, valb);
        out := out + [Letter(Bits(val, valb))];
        valb := valb - 6;
      }
    }
    assert s[..n] == s;
    LastLetters(s, val, valb);
    if valb > -6 { out := out + [Letter(Bits(Int32(val * 256), valb + 8))]; }
    Padded(s);
    while |out| % 4 != 0
      invariant |Letters(s)| <= |out| <= |Encode(s)| && out == Encode(s)[..|out|]
      decreases |Encode(s)| - |out|
    {
      assert Encode(s)[..|out| + 1] == Encode(s)[..|out|] + [Encode(s)[|out|]];
      out := out + "=";
    }
  }

  lemma GroupPrefixes(a: Byte, b: Byte, c: Byte)
    ensures var g := Group(a, b, c);
      && g[..1] == Group(a, 0, 0)[..1] == [Letter(a / 4)]
      && g[..2] == Group(a, b, 0)[..2] == g[..1] + [Letter(a % 4 * 16 + b / 16)]
      && g[..3] == g[..2] + [Letter(b % 16 * 4 + c / 64)]
      && g == g[..3] + [Letter(c % 64)]
  {
    hide Letter;
  }

  lemma FullStep(s: Bytes)
    requires |s| >= 3
    ensures Full(s) == Full(s[..|s| - 3]) + Group(s[|s| - 3], s[|s| - 2], s[|s| - 1])
  {
  }

  /** A new byte begins its letters where the old one ended. */
  lemma NextByte(s: Bytes, n: nat, valb: int)
    requires n < |s| && Counts(n, valb) && valb < 0
    ensures Counts(n + 1, valb + 8) && Out(s, n + 1, valb + 8) == Out(s, n, valb)
    ensures Before(s, n + 1, 3) == Before(s, n, 2) && Before(s, n + 1, 2) == Before(s, n, 1)
    ensures Before(s, n + 1, 1) == s[n]
  {
    hide Group, Full;
    if n % 3 == 0 {
      FullOfNothing();
      assert Out(s, n, -6) == Full(s[..n]);
    } else if n % 3 == 1 {
      GroupPrefixes(Before(s, n, 1), s[n], 0);
    } else {
      GroupPrefixes(Before(s, n, 2), Before(s, n, 1), s[n]);
    }
  }

  lemma NextLetter(s: Bytes, n: nat, val: int, valb: int)
    requires 0 < n <= |s| && Counts(n, valb) && valb >= 0
    requires Low(val, Before(s, n, 3), Before(s, n, 2), Before(s, n, 1))
    ensures Counts(n, valb - 6) && Out(s, n, valb - 6) == Out(s, n, valb) + [Letter(Bits(val, valb))]
  {
    hide Letter, Bits, Full, Group;
    var (a, b, c) := (Before(s, n, 3), Before(s, n, 2), Before(s, n, 1));
    LowBits(val, a, b, c);
    GroupPrefixes(a, b, c);
    GroupPrefixes(b, c, 0);
    GroupPrefixes(c, 0, 0);
    if valb == 0 {
      FullStep(s[..n]);
      assert s[..n][..n - 3] == s[..n - 3];
    }
  }
}
