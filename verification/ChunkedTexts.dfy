/** The chunked coding in full: what goes over the wire, and what the reader makes of any size line. */
module ChunkedTexts {
  import opened Strings
  import opened Chunked

  // ---------- what is emitted ----------

  /** The size in hexadecimal digits, small ones. */
  lemma HexInFull(n: nat)
    ensures Hex(n)[|Hex(n)| - 1] == "0123456789abcdef"[n % 16]
    ensures n < 16 ==> |Hex(n)| == 1
    ensures n >= 16 ==> Hex(n)[..|Hex(n)| - 1] == Hex(n / 16)
  {
  }

  lemma EmittedInFull(data: string)
    ensures Emitted(Done) == "0\r\n\r\n" && Emitted(Write("")) == ""
    ensures data != "" ==> Emitted(Write(data)) == Hex(|data|) + "\r\n" + data + "\r\n"
  {
    hide Hex;
    assert CRLF == "\r\n";
    Associate(Hex(|data|), CRLF, data, CRLF);
  }

  lemma Associate(a: string, b: string, c: string, d: string)
    ensures a + b + (c + d) == a + b + c + d
  {
  }

  // ---------- size lines ----------

  /** What `strtoul` skips and takes before the digits. */
  predicate IsSign(sign: string) { sign == "" || sign == "+" || sign == "-" }

  predicate IsPrefix(prefix: string) { prefix == "" || prefix == "0x" || prefix == "0X" }

  lemma {:induction false} SpacesSkipped(w: string, s: string)
    requires AllSpace(w) && (s == "" || !IsSpace(s[0]))
    ensures SkipSpace(w + s) == s
  {
    if w == "" {
      assert w + s == s;
    } else {
      assert w[0] in w && (forall c :: c in w[1..] ==> c in w);
      assert (w + s)[1..] == w[1..] + s;
      SpacesSkipped(w[1..], s);
    }
  }

  /** Digits that do not themselves begin like a prefix. */
  ghost predicate Plain(digits: string) { digits != "" && AllHex(digits) }

  function Value(sign: string, n: nat): nat {
    if n > ULONG_MAX then ULONG_MAX else if sign == "-" && n > 0 then ULONG_MAX + 1 - n else n
  }

  lemma BareDigits(digits: string, rest: string)
    requires Plain(digits) && (rest != "" ==> !IsHex(rest[0]) && rest[0] != 'x' && rest[0] != 'X')
    ensures var s := digits + rest;
      s != "" && IsHex(s[0]) && !HasPrefix(s) && s[..Digits(s)] == digits
  {
    DigitsAre(digits, rest);
    var s := digits + rest;
    assert IsHex(s[0]);
    if |s| > 1 { assert s[1] != 'x' && s[1] != 'X'; }
    assert s[..|digits|] == digits;
  }

  /** White space, a sign, a prefix and digits are a number, whatever follows; it saturates, and a minus wraps it. */
  lemma SizeLineInFull(w: string, sign: string, prefix: string, digits: string, rest: string)
    requires AllSpace(w) && IsSign(sign) && IsPrefix(prefix) && Plain(digits)
    requires rest != "" ==> !IsHex(rest[0]) && rest[0] != 'x' && rest[0] != 'X'
    ensures Strtoul(w + (sign + (prefix + (digits + rest)))) == (Value(sign, Number(digits)), true)
  {
    hide *;
    var p := prefix + (digits + rest);
    BareDigits(digits, rest);
    PrefixTaken(prefix, digits + rest);
    SignTaken(sign, p);
    SpacesSkipped(w, sign + p);
    NumberTaken(w + (sign + p), sign, p, digits, rest);
  }

  lemma SignTaken(sign: string, p: string)
    requires IsSign(sign) && p != "" && IsHex(p[0])
    ensures var signed := sign + p;
      && signed != "" && !IsSpace(signed[0]) && (HasSign(signed) <==> sign != "")
      && (if HasSign(signed) then signed[1..] else signed) == p
      && (sign == "-" <==> signed[0] == '-')
  {
    if sign == "" { assert sign + p == p; } else { assert (sign + p)[1..] == p; }
  }

  lemma NumberTaken(t: string, sign: string, p: string, digits: string, rest: string)
    requires SkipSpace(t) == sign + p && sign + p != "" && (HasSign(sign + p) <==> sign != "")
    requires (if HasSign(sign + p) then (sign + p)[1..] else sign + p) == p && (sign == "-" <==> (sign + p)[0] == '-')
    requires (if HasPrefix(p) then p[2..] else p) == digits + rest && Plain(digits)
    requires (digits + rest)[..Digits(digits + rest)] == digits
    ensures Strtoul(t) == (Value(sign, Number(digits)), true)
  {
    hide Number, Digits, SkipSpace, HasPrefix, HasSign;
  }

  lemma PrefixTaken(prefix: string, s: string)
    requires IsPrefix(prefix) && s != "" && IsHex(s[0]) && !HasPrefix(s)
    ensures var p := prefix + s;
      p != "" && IsHex(p[0]) && (if HasPrefix(p) then p[2..] else p) == s
  {
    var p := prefix + s;
    if prefix == "" { assert p == s; } else { assert p[2] == s[0] && p[2..] == s; }
  }

  /** A line that has no digit where the number should be is no number. */
  lemma NoDigitNoNumber(w: string, s: string)
    requires AllSpace(w) && (s == "" || (!IsSpace(s[0]) && !HasSign(s) && !IsHex(s[0])))
    ensures Strtoul(w + s) == (0, false)
  {
    SpacesSkipped(w, s);
    assert s[..0] == "";
  }

  /** What the reader does with the number in the size line. */
  lemma SizeDecides(s: string, size: nat, isNumber: bool)
    requires s != "" && Strtoul(CString(Line(s))) == (size, isNumber)
    ensures !isNumber || size == 0xFFFF_FFFF_FFFF_FFFF ==> !ReadChunks(s).ok && ReadChunks(s).data == ""
    ensures isNumber && size == 0 ==> ReadChunks(s).data == "" && (ReadChunks(s).ok <==> AtCrlf(AfterLine(s)))
    ensures isNumber && 0 < size < 0xFFFF_FFFF_FFFF_FFFF && |AfterLine(s)| < size ==>
      ReadChunks(s) == Read(false, AfterLine(s), "")
    ensures isNumber && 0 < size < 0xFFFF_FFFF_FFFF_FFFF && size <= |AfterLine(s)| ==>
      AfterLine(s)[..size] <= ReadChunks(s).data
  {
    hide Strtoul, CString, Line;
    var body := AfterLine(s);
    if isNumber && 0 < size < 0xFFFF_FFFF_FFFF_FFFF && size <= |body| { DataFirst(body[..size], body[size..]); }
  }

  lemma DataFirst(data: string, s: string)
    ensures data <= ReadRest(data, s).data
  {
    hide ReadChunks;
  }

  // ---------- empty lines ----------

  /** The reader's test for an empty line is whether the next two bytes are a line break. */
  lemma EmptyLineInFull(s: string)
    ensures AtCrlf(s) <==> |s| >= 2 && s[..2] == "\r\n"
    ensures AtCrlf(s) ==> AfterLine(s) == s[2..]
  {
    if |s| >= 2 && s[..2] == "\r\n" {
      assert s[0] == '\r' && s[1] == '\n' && s == "\r" + ("\n" + s[2..]);
      LineIs("\r", s[2..]);
      assert "\r" + "\n" == CRLF;
      NoNul(CRLF);
    }
    if AtCrlf(s) {
      CStringIsPrefix(Line(s));
      assert Line(s)[..2] == CRLF && s[..2] == Line(s)[..2];
    }
  }

  lemma {:induction false} CStringIsPrefix(s: string)
    ensures |CString(s)| <= |s| && CString(s) == s[..|CString(s)|]
  {
    if s != "" && s[0] != '\0' {
      CStringIsPrefix(s[1..]);
      assert s == s[..1] + s[1..];
    }
  }

  /** A chunk extension, any bytes without NUL and line feed that do not go on with the number, is ignored. */
  lemma ExtensionIgnored(n: nat, ext: string, s: string)
    requires n <= ULONG_MAX && ext != "" && !IsHex(ext[0]) && ext[0] != 'x' && ext[0] != 'X'
    requires '\n' !in ext && '\0' !in ext
    ensures var t := Hex(n) + (ext + ("\n" + s));
      Strtoul(CString(Line(t))) == (n, true) && AfterLine(t) == s
  {
    hide Strtoul, Line, CString, Number, Digits;
    var hex := Hex(n);
    NumberOfHex(n);
    var a := hex + ext;
    assert hex + (ext + ("\n" + s)) == a + ("\n" + s);
    assert '\n' !in hex && '\0' !in hex by { assert forall i :: 0 <= i < |hex| ==> IsHex(hex[i]); }
    LineIs(a, s);
    NoNul(a + "\n");
    var w, rest := "", ext + "\n";
    assert a + "\n" == w + ("" + ("" + (hex + rest)));
    assert rest[0] == ext[0];
    SizeLineInFull(w, "", "", hex, rest);
  }
}
