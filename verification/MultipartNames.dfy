/** Which names, file names and content types are read back from the header lines that are printed for them. */
module MultipartNames {
  import opened Strings
  import opened Multipart
  import opened Wrappers

  predicate OneLine(s: string) { forall c :: c in s ==> !LineEnd(c) }

  /** What a name and a file name look like in the line, from behind the quote that opens the name. */
  function Quoted(name: string, filename: string): string { name + "\"" + FilenamePart(filename) }

  /** What the parser takes for a file name of at least one character, behind a quote. */
  predicate LooksLikeFilename(s: string) {
    && s != "" && s[0] == ';'
    && StartsWithNoCase(SkipSpace(s[1..]), FILENAME) && |SkipSpace(s[1..])| > |FILENAME|
  }

  /** The quote at `n` does not close the name, but what follows looks as if it did. */
  predicate Misleads(name: string, filename: string, n: nat)
    requires n < |name|
  {
    name[n] == '"' && LooksLikeFilename(Quoted(name, filename)[n + 1..])
  }

  /** Anything the parser can have read. */
  ghost predicate Readable(info: FileInfo) {
    && OneLine(info.name) && OneLine(info.filename)
    && Trimmed(info.contentType) && Free(info.contentType, CRLF)
  }

  ghost predicate GoodInfo(info: FileInfo) {
    Readable(info) && forall n :: 0 <= n < |info.name| ==> !Misleads(info.name, info.filename, n)
  }

  /** What the parser reads for a name and a file name in one line. */
  function SeenNames(info: FileInfo): (string, string) {
    match MatchName(Quoted(info.name, info.filename), 0)
    case Some(names) => names
    case None => ("", "")
  }

  function Seen(info: FileInfo): FileInfo {
    FileInfo(SeenNames(info).0, SeenNames(info).1, info.contentType)
  }

  // ---------- the disposition line ----------

  lemma SkipOneSpace(s: string)
    requires s != "" && !IsSpace(s[0])
    ensures SkipSpace(" " + s) == s
  {
    assert (" " + s)[1..] == s;
  }

  lemma {:induction false} SkipSpaceDrops(s: string)
    ensures SkipSpace(s) == s[|s| - |SkipSpace(s)|..]
  {
    if s != "" && IsSpace(s[0]) { SkipSpaceDrops(s[1..]); }
  }

  lemma {:induction false} MatchFilenamePlain(filename: string, n: nat)
    requires OneLine(filename) && n <= |filename|
    ensures MatchFilename(filename + "\"", n) == Some(filename)
    decreases |filename| - n
  {
    var s := filename + "\"";
    if n < |filename| {
      assert s[n] == filename[n] && filename[n] in filename;
      assert s[n + 1..][|filename| - n - 1] == '"' && '"' in s[n + 1..];
      MatchFilenamePlain(filename, n + 1);
    } else {
      assert s[..n] == filename && s[n + 1..] == "";
    }
  }

  lemma MatchTailPart(filename: string)
    requires OneLine(filename)
    ensures MatchTail(FilenamePart(filename)) == Some(filename)
  {
    if filename != "" {
      var quoted := FILENAME + (filename + "\"");
      assert FilenamePart(filename)[1..] == " " + quoted;
      SkipOneSpace(quoted);
      assert quoted[|FILENAME|..] == filename + "\"";
      assert StartsWithNoCase(quoted, FILENAME) by { assert quoted[..|FILENAME|] == FILENAME; }
      MatchFilenamePlain(filename, 0);
      assert MatchFilename(quoted[|FILENAME|..], 0) == Some(filename);
    } else {
      assert MatchTail("") == Some("");
    }
  }

  predicate EndsWithQuote(s: string) { s != "" && s[|s| - 1] == '"' && OneLine(s) }

  lemma QuotedEndsWithQuote(name: string, filename: string, n: nat)
    requires OneLine(name) && OneLine(filename) && n <= |name|
    ensures EndsWithQuote(Quoted(name, filename)[n..])
  {
    assert OneLine(FILENAME);
    assert OneLine(FilenamePart(filename));
    assert OneLine(Quoted(name, filename));
  }

  /** Behind a quote in the name, the line goes on well exactly when a file name seems to follow. */
  lemma MatchTailIff(s: string)
    requires EndsWithQuote(s)
    ensures MatchTail(s).Some? <==> LooksLikeFilename(s)
  {
    assert s[|s| - 1] in s && !AllSpace(s);
    if s[0] == ';' {
      SkipSpaceDrops(s[1..]);
      var t := SkipSpace(s[1..]);
      if StartsWithNoCase(t, FILENAME) && |t| > |FILENAME| {
        var u := t[|FILENAME|..];
        assert u[..|u| - 1] + "\"" == u;
        assert OneLine(u[..|u| - 1]);
        MatchFilenamePlain(u[..|u| - 1], 0);
      }
    }
  }

  lemma {:induction false} MatchNameGood(name: string, filename: string, n: nat)
    requires OneLine(name) && OneLine(filename) && n <= |name|
    requires forall i :: n <= i < |name| ==> !Misleads(name, filename, i)
    ensures MatchName(Quoted(name, filename), n) == Some((name, filename))
    decreases |name| - n
  {
    hide MatchTail, LooksLikeFilename, FilenamePart;
    var s := Quoted(name, filename);
    if n < |name| {
      assert s[n] == name[n] && name[n] in name;
      assert !Misleads(name, filename, n);
      QuotedEndsWithQuote(name, filename, n + 1);
      MatchTailIff(s[n + 1..]);
      MatchNameGood(name, filename, n + 1);
    } else {
      MatchTailPart(filename);
      assert s[..n] == name && s[n + 1..] == FilenamePart(filename);
    }
  }

  /** A quote that misleads the parser ends the name too early. */
  lemma {:induction false} MatchNameMisled(name: string, filename: string, n: nat, i: nat)
    requires OneLine(name) && OneLine(filename) && n <= i < |name| && Misleads(name, filename, i)
    ensures MatchName(Quoted(name, filename), n).Some?
    ensures |MatchName(Quoted(name, filename), n).value.0| <= i
    decreases i - n
  {
    hide MatchTail, LooksLikeFilename, FilenamePart;
    var s := Quoted(name, filename);
    assert s[n] == name[n] && name[n] in name;
    if n == i {
      QuotedEndsWithQuote(name, filename, n + 1);
      MatchTailIff(s[n + 1..]);
    } else {
      MatchNameMisled(name, filename, n + 1, i);
    }
  }

  /** Of what fits in header lines, exactly the names without misleading quotes are read back. */
  lemma SeenIffGood(info: FileInfo)
    requires Readable(info)
    ensures MatchName(Quoted(info.name, info.filename), 0) == Some(SeenNames(info))
    ensures Seen(info) == info <==> GoodInfo(info)
  {
    hide MatchName, Misleads, Quoted;
    if GoodInfo(info) {
      MatchNameGood(info.name, info.filename, 0);
    } else {
      var i :| 0 <= i < |info.name| && Misleads(info.name, info.filename, i);
      MatchNameMisled(info.name, info.filename, 0, i);
    }
  }

  const MISLEADING := "a\"; filename=\"b"

  lemma MisleadingQuoted()
    ensures var s := Quoted(MISLEADING, "");
      |s| > 2 && s[..1] == "a" && s[1] == '"' && s[2..] == FilenamePart("b")
    ensures OneLine(MISLEADING) && |MISLEADING| > 1
  {
  }

  /** A name may hold quotes, but not this one: it is read as `a` with the file name `b`. */
  lemma MisleadingName()
    ensures var info := FileInfo(MISLEADING, "", "");
      Readable(info) && !GoodInfo(info) && Seen(info) == FileInfo("a", "b", "")
  {
    hide MatchTail, MatchName, FilenamePart, Quoted, MISLEADING, GoodInfo;
    MisleadingQuoted();
    MatchTailPart("b");
    MatchNameHere(Quoted(MISLEADING, ""), 1);
    var info := FileInfo(MISLEADING, "", "");
    SeenIffGood(info);
  }

  lemma MatchNameHere(s: string, n: nat)
    requires n == 1 < |s| && s[0] == 'a' && s[n] == '"' && MatchTail(s[n + 1..]).Some?
    ensures MatchName(s, 0) == Some((s[..n], MatchTail(s[n + 1..]).value))
  {
    hide MatchTail;
    assert MatchName(s, 0) == MatchName(s, 1);
  }

  /** The disposition line, read after nothing else. */
  lemma ReadDisposition(info: FileInfo)
    requires Readable(info)
    ensures ReadHeader(NO_INFO, DispositionLine(info)) == Seen(info).(contentType := "")
  {
    hide MatchName, FilenamePart;
    var s3 := Quoted(info.name, info.filename);
    var s2 := NAME + s3;
    var s1 := FORM_DATA + (" " + s2);
    var line := DispositionLine(info);
    assert line == DISPOSITION + (" " + s1);
    assert Lower(line[8]) != Lower(CONTENT_TYPE[8]);
    assert line[|DISPOSITION|..] == " " + s1;
    SkipOneSpace(s1);
    assert s1[|FORM_DATA|..] == " " + s2;
    SkipOneSpace(s2);
    assert s2[|NAME|..] == s3;
    SeenIffGood(info);
  }

  lemma ReadType(info: FileInfo, contentType: string)
    requires contentType != "" && Trimmed(contentType)
    ensures ReadHeader(info, "Content-Type:" + (" " + contentType)) == info.(contentType := contentType)
  {
    var line := "Content-Type:" + (" " + contentType);
    assert line[|CONTENT_TYPE|..] == " " + contentType;
    assert (" " + contentType)[1..] == contentType;
    assert TrimLeft(" " + contentType) == TrimLeft(contentType) == contentType;
    forall i | 0 <= i < |CONTENT_TYPE| ensures Lower(line[i]) == Lower(CONTENT_TYPE[i]) {
      assert line[i] == "Content-Type:"[i];
    }
  }

  // ---------- nothing else is ever read ----------

  ghost predicate AllReadable(p: Parser) {
    Readable(p.info) && forall x :: x in p.items ==> Readable(x.info)
  }

  lemma FreeSlice(s: string, p: string, i: nat, j: nat)
    requires Free(s, p) && i <= j <= |s|
    ensures Free(s[i..j], p)
  {
    forall k | 0 <= k <= j - i ensures !StartsWith(s[i..j][k..], p) {
      assert !StartsWith(s[i + k..], p);
      if |p| <= j - i - k { assert s[i..j][k..][..|p|] == s[i + k..][..|p|]; }
    }
  }

  lemma {:induction false} TrimLeftFree(s: string, p: string)
    requires Free(s, p)
    ensures Free(TrimLeft(s), p) && (TrimLeft(s) == "" || !IsBlank(TrimLeft(s)[0]))
  {
    hide Free;
    if s != "" && IsBlank(s[0]) {
      FreeSlice(s, p, 1, |s|);
      assert s[1..|s|] == s[1..];
      TrimLeftFree(s[1..], p);
    }
  }

  lemma {:induction false} TrimRightFree(s: string, p: string)
    requires Free(s, p) && (s == "" || !IsBlank(s[0]))
    ensures Free(TrimRight(s), p) && Trimmed(TrimRight(s))
  {
    hide Free;
    if s != "" && IsBlank(s[|s| - 1]) {
      FreeSlice(s, p, 0, |s| - 1);
      var t := s[..|s| - 1];
      assert s[0..|s| - 1] == t && (t == "" || t[0] == s[0]);
      TrimRightFree(t, p);
    }
  }

  lemma {:induction false} MatchFilenameOneLine(s: string, n: nat)
    requires n <= |s| && OneLine(s[..n])
    ensures MatchFilename(s, n).Some? ==> OneLine(MatchFilename(s, n).value)
    decreases |s| - n
  {
    if n < |s| && !LineEnd(s[n]) {
      assert s[..n + 1] == s[..n] + [s[n]];
      MatchFilenameOneLine(s, n + 1);
    }
  }

  lemma MatchTailOneLine(s: string)
    ensures MatchTail(s).Some? ==> OneLine(MatchTail(s).value)
  {
    var afterSpace := if s != "" && s[0] == ';' then SkipSpace(s[1..]) else "";
    if StartsWithNoCase(afterSpace, FILENAME) { MatchFilenameOneLine(afterSpace[|FILENAME|..], 0); }
  }

  lemma {:induction false} MatchNameOneLine(s: string, n: nat)
    requires n <= |s| && OneLine(s[..n])
    ensures var r := MatchName(s, n); r.Some? ==> OneLine(r.value.0) && OneLine(r.value.1)
    decreases |s| - n
  {
    hide MatchTail;
    if n < |s| {
      MatchTailOneLine(s[n + 1..]);
      if !LineEnd(s[n]) {
        assert s[..n + 1] == s[..n] + [s[n]];
        MatchNameOneLine(s, n + 1);
      }
    }
  }

  lemma MatchDispositionOneLine(line: string)
    ensures var r := MatchDisposition(line); r.Some? ==> OneLine(r.value.0) && OneLine(r.value.1)
  {
    hide MatchName;
    if StartsWithNoCase(line, DISPOSITION) {
      var s1 := SkipSpace(line[|DISPOSITION|..]);
      if StartsWithNoCase(s1, FORM_DATA) {
        var s2 := SkipSpace(s1[|FORM_DATA|..]);
        if StartsWithNoCase(s2, NAME) { MatchNameOneLine(s2[|NAME|..], 0); }
      }
    }
  }

  lemma ReadHeaderReadable(info: FileInfo, line: string)
    requires Readable(info) && Free(line, CRLF)
    ensures Readable(ReadHeader(info, line))
  {
    hide MatchDisposition, TrimLeft, TrimRight, Free;
    if StartsWithNoCase(line, CONTENT_TYPE) {
      FreeSlice(line, CRLF, |CONTENT_TYPE|, |line|);
      assert line[|CONTENT_TYPE|..|line|] == line[|CONTENT_TYPE|..];
      TrimLeftFree(line[|CONTENT_TYPE|..], CRLF);
      TrimRightFree(TrimLeft(line[|CONTENT_TYPE|..]), CRLF);
    } else {
      MatchDispositionOneLine(line);
    }
  }

  lemma FreeBefore(s: string, p: string)
    requires p != ""
    ensures Free(s[..Find(s, p)], p)
  {
    var a := s[..Find(s, p)];
    forall k | 0 <= k <= |a| ensures !StartsWith(a[k..], p) {
      if |p| <= |a| - k {
        assert !StartsWith(s[k..], p);
        assert a[k..][..|p|] == s[k..][..|p|];
      }
    }
  }

  lemma {:induction false} HeadersReadable(p: Parser, buf: string)
    requires p.state == 2 && AllReadable(p)
    ensures AllReadable(Headers(p, buf).0)
    decreases |buf|
  {
    hide ReadHeader, Find, Readable;
    var pos := Find(buf, CRLF);
    if 0 < pos < |buf| {
      FreeBefore(buf, CRLF);
      ReadHeaderReadable(p.info, buf[..pos]);
      HeadersReadable(p.(info := ReadHeader(p.info, buf[..pos])), buf[pos + 2..]);
    }
  }

  lemma ContentReadable(p: Parser, data: string)
    requires AllReadable(p)
    ensures AllReadable(p.(items := ContentCall(p.items, data)))
  {
    hide Readable;
    if p.items != [] {
      assert p.items[|p.items| - 1] in p.items;
      assert forall x :: x in p.items[..|p.items| - 1] ==> x in p.items;
    }
  }

  function After(r: Round): Parser { if r.Go? then r.parser else r.outcome.parser }

  lemma BodyTurnReadable(b: string, p: Parser, buf: string)
    requires AllReadable(p)
    ensures AllReadable(After(BodyTurn(b, p, buf)))
  {
    hide Readable, ContentCall, Find;
    if |CRLF + DASHES| <= |buf| {
      ContentReadable(p, buf[..Find(buf, CRLF + DASHES)]);
      var (q, rest) := BodyHead(p, buf);
      if |Pattern(b)| <= |rest| {
        var pos := Find(rest, Pattern(b));
        ContentReadable(q, if pos < |rest| then rest[..pos] else rest[..|Pattern(b)|]);
      }
    }
  }

  lemma TurnReadable(b: string, p: Parser, buf: string)
    requires buf != "" && AllReadable(p)
    ensures AllReadable(After(Turn(b, p, buf)))
  {
    hide BodyTurn, Headers, Find;
    match p.state {
      case 2 => HeadersReadable(p, buf);
      case 3 => BodyTurnReadable(b, p, buf);
      case _ =>
    }
  }

  /** Whatever bytes come, names are single lines, and content types are trimmed and free of line ends. */
  lemma {:induction false} RunReadable(b: string, p: Parser, buf: string)
    requires AllReadable(p)
    ensures AllReadable(Run(b, p, buf).parser)
    decreases |buf|, if p.state == 1 then 1 else 0
  {
    hide Turn, AllReadable;
    if buf != "" {
      TurnReadable(b, p, buf);
      match Turn(b, p, buf) {
        case Go(q, rest) => RunReadable(b, q, rest);
        case Return(_) =>
      }
    }
  }
}
