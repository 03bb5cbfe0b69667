/**
 What the client prints and the parser reads, in full: the texts of header lines, boundaries and bodies as they go over
 the wire (section 4 of RFC 7578), and what becomes of texts that this client does not print.
 */
module MultipartTexts {
  import opened Strings
  import opened Multipart
  import opened MultipartNames
  import opened MultipartRoundTrip
  import opened MultipartSplits
  import opened Wrappers

  const FIELD_TEXT := "Content-Disposition: form-data; name=\""
  const FILE_TEXT := "; filename=\""
  const TYPE_TEXT := "Content-Type: "
  const LINE_BREAK := "\r\n"
  const QUOTE := "\""
  const HYPHENS := "--"

  lemma TextsInFull()
    ensures FIELD_TEXT == DISPOSITION + (" " + (FORM_DATA + (" " + NAME)))
    ensures FILE_TEXT == ";" + (" " + FILENAME)
    ensures TYPE_TEXT == "Content-Type:" + " "
    ensures CRLF == LINE_BREAK && DASHES == HYPHENS && QUOTE == "\""
  {
  }

  // ---------- what is printed ----------

  function FieldLine(info: FileInfo): string {
    FIELD_TEXT + info.name + QUOTE + if info.filename == "" then "" else FILE_TEXT + info.filename + QUOTE
  }

  lemma RegroupField(a: string, b: string, c: string, d: string, e: string, n: string, q: string, r: string)
    ensures a + (b + (c + (d + (e + (n + q + r))))) == a + (b + (c + (d + e))) + n + q + r
  {
    assert e + (n + q + r) == e + n + q + r;
    assert d + (e + n + q + r) == d + e + n + q + r;
    assert c + (d + e + n + q + r) == c + (d + e) + n + q + r;
    assert b + (c + (d + e) + n + q + r) == b + (c + (d + e)) + n + q + r;
  }

  lemma LineInFull(info: FileInfo)
    ensures DispositionLine(info) == FieldLine(info)
  {
    hide FIELD_TEXT, FILE_TEXT, TYPE_TEXT, LINE_BREAK, QUOTE, DISPOSITION, FORM_DATA, NAME, FILENAME, CRLF;
    TextsInFull();
    RegroupField(DISPOSITION, " ", FORM_DATA, " ", NAME, info.name, "\"", FilenamePart(info.filename));
    RegroupFile(";", " ", FILENAME, info.filename, "\"");
  }

  lemma RegroupFile(a: string, b: string, c: string, n: string, q: string)
    ensures a + (b + (c + (n + q))) == a + (b + c) + n + q
  {
  }

  /** A printed item: its boundary, its header lines, an empty line and its content. */
  lemma ItemInFull(b: string, x: Item)
    ensures PrintItem(b, x) ==
      HYPHENS + b + LINE_BREAK + FieldLine(x.info) + LINE_BREAK
      + (if x.info.contentType == "" then "" else TYPE_TEXT + x.info.contentType + LINE_BREAK)
      + LINE_BREAK + x.content + LINE_BREAK
  {
    hide FIELD_TEXT, FILE_TEXT, TYPE_TEXT, LINE_BREAK, QUOTE, CRLF, DASHES, FieldLine, DispositionLine;
    TextsInFull();
    LineInFull(x.info);
    assert "Content-Type:" + (" " + x.info.contentType) == TYPE_TEXT + x.info.contentType;
  }

  /** A printed body: its items, and the last boundary. */
  lemma BodyInFull(b: string, items: seq<Item>)
    ensures items == [] ==> Print(b, items) == HYPHENS + b + HYPHENS + LINE_BREAK
    ensures items != [] ==> Print(b, items) == PrintItem(b, items[0]) + Print(b, items[1..])
  {
    hide LINE_BREAK, CRLF, DASHES, HYPHENS, PrintItem;
    TextsInFull();
    if items != [] { PrintCons(b, items); } else { assert "" + DASHES == DASHES; }
  }

  /** A boundary is made of letters, digits, hyphens and underscores. */
  lemma BoundaryCharsInFull(c: char)
    ensures BoundaryChar(c) <==> c in SMALL || c in CAPITALS || c in DIGITS || c == '-' || c == '_'
  {
    hide SMALL, CAPITALS, DIGITS;
    InSmall(c);
    InCapitals(c);
    InDigits(c);
  }

  // ---------- header lines that are read ----------

  /** A name as most clients write it. */
  predicate Simple(name: string) { forall c :: c in name ==> c != '"' && c != '\r' && c != '\n' }

  lemma SimpleIsGood(info: FileInfo)
    requires Simple(info.name) && Simple(info.filename) && info.contentType == ""
    ensures GoodInfo(info)
  {
    forall n | 0 <= n < |info.name| ensures !Misleads(info.name, info.filename, n) {
      assert info.name[n] in info.name;
    }
  }

  /** The line of a field, or of a file, gives its names. */
  lemma FieldIsRead(name: string, filename: string)
    requires Simple(name) && Simple(filename)
    ensures ReadHeader(NO_INFO, FieldLine(FileInfo(name, filename, ""))) == FileInfo(name, filename, "")
  {
    hide FieldLine, DispositionLine, ReadHeader, SeenNames;
    var info := FileInfo(name, filename, "");
    SimpleIsGood(info);
    LineInFull(info);
    ReadDisposition(info);
    SeenIffGood(info);
  }

  lemma SpacesInFull(c: char)
    ensures IsSpace(c) <==> c as int in {9, 10, 11, 12, 13, 32}
    ensures IsBlank(c) <==> c as int in {9, 32}
    ensures LineEnd(c) <==> c as int in {10, 13}
  {
  }

  lemma {:induction false} SkipSpaces(w: string, s: string)
    requires AllSpace(w) && s != "" && !IsSpace(s[0])
    ensures SkipSpace(w + s) == s
  {
    if w == "" {
      assert w + s == s;
    } else {
      assert w[0] in w && (forall c :: c in w[1..] ==> c in w);
      assert (w + s)[1..] == w[1..] + s;
      SkipSpaces(w[1..], s);
    }
  }

  /** `s` is this text in small letters, whatever the case of its own. */
  predicate Spells(s: string, text: string) { |s| == |text| && forall i :: 0 <= i < |s| ==> Lower(s[i]) == text[i] }

  const SMALL_DISPOSITION := "content-disposition:"
  const SMALL_FORM_DATA := "form-data;"
  const SMALL_NAME := "name=\""
  const SMALL_TYPE := "content-type:"

  lemma SpellingStarts(s: string, rest: string)
    ensures Spells(s, SMALL_DISPOSITION) ==> StartsWithNoCase(s + rest, DISPOSITION) && |s| == |DISPOSITION|
    ensures Spells(s, SMALL_FORM_DATA) ==> StartsWithNoCase(s + rest, FORM_DATA) && |s| == |FORM_DATA|
    ensures Spells(s, SMALL_NAME) ==> StartsWithNoCase(s + rest, NAME) && |s| == |NAME|
    ensures Spells(s, SMALL_TYPE) ==> StartsWithNoCase(s + rest, CONTENT_TYPE) && |s| == |CONTENT_TYPE|
  {
    forall i | 0 <= i < |DISPOSITION| ensures Lower(DISPOSITION[i]) == SMALL_DISPOSITION[i] {}
    forall i | 0 <= i < |FORM_DATA| ensures Lower(FORM_DATA[i]) == SMALL_FORM_DATA[i] {}
    forall i | 0 <= i < |NAME| ensures Lower(NAME[i]) == SMALL_NAME[i] {}
    forall i | 0 <= i < |CONTENT_TYPE| ensures Lower(CONTENT_TYPE[i]) == SMALL_TYPE[i] {}
  }

  lemma NoSpaceFirst(f: string, n: string)
    requires Spells(f, SMALL_FORM_DATA) && Spells(n, SMALL_NAME)
    ensures f != "" && !IsSpace(f[0]) && n != "" && !IsSpace(n[0])
  {
  }

  lemma NotBoth(s: string, rest: string)
    requires Spells(s, SMALL_DISPOSITION)
    ensures !StartsWithNoCase(s + rest, CONTENT_TYPE)
  {
    assert (s + rest)[8] == s[8] && Lower(CONTENT_TYPE[8]) == 't' && SMALL_DISPOSITION[8] == 'd';
  }

  /** What the parser makes of the text behind the quote that opens the name. */
  function NamesFrom(s: string): FileInfo {
    match MatchName(s, 0)
    case Some((name, filename)) => FileInfo(name, filename, "")
    case None => NO_INFO
  }

  /** The fixed parts of a disposition line may be in any case, with any white space, or none, between them. */
  lemma AnySpelling(d: string, w: string, f: string, w': string, n: string, names: string)
    requires Spells(d, SMALL_DISPOSITION) && Spells(f, SMALL_FORM_DATA) && Spells(n, SMALL_NAME)
    requires AllSpace(w) && AllSpace(w')
    ensures ReadHeader(NO_INFO, d + (w + (f + (w' + (n + names))))) == NamesFrom(names)
  {
    hide MatchName, SMALL_DISPOSITION, SMALL_FORM_DATA, SMALL_NAME, SMALL_TYPE, Spells, StartsWithNoCase;
    hide DISPOSITION, FORM_DATA, NAME, CONTENT_TYPE;
    var s2 := n + names;
    var s1 := f + (w' + s2);
    var line := d + (w + s1);
    SpellingStarts(d, w + s1);
    SpellingStarts(f, w' + s2);
    SpellingStarts(n, names);
    NotBoth(d, w + s1);
    NoSpaceFirst(f, n);
    assert line[|d|..] == w + s1 && s1[|f|..] == w' + s2 && s2[|n|..] == names;
    SkipSpaces(w, s1);
    SkipSpaces(w', s2);
  }

  /** So printed names are read in any such spelling. */
  lemma AnySpellingIsRead(d: string, w: string, f: string, w': string, n: string, info: FileInfo)
    requires Spells(d, SMALL_DISPOSITION) && Spells(f, SMALL_FORM_DATA) && Spells(n, SMALL_NAME)
    requires AllSpace(w) && AllSpace(w') && Readable(info)
    ensures ReadHeader(NO_INFO, d + (w + (f + (w' + (n + Quoted(info.name, info.filename))))))
            == Seen(info).(contentType := "")
  {
    hide MatchName, Quoted, Spells, ReadHeader;
    AnySpelling(d, w, f, w', n, Quoted(info.name, info.filename));
    SeenIffGood(info);
  }

  lemma {:induction false} FilenameThenSpace(filename: string, w: string, n: nat)
    requires Simple(filename) && AllSpace(w) && n <= |filename|
    ensures MatchFilename(filename + (QUOTE + w), n) == Some(filename)
    decreases |filename| - n
  {
    var s := filename + (QUOTE + w);
    if n < |filename| {
      assert s[n] == filename[n] && filename[n] in filename;
      FilenameThenSpace(filename, w, n + 1);
    } else {
      assert s[..n] == filename && s[n + 1..] == w;
    }
  }

  lemma TailThenSpace(filename: string, w: string)
    requires Simple(filename) && AllSpace(w)
    ensures MatchTail((if filename == "" then "" else FILE_TEXT + filename + QUOTE) + w) == Some(filename)
  {
    if filename == "" {
      assert "" + w == w;
      assert w != "" ==> w[0] in w;
    } else {
      var rest := filename + (QUOTE + w);
      var quoted := FILENAME + rest;
      hide FILENAME, FILE_TEXT;
      TextsInFull();
      var s := FILE_TEXT + filename + QUOTE + w;
      assert s == ";" + (" " + quoted);
      assert s[1..] == " " + quoted;
      FilenameBegins(rest);
      SkipOneSpace(quoted);
      assert quoted[|FILENAME|..] == rest;
      FilenameThenSpace(filename, w, 0);
    }
  }

  lemma FilenameBegins(rest: string)
    ensures var s := FILENAME + rest; s != "" && !IsSpace(s[0]) && StartsWithNoCase(s, FILENAME)
  {
  }

  lemma {:induction false} NameThenSpace(name: string, tail: string, filename: string, n: nat)
    requires Simple(name) && n <= |name| && MatchTail(tail) == Some(filename)
    ensures MatchName(name + (QUOTE + tail), n) == Some((name, filename))
    decreases |name| - n
  {
    hide MatchTail;
    var s := name + (QUOTE + tail);
    if n < |name| {
      assert s[n] == name[n] && name[n] in name;
      NameThenSpace(name, tail, filename, n + 1);
    } else {
      assert s[..n] == name && s[n + 1..] == tail;
    }
  }

  /** White space at the end of the line changes nothing. */
  lemma SpaceAtEndIsSkipped(d: string, w: string, f: string, w': string, n: string, name: string, filename: string,
                            end: string)
    requires Spells(d, SMALL_DISPOSITION) && Spells(f, SMALL_FORM_DATA) && Spells(n, SMALL_NAME)
    requires AllSpace(w) && AllSpace(w') && AllSpace(end) && Simple(name) && Simple(filename)
    ensures var tail := (if filename == "" then "" else FILE_TEXT + filename + QUOTE) + end;
      ReadHeader(NO_INFO, d + (w + (f + (w' + (n + (name + (QUOTE + tail))))))) == FileInfo(name, filename, "")
  {
    hide MatchName, MatchTail, Spells, ReadHeader, FILE_TEXT, QUOTE;
    var tail := (if filename == "" then "" else FILE_TEXT + filename + QUOTE) + end;
    TailThenSpace(filename, end);
    NameThenSpace(name, tail, filename, 0);
    AnySpelling(d, w, f, w', n, name + (QUOTE + tail));
  }

  predicate AllBlank(s: string) { forall i :: 0 <= i < |s| ==> IsBlank(s[i]) }

  lemma {:induction false} TrimLeftBlanks(a: string, s: string)
    requires AllBlank(a) && (s == "" || !IsBlank(s[0]))
    ensures TrimLeft(a + s) == s
  {
    if a == "" { assert a + s == s; } else {
      assert (a + s)[1..] == a[1..] + s;
      TrimLeftBlanks(a[1..], s);
    }
  }

  lemma {:induction false} TrimRightBlanks(s: string, a: string)
    requires AllBlank(a) && (s == "" || !IsBlank(s[|s| - 1]))
    ensures TrimRight(s + a) == s
  {
    if a == "" { assert s + a == s; } else {
      assert (s + a)[..|s + a| - 1] == s + a[..|a| - 1];
      TrimRightBlanks(s, a[..|a| - 1]);
    }
  }

  lemma TypeIsRead(info: FileInfo, d: string, a: string, contentType: string, c: string)
    requires Spells(d, SMALL_TYPE) && AllBlank(a) && AllBlank(c) && contentType != "" && Trimmed(contentType)
    ensures ReadHeader(info, d + (a + (contentType + c))) == info.(contentType := contentType)
  {
    hide SMALL_TYPE, SMALL_DISPOSITION, SMALL_FORM_DATA, SMALL_NAME, Spells, StartsWithNoCase, MatchDisposition;
    hide CONTENT_TYPE, TrimLeft, TrimRight;
    var rest := a + (contentType + c);
    SpellingStarts(d, rest);
    assert (d + rest)[|d|..] == rest;
    assert (contentType + c)[0] == contentType[0];
    TrimLeftBlanks(a, contentType + c);
    TrimRightBlanks(contentType, c);
  }

  /** Other header lines change nothing. */
  lemma OtherLinesAreIgnored(info: FileInfo, line: string)
    requires line == "" || (line[0] != 'c' && line[0] != 'C')
    ensures ReadHeader(info, line) == info
  {
    if line != "" { assert Lower(line[0]) != 'c'; }
    assert Lower(CONTENT_TYPE[0]) == 'c' && Lower(DISPOSITION[0]) == 'c';
  }

  // ---------- texts that are not bodies ----------

  /** A text that does not begin with the boundary is refused, and one that is shorter is kept. */
  lemma FirstLineDecides(b: string, s: string)
    ensures |s| < |b| + 4 ==> Run(b, START, s) == Outcome(START, s, true)
    ensures |s| >= |b| + 4 && s[..|b| + 4] != HYPHENS + b + LINE_BREAK ==> Run(b, START, s) == Outcome(START, s, false)
  {
    hide BodyTurn, Headers;
    if s != "" { RunTurn(b, START, s); }
  }

  /** Behind a boundary comes a line break, or hyphens and a line break; anything else is not read, ever. */
  lemma StuckBehindBoundary(b: string, p: Parser, s: string)
    requires p.state == 4 && |s| >= 4 && s[..2] != LINE_BREAK && s[..4] != HYPHENS + LINE_BREAK
    ensures Run(b, p, s) == Outcome(p, s, true)
  {
    hide BodyTurn, Headers;
    RunTurn(b, p, s);
  }

  lemma BytesAfterEnd(b: string, p: Parser, more: string)
    requires p.state == 5 && more != ""
    ensures Run(b, p, more) == Outcome(p.(valid := false), more, false)
  {
    hide BodyTurn, Headers;
    RunTurn(b, p, more);
  }

  lemma {:induction false} PartOnlyInContent(b: string, p: Parser, s: string)
    requires Run(b, p, s).parser.state != 3
    ensures BodyPart(b, p, s) == ""
    decreases |s|, if p.state == 1 then 1 else 0
  {
    hide Turn, Find, Free;
    if s != "" {
      if p.state == 3 && Find(s, Pattern(b)) == |s| {
        FindNone(s, Pattern(b));
        BodyWithout(b, p, s);
      } else if Turn(b, p, s).Go? {
        PartOnlyInContent(b, Turn(b, p, s).parser, Turn(b, p, s).buffer);
      }
    }
  }

  /** A printed body with anything behind it is refused, although its items have been handed over. */
  lemma NothingMayFollow(b: string, items: seq<Item>, more: string)
    requires ValidBoundary(b) && items != [] && AllPrintable(b, items) && more != ""
    ensures var r := Run(b, START, Print(b, items) + more);
      !r.ok && !r.parser.valid && r.parser.items == items
  {
    hide Run, Print, BodyPart, AllPrintable;
    ParseUndoesPrint(b, items);
    PartOnlyInContent(b, START, Print(b, items));
    TwoCalls(b, START, Print(b, items), more);
    var p := Parser(5, true, items[|items| - 1].info, items);
    assert "" + more == more;
    BytesAfterEnd(b, p, more);
  }
}
