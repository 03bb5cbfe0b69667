/** Parsing what was printed. */
module MultipartRoundTrip {
  import opened Strings
  import opened Multipart
  import opened MultipartNames

  // ---------- the header block ----------

  lemma FreeWithout(s: string, p: string)
    requires p != "" && p[0] !in s
    ensures Free(s, p)
  {
    forall i | 0 <= i <= |s| ensures !StartsWith(s[i..], p) {
      if |p| <= |s| - i { assert s[i] in s && s[i..][..|p|][0] == s[i]; }
    }
  }

  lemma FreePrefixed(a: string, s: string, p: string)
    requires p != "" && p[0] !in a && Free(s, p)
    ensures Free(a + s, p)
  {
    forall i | 0 <= i <= |a + s| ensures !StartsWith((a + s)[i..], p) {
      if i < |a| {
        assert (a + s)[i] == a[i];
        assert (a + s)[i..] != "" && (a + s)[i..][0] == a[i];
      } else {
        assert (a + s)[i..] == s[i - |a|..];
      }
    }
  }

  lemma DispositionFree(info: FileInfo)
    requires Readable(info)
    ensures Free(DispositionLine(info), CRLF) && DispositionLine(info) != ""
  {
    hide FilenamePart;
    QuotedEndsWithQuote(info.name, info.filename, 0);
    var s3 := NAME + Quoted(info.name, info.filename);
    assert Quoted(info.name, info.filename)[0..] == Quoted(info.name, info.filename);
    assert OneLine(NAME) && OneLine(s3);
    var s2 := FORM_DATA + (" " + s3);
    assert OneLine(FORM_DATA) && OneLine(s2);
    assert OneLine(DISPOSITION) && OneLine(DISPOSITION + (" " + s2));
    assert DispositionLine(info) == DISPOSITION + (" " + s2);
    FreeWithout(DispositionLine(info), CRLF);
  }

  lemma TypeFree(info: FileInfo)
    requires Readable(info)
    ensures Free("Content-Type:" + (" " + info.contentType), CRLF)
  {
    FreePrefixed(" ", info.contentType, CRLF);
    FreePrefixed("Content-Type:", " " + info.contentType, CRLF);
  }

  lemma OneHeader(p: Parser, line: string, rest: string)
    requires p.state == 2 && line != "" && Free(line, CRLF)
    ensures Headers(p, line + CRLF + rest) == Headers(p.(info := ReadHeader(p.info, line)), rest)
  {
    var buf := line + CRLF + rest;
    FindDelimiter(line, CRLF, rest);
    assert buf[..|line|] == line && buf[|line| + 2..] == rest;
  }

  lemma EmptyLine(p: Parser, rest: string)
    requires p.state == 2
    ensures Headers(p, CRLF + rest) == (p.(state := 3, items := HeaderCall(p.items, p.info)), rest)
  {
    var buf := CRLF + rest;
    assert Find(buf, CRLF) == 0 by { assert StartsWith(buf[0..], CRLF); }
    assert buf[2..] == rest;
  }

  lemma TypeBlock(p: Parser, info: FileInfo, rest: string)
    requires p.state == 2 && p.info.contentType == "" && Readable(info)
    ensures var read := p.info.(contentType := info.contentType);
      Headers(p, TypeLine(info) + (CRLF + rest))
      == (p.(state := 3, info := read, items := HeaderCall(p.items, read)), rest)
  {
    hide Headers, ReadHeader, HeaderCall;
    var read, empty := p.info.(contentType := info.contentType), CRLF + rest;
    if info.contentType != "" {
      var line := "Content-Type:" + (" " + info.contentType);
      TypeFree(info);
      OneHeader(p, line, empty);
      ReadType(p.info, info.contentType);
      assert TypeLine(info) + empty == line + CRLF + empty;
    } else {
      assert TypeLine(info) + empty == empty;
    }
    EmptyLine(p.(info := read), rest);
  }

  lemma HeaderBlock(p: Parser, info: FileInfo, rest: string)
    requires p.state == 2 && p.info == NO_INFO && Readable(info)
    ensures Headers(p, DispositionLine(info) + CRLF + (TypeLine(info) + (CRLF + rest)))
            == (p.(state := 3, info := Seen(info), items := HeaderCall(p.items, Seen(info))), rest)
  {
    hide Headers, DispositionLine, TypeLine, SeenNames, ReadHeader, HeaderCall;
    DispositionFree(info);
    OneHeader(p, DispositionLine(info), TypeLine(info) + (CRLF + rest));
    ReadDisposition(info);
    TypeBlock(p.(info := Seen(info).(contentType := "")), info, rest);
  }

  // ---------- the body of an item ----------

  function ItemText(b: string, x: Item, after: string): string {
    DispositionLine(x.info) + CRLF + (TypeLine(x.info) + (CRLF + (x.content + Pattern(b) + after)))
  }

  /** What follows a boundary: the rest of its line, then each item up to and with the boundary behind it. */
  function AfterBoundary(b: string, items: seq<Item>): string {
    if items == [] then DASHES + CRLF else CRLF + ItemText(b, items[0], AfterBoundary(b, items[1..]))
  }

  lemma Regroup(d: string, b: string, c: string, l: string, t: string, x: string, a: string)
    ensures d + b + c + l + c + t + c + x + c + (d + b + a) == d + b + (c + (l + c + (t + (c + (x + (c + d + b) + a)))))
  {
    assert x + c + (d + b + a) == x + (c + d + b) + a;
    assert t + c + x + c + (d + b + a) == t + (c + (x + c + (d + b + a)));
    assert l + c + t + c + x + c + (d + b + a) == l + c + (t + c + x + c + (d + b + a));
    assert d + b + c + l + c + t + c + x + c + (d + b + a) == d + b + (c + (l + c + t + c + x + c + (d + b + a)));
  }

  lemma Reassociate(a: string, r: string, d: string, b: string, c: string)
    ensures a + r + d + b + d + c == a + (r + d + b + d + c)
  {
  }

  lemma PrintCons(b: string, items: seq<Item>)
    requires items != []
    ensures Print(b, items) == PrintItem(b, items[0]) + Print(b, items[1..])
  {
    Reassociate(PrintItem(b, items[0]), PrintItems(b, items[1..]), DASHES, b, CRLF);
  }

  lemma {:induction false} PrintIsAfterBoundary(b: string, items: seq<Item>)
    ensures Print(b, items) == DASHES + b + AfterBoundary(b, items)
  {
    if items == [] {
      assert "" + DASHES + b + DASHES + CRLF == DASHES + b + (DASHES + CRLF);
    } else {
      var x, xs := items[0], items[1..];
      var after := AfterBoundary(b, xs);
      PrintIsAfterBoundary(b, xs);
      PrintCons(b, items);
      Regroup(DASHES, b, CRLF, DispositionLine(x.info), TypeLine(x.info), x.content, after);
    }
  }

  lemma ContentCalls(items: seq<Item>, d1: string, d2: string)
    ensures ContentCall(ContentCall(items, d1), d2) == ContentCall(items, d1 + d2)
  {
    if items != [] {
      var last := items[|items| - 1];
      assert last.content + (d1 + d2) == last.content + d1 + d2;
    }
  }

  lemma RunGo(b: string, p: Parser, buf: string, q: Parser, rest: string)
    requires buf != "" && Turn(b, p, buf) == Go(q, rest)
    ensures Run(b, p, buf) == Run(b, q, rest)
  {
    hide Turn;
  }

  lemma ContentInTwo(items: seq<Item>, buf: string, pos: nat, i: nat)
    requires pos <= i <= |buf|
    ensures ContentCall(ContentCall(items, buf[..pos]), buf[pos..][..i - pos]) == ContentCall(items, buf[..i])
  {
    ContentCalls(items, buf[..pos], buf[pos..][..i - pos]);
    assert buf[..pos] + buf[pos..][..i - pos] == buf[..i];
  }

  lemma StartsWithPrefix(s: string, p: string, q: string)
    requires StartsWith(s, p + q)
    ensures StartsWith(s, p)
  {
    assert s[..|p + q|][..|p|] == s[..|p|];
  }

  /** What looks like a delimiter is found no later than the delimiter, and the search goes on from there. */
  lemma FindInTwo(s: string, p: string, q: string, pos: nat)
    requires p != "" && pos == Find(s, p) && Find(s, p + q) < |s|
    ensures pos <= Find(s, p + q)
    ensures Find(s[pos..], p + q) == Find(s, p + q) - pos
  {
    StartsWithPrefix(s[Find(s, p + q)..], p, q);
    FindShift(s, p + q, pos);
  }

  lemma BodyTurnAt(b: string, p: Parser, buf: string, pos: nat, j: nat)
    requires |CRLF + DASHES| <= |buf| && pos == Find(buf, CRLF + DASHES)
    requires j == Find(buf[pos..], Pattern(b)) && j + |Pattern(b)| <= |buf[pos..]|
    ensures BodyTurn(b, p, buf) ==
      Go(p.(state := 4, items := ContentCall(ContentCall(p.items, buf[..pos]), buf[pos..][..j])),
         buf[pos..][j + |Pattern(b)|..])
  {
    hide Find, ContentCall;
  }

  /** In state 3, the content ends at the first delimiter, although it is handed over in two pieces. */
  lemma ContentEndsAtDelimiter(b: string, p: Parser, buf: string, i: nat)
    requires i == Find(buf, Pattern(b)) < |buf|
    ensures BodyTurn(b, p, buf) ==
      Go(p.(state := 4, items := ContentCall(p.items, buf[..i])), buf[i + |Pattern(b)|..])
  {
    hide BodyTurn, Find, ContentCall, StartsWith;
    var (dashes, pattern) := (CRLF + DASHES, Pattern(b));
    var pos := Find(buf, dashes);
    assert dashes + b == pattern;
    FindInTwo(buf, dashes, b, pos);
    StartFits(buf, pattern, i);
    BodyTurnAt(b, p, buf, pos, i - pos);
    DropInTwo(buf, pos, i - pos + |pattern|);
    ContentInTwo(p.items, buf, pos, i);
  }

  lemma StartFits(s: string, p: string, i: nat)
    requires i < |s| && StartsWith(s[i..], p)
    ensures i + |p| <= |s|
  {
  }

  lemma DropInTwo(s: string, m: nat, n: nat)
    requires m + n <= |s|
    ensures s[m..][n..] == s[m + n..]
  {
  }

  /** One turn in state 3, on content without the delimiter. */
  lemma ReadContent(b: string, p: Parser, content: string, after: string)
    requires ValidBoundary(b) && p.state == 3 && Free(content, Pattern(b))
    ensures BodyTurn(b, p, content + Pattern(b) + after)
            == Go(p.(state := 4, items := ContentCall(p.items, content)), after)
  {
    hide BodyTurn, ContentCall;
    var buf := content + Pattern(b) + after;
    BoundaryHasNoCR(b);
    FindDelimiter(content, Pattern(b), after);
    ContentEndsAtDelimiter(b, p, buf, |content|);
    assert buf[..|content|] == content && buf[|content| + |Pattern(b)|..] == after;
  }

  /** And on content with it: the content is cut short. */
  lemma ReadCutContent(b: string, p: Parser, content: string, after: string) returns (i: nat, rest: string)
    requires p.state == 3 && !Free(content, Pattern(b))
    ensures i < |content|
    ensures BodyTurn(b, p, content + Pattern(b) + after)
            == Go(p.(state := 4, items := ContentCall(p.items, content[..i])), rest)
  {
    hide BodyTurn, ContentCall;
    var buf := content + Pattern(b) + after;
    FindOccurrence(content, Pattern(b), after);
    i, rest := Find(buf, Pattern(b)), buf[Find(buf, Pattern(b)) + |Pattern(b)|..];
    ContentEndsAtDelimiter(b, p, buf, i);
    assert buf[..i] == content[..i];
  }

  lemma BoundaryHasNoCR(b: string)
    requires ValidBoundary(b)
    ensures Pattern(b)[0] !in Pattern(b)[1..]
  {
    assert Pattern(b)[1..] == "\n--" + b;
  }

  // ---------- round trip ----------

  /** The item is read back: no misleading name, nothing that ends a header line early, no delimiter inside. */
  ghost predicate Printable(b: string, x: Item) {
    GoodInfo(x.info) && Free(x.content, Pattern(b))
  }

  ghost predicate AllPrintable(b: string, items: seq<Item>) { forall x :: x in items ==> Printable(b, x) }

  /** The item as the parser sees it, when its content has no delimiter. */
  function SeenItem(x: Item): Item { x.(info := Seen(x.info)) }

  /** The parser after it has read the headers of `x`. */
  function ReadHead(p: Parser, x: Item): Parser {
    p.(state := 3, info := x.info, items := HeaderCall(p.items, x.info))
  }

  /** The parser after it has read `x`. */
  function Read(p: Parser, x: Item): Parser {
    p.(state := 4, info := x.info, items := p.items + [x])
  }

  function Finish(p: Parser, items: seq<Item>): Parser {
    Parser(5, true, if items == [] then p.info else items[|items| - 1].info, p.items + items)
  }

  /** Reading the headers of one item, from the line after its boundary. */
  lemma ReadInfo(b: string, p: Parser, x: Item, after: string)
    requires p.state == 1 && Readable(x.info)
    ensures Run(b, p, ItemText(b, x, after)) == Run(b, ReadHead(p, SeenItem(x)), x.content + Pattern(b) + after)
  {
    hide Run, BodyTurn, DispositionLine, TypeLine, SeenNames;
    var text, body := ItemText(b, x, after), x.content + Pattern(b) + after;
    var q := p.(state := 2, info := NO_INFO);
    RunGo(b, p, text, q, text);
    HeaderBlock(q, x.info, body);
    RunGo(b, q, text, ReadHead(p, SeenItem(x)), body);
  }

  lemma FirstContent(items: seq<Item>, info: FileInfo, content: string)
    ensures ContentCall(HeaderCall(items, info), content) == items + [Item(info, content)]
  {
    assert "" + content == content;
  }

  /** Reading one item, from the line after its boundary to the end of the next boundary. */
  lemma ReadItem(b: string, p: Parser, x: Item, after: string)
    requires ValidBoundary(b) && p.state == 1 && Readable(x.info) && Free(x.content, Pattern(b))
    ensures Run(b, p, ItemText(b, x, after)) == Run(b, Read(p, SeenItem(x)), after)
  {
    hide Run, BodyTurn, ItemText, ContentCall, HeaderCall, Seen;
    var y, body := SeenItem(x), x.content + Pattern(b) + after;
    var r := ReadHead(p, y);
    ReadInfo(b, p, x, after);
    ReadContent(b, r, x.content, after);
    FirstContent(p.items, y.info, y.content);
    RunGo(b, r, body, Read(p, y), after);
  }

  lemma ReadLastBoundary(b: string, p: Parser)
    requires p.state == 4
    ensures Run(b, p, DASHES + CRLF) == Outcome(p.(state := 5, valid := true), "", true)
  {
    hide BodyTurn, Headers;
    var buf := DASHES + CRLF;
    assert buf[0] == '-' && CRLF[0] == '\r' && buf[..2][0] == buf[0];
    assert buf[..4] == buf && buf[4..] == "";
    RunGo(b, p, buf, p.(state := 5, valid := true), "");
  }

  lemma ReadNextBoundary(b: string, p: Parser, rest: string)
    requires p.state == 4
    ensures Run(b, p, CRLF + rest) == Run(b, p.(state := 1), rest)
  {
    hide Run, BodyTurn, Headers;
    assert (CRLF + rest)[..2] == CRLF && (CRLF + rest)[2..] == rest;
    RunGo(b, p, CRLF + rest, p.(state := 1), rest);
  }

  lemma ReadFirstBoundary(b: string, rest: string)
    ensures Run(b, START, DASHES + b + (CRLF + rest)) == Run(b, START.(state := 1), rest)
  {
    hide Run, BodyTurn, Headers;
    var pattern := DASHES + b + CRLF;
    assert DASHES + b + (CRLF + rest) == pattern + rest;
    assert (pattern + rest)[..|pattern|] == pattern && (pattern + rest)[|pattern|..] == rest;
    RunGo(b, START, pattern + rest, START.(state := 1), rest);
  }

  lemma ReadInnerItem(b: string, p: Parser, x: Item, after: string)
    requires ValidBoundary(b) && p.state == 4 && Readable(x.info) && Free(x.content, Pattern(b))
    ensures Run(b, p, CRLF + ItemText(b, x, after)) == Run(b, Read(p, SeenItem(x)), after)
  {
    hide Run, ItemText, Seen;
    ReadNextBoundary(b, p, ItemText(b, x, after));
    ReadItem(b, p.(state := 1), x, after);
  }

  lemma PrintableParts(b: string, items: seq<Item>)
    requires AllPrintable(b, items) && items != []
    ensures Readable(items[0].info) && Free(items[0].content, Pattern(b)) && SeenItem(items[0]) == items[0]
    ensures AllPrintable(b, items[1..])
  {
    assert items[0] in items && Printable(b, items[0]);
    SeenIffGood(items[0].info);
    assert forall x :: x in items[1..] ==> x in items;
  }

  lemma FinishStep(p: Parser, items: seq<Item>)
    requires items != []
    ensures Finish(Read(p, items[0]), items[1..]) == Finish(p, items)
  {
    assert p.items + [items[0]] + items[1..] == p.items + items;
  }

  lemma {:induction false} ReadItems(b: string, p: Parser, items: seq<Item>)
    requires ValidBoundary(b) && p.state == 4 && AllPrintable(b, items)
    ensures Run(b, p, AfterBoundary(b, items)) == Outcome(Finish(p, items), "", true)
    decreases |items|
  {
    hide Run, ItemText, AllPrintable, SeenItem, Readable;
    if items == [] {
      ReadLastBoundary(b, p);
      assert p.items + items == p.items;
    } else {
      PrintableParts(b, items);
      ReadInnerItem(b, p, items[0], AfterBoundary(b, items[1..]));
      ReadItems(b, Read(p, items[0]), items[1..]);
      FinishStep(p, items);
    }
  }

  /** The first boundary is read as if one had just been read. */
  lemma StartIsAfterBoundary(b: string, items: seq<Item>)
    requires items != []
    ensures Run(b, START, Print(b, items)) == Run(b, START.(state := 4), AfterBoundary(b, items))
  {
    hide Run, ItemText, Print;
    var text := ItemText(b, items[0], AfterBoundary(b, items[1..]));
    PrintIsAfterBoundary(b, items);
    ReadFirstBoundary(b, text);
    ReadNextBoundary(b, START.(state := 4), text);
  }

  /**
   One call of `parse` on what `Post` prints calls back exactly the items that were printed, in order, and
   ends valid, provided all of them are printable.
   */
  lemma ParseUndoesPrint(b: string, items: seq<Item>)
    requires ValidBoundary(b) && items != [] && AllPrintable(b, items)
    ensures Run(b, START, Print(b, items)) == Outcome(Parser(5, true, items[|items| - 1].info, items), "", true)
  {
    hide Run, Print, AfterBoundary, AllPrintable;
    StartIsAfterBoundary(b, items);
    ReadItems(b, START.(state := 4), items);
    assert [] + items == items;
  }

  // ---------- when it does not ----------

  /** Items that no content will be added to any more. */
  function Fixed(p: Parser): seq<Item> {
    if p.state == 3 && p.items != [] then p.items[..|p.items| - 1] else p.items
  }

  lemma BodyTurnKeeps(b: string, p: Parser, buf: string)
    requires p.state == 3
    ensures var r := BodyTurn(b, p, buf);
      Fixed(p) <= if r.Go? then Fixed(r.parser) else Fixed(r.outcome.parser)
  {
    hide Find;
  }

  lemma TurnKeeps(b: string, p: Parser, buf: string)
    requires buf != ""
    ensures var r := Turn(b, p, buf);
      Fixed(p) <= if r.Go? then Fixed(r.parser) else Fixed(r.outcome.parser)
  {
    hide BodyTurn, Headers;
    if p.state == 3 { BodyTurnKeeps(b, p, buf); }
  }

  lemma {:induction false} ItemsStay(b: string, p: Parser, buf: string)
    ensures Fixed(p) <= Fixed(Run(b, p, buf).parser)
    decreases |buf|, if p.state == 1 then 1 else 0
  {
    hide Turn, Fixed;
    if buf != "" {
      TurnKeeps(b, p, buf);
      match Turn(b, p, buf) {
        case Go(q, rest) => ItemsStay(b, q, rest);
        case Return(_) =>
      }
    }
  }

  /** An item that is not printable, but may be read line by line, is handed over as another one. */
  lemma ReadOtherItem(b: string, p: Parser, x: Item, after: string) returns (y: Item, rest: string)
    requires ValidBoundary(b) && p.state == 4 && Readable(x.info) && !Printable(b, x)
    ensures y != x && Run(b, p, CRLF + ItemText(b, x, after)) == Run(b, Read(p, y), rest)
  {
    hide Run, BodyTurn, ItemText, ContentCall, HeaderCall, Free, Seen, Readable, GoodInfo;
    if Free(x.content, Pattern(b)) {
      y, rest := SeenItem(x), after;
      SeenIffGood(x.info);
      ReadInnerItem(b, p, x, after);
    } else {
      var r := ReadHead(p.(state := 1), SeenItem(x));
      ReadNextBoundary(b, p, ItemText(b, x, after));
      ReadInfo(b, p.(state := 1), x, after);
      var i;
      i, rest := ReadCutContent(b, r, x.content, after);
      y := Item(Seen(x.info), x.content[..i]);
      FirstContent(p.items, y.info, y.content);
      RunGo(b, r, x.content + Pattern(b) + after, Read(p, y), rest);
    }
  }

  ghost predicate ReadableInfos(items: seq<Item>) { forall x :: x in items ==> Readable(x.info) }

  lemma OtherParts(b: string, items: seq<Item>)
    requires ReadableInfos(items) && !AllPrintable(b, items)
    ensures items != [] && Readable(items[0].info)
    ensures Printable(b, items[0]) ==> Free(items[0].content, Pattern(b)) && SeenItem(items[0]) == items[0]
    ensures Printable(b, items[0]) ==> ReadableInfos(items[1..]) && !AllPrintable(b, items[1..])
  {
    assert items[0] in items && forall y :: y in items <==> y == items[0] || y in items[1..];
    SeenIffGood(items[0].info);
  }

  /** The items before the first such item are read, and then one that is not in the list. */
  lemma {:induction false} ReadOtherItems(b: string, p: Parser, items: seq<Item>) returns (q: Parser, rest: string)
    requires ValidBoundary(b) && p.state == 4 && ReadableInfos(items) && !AllPrintable(b, items)
    ensures Run(b, p, AfterBoundary(b, items)) == Run(b, q, rest) && q.state == 4 && !(q.items <= p.items + items)
    decreases |items|
  {
    hide Run, ItemText, Free, Readable, ReadableInfos, Printable, AllPrintable, SeenItem;
    OtherParts(b, items);
    var x, after := items[0], AfterBoundary(b, items[1..]);
    if Printable(b, x) {
      ReadInnerItem(b, p, x, after);
      q, rest := ReadOtherItems(b, Read(p, x), items[1..]);
      assert p.items + [x] + items[1..] == p.items + items;
    } else {
      var y;
      y, rest := ReadOtherItem(b, p, x, after);
      q := Read(p, y);
      assert q.items[|p.items|] == y && (p.items + items)[|p.items|] == x;
    }
  }

  lemma CutDiffers(some: seq<Item>, items: seq<Item>, p: Parser)
    requires !(some <= [] + items) && some <= Fixed(p)
    ensures p.items != items
  {
    assert Fixed(p) <= p.items && [] + items == items;
  }

  /** No item is ever called back that could not have been read from lines. */
  lemma NeverUnreadable(b: string, buf: string, items: seq<Item>)
    requires !ReadableInfos(items)
    ensures Run(b, START, buf).parser.items != items
  {
    hide Run;
    RunReadable(b, START, buf);
  }

  /**
   The round trip works exactly when every item is printable, whatever the names, file names, content types
   and contents are: nothing in `Post` keeps out what the parser takes for something else.
   */
  lemma RoundTripIffPrintable(b: string, items: seq<Item>)
    requires ValidBoundary(b) && items != []
    ensures var r := Run(b, START, Print(b, items));
      r.parser.valid && r.parser.items == items <==> AllPrintable(b, items)
  {
    hide Run, Print, AfterBoundary, ReadableInfos, AllPrintable;
    if AllPrintable(b, items) {
      ParseUndoesPrint(b, items);
    } else if ReadableInfos(items) {
      StartIsAfterBoundary(b, items);
      var q, rest := ReadOtherItems(b, START.(state := 4), items);
      ItemsStay(b, q, rest);
      CutDiffers(q.items, items, Run(b, q, rest).parser);
    } else {
      NeverUnreadable(b, Print(b, items), items);
    }
  }

  /** An empty list of items prints something the parser rejects. */
  lemma NoItemsIsRejected(b: string)
    ensures Run(b, START, Print(b, [])) == Outcome(START, Print(b, []), false)
  {
    hide BodyTurn, Headers;
    var buf, pattern := Print(b, []), DASHES + b + CRLF;
    assert buf == DASHES + b + (DASHES + CRLF);
    assert buf[|b| + 2] == '-' && pattern[|b| + 2] == '\r';
    assert buf[..|pattern|][|b| + 2] == buf[|b| + 2];
  }
}
