/**
 Multipart form data (section 4 of RFC 7578, section 5.1.1 of RFC 2046): what the parser computes from a
 body, what the client prints, and when the one undoes the other.
 */
module Multipart {
  import opened Strings
  import opened Wrappers

  datatype FileInfo = FileInfo(name: string, filename: string, contentType: string)
  datatype Item = Item(info: FileInfo, content: string)

  const NO_INFO := FileInfo("", "", "")

  // ---------- header lines ----------

  predicate LineEnd(c: char) { c == '\r' || c == '\n' }

  const FILENAME := "filename=\""

  /** The rest of a line after a quoted name: optionally a file name, then white space. */
  function MatchTail(s: string): Option<string> {
    var afterSpace := if s != "" && s[0] == ';' then SkipSpace(s[1..]) else "";
    var r := if StartsWithNoCase(afterSpace, FILENAME) then MatchFilename(afterSpace[|FILENAME|..], 0) else None;
    if r.Some? then r else if AllSpace(s) then Some("") else None
  }

  /** The shortest prefix, at least `n` long, that a quote and white space follow. */
  function MatchFilename(s: string, n: nat): Option<string>
    requires n <= |s|
    decreases |s| - n
  {
    if n == |s| then None
    else if s[n] == '"' && AllSpace(s[n + 1..]) then Some(s[..n])
    else if LineEnd(s[n]) then None
    else MatchFilename(s, n + 1)
  }

  /** The shortest prefix, at least `n` long, that a quote and a valid tail follow. */
  function MatchName(s: string, n: nat): Option<(string, string)>
    requires n <= |s|
    decreases |s| - n
  {
    if n == |s| then None
    else if s[n] == '"' && MatchTail(s[n + 1..]).Some? then Some((s[..n], MatchTail(s[n + 1..]).value))
    else if LineEnd(s[n]) then None
    else MatchName(s, n + 1)
  }

  const DISPOSITION := "Content-Disposition:"
  const FORM_DATA := "form-data;"
  const NAME := "name=\""
  const CONTENT_TYPE := "content-type:"

  /** The name and file name of a `Content-Disposition: form-data` line. */
  function MatchDisposition(line: string): Option<(string, string)> {
    if !StartsWithNoCase(line, DISPOSITION) then None else
      var s1 := SkipSpace(line[|DISPOSITION|..]);
      if !StartsWithNoCase(s1, FORM_DATA) then None else
        var s2 := SkipSpace(s1[|FORM_DATA|..]);
        if !StartsWithNoCase(s2, NAME) then None else MatchName(s2[|NAME|..], 0)
  }

  function ReadHeader(info: FileInfo, line: string): FileInfo {
    if StartsWithNoCase(line, CONTENT_TYPE) then info.(contentType := Trim(line[|CONTENT_TYPE|..]))
    else
      match MatchDisposition(line)
      case Some((name, filename)) => info.(name := name, filename := filename)
      case None => info
  }

  // ---------- the parser ----------

  /** `items` is what the callbacks have been given: one item a header call, extended by content calls. */
  datatype Parser = Parser(state: nat, valid: bool, info: FileInfo, items: seq<Item>)

  datatype Outcome = Outcome(parser: Parser, buffer: string, ok: bool)

  const START := Parser(0, false, NO_INFO, [])

  function HeaderCall(items: seq<Item>, info: FileInfo): seq<Item> { items + [Item(info, "")] }

  function ContentCall(items: seq<Item>, data: string): seq<Item> {
    if items == [] then [] else
      var last := items[|items| - 1];
      items[..|items| - 1] + [last.(content := last.content + data)]
  }

  /** State 2: header lines up to an empty one. Leaves state 2 only when that was found. */
  function Headers(p: Parser, buf: string): (r: (Parser, string))
    requires p.state == 2
    ensures r.0.state == 2 || (r.0.state == 3 && |r.1| < |buf|)
    ensures r.0.state == 2 ==> r.0.items == p.items
    ensures r.0.state == 3 ==> r.0.items == HeaderCall(p.items, r.0.info)
    decreases |buf|
  {
    var pos := Find(buf, CRLF);
    if pos >= |buf| then (p, buf)
    else if pos == 0 then (p.(state := 3, items := HeaderCall(p.items, p.info)), buf[2..])
    else Headers(p.(info := ReadHeader(p.info, buf[..pos])), buf[pos + 2..])
  }

  const DASHES := "--"

  function Pattern(b: string): string { CRLF + DASHES + b }

  /** State 3, first half: hand over everything before something that may be a delimiter. */
  function BodyHead(p: Parser, buf: string): (Parser, string) {
    var pos := Find(buf, CRLF + DASHES);
    (p.(items := ContentCall(p.items, buf[..pos])), buf[pos..])
  }

  /** State 3, second half, on a buffer that is long enough. */
  function BodyTail(b: string, p: Parser, buf: string): (Parser, string)
    requires |Pattern(b)| <= |buf|
  {
    var n, pos := |Pattern(b)|, Find(buf, Pattern(b));
    if pos < |buf| then (p.(items := ContentCall(p.items, buf[..pos]), state := 4), buf[pos + n..])
    else (p.(items := ContentCall(p.items, buf[..n])), buf[n..])
  }

  datatype Round = Go(parser: Parser, buffer: string) | Return(outcome: Outcome)

  /** A turn in state 3. */
  function BodyTurn(b: string, p: Parser, buf: string): (r: Round)
    ensures r.Go? ==> |r.buffer| < |buf|
  {
    if |CRLF + DASHES| > |buf| then Return(Outcome(p, buf, true)) else
      var (q, rest) := BodyHead(p, buf);
      if |Pattern(b)| > |rest| then Return(Outcome(q, rest, true)) else
        var (q', rest') := BodyTail(b, q, rest);
        Go(q', rest')
  }

  /** One turn of the loop in `parse`, on a buffer that is not empty. */
  function Turn(b: string, p: Parser, buf: string): (r: Round)
    requires buf != ""
    ensures r.Go? ==> |r.buffer| < |buf| || (|r.buffer| == |buf| && p.state == 1 && r.parser.state == 2)
  {
    match p.state
    case 0 =>
      var pattern := DASHES + b + CRLF;
      if |pattern| > |buf| then Return(Outcome(p, buf, true))
      else if !StartsWith(buf, pattern) then Return(Outcome(p, buf, false))
      else Go(p.(state := 1), buf[|pattern|..])
    case 1 => Go(p.(info := NO_INFO, state := 2), buf)
    case 2 =>
      var (q, rest) := Headers(p, buf);
      if q.state != 3 then Return(Outcome(q, rest, true)) else Go(q, rest)
    case 3 => BodyTurn(b, p, buf)
    case 4 =>
      if |CRLF| > |buf| then Return(Outcome(p, buf, true))
      else if StartsWith(buf, CRLF) then Go(p.(state := 1), buf[2..])
      else if |DASHES + CRLF| > |buf| then Return(Outcome(p, buf, true))
      else if StartsWith(buf, DASHES + CRLF) then Go(p.(valid := true, state := 5), buf[4..])
      else Return(Outcome(p, buf, true))
    case _ => Return(Outcome(p.(valid := false), buf, false))
  }

  /** `parse`, from the point where the new data is in the buffer. */
  function Run(b: string, p: Parser, buf: string): Outcome
    decreases |buf|, if p.state == 1 then 1 else 0
  {
    if buf == "" then Outcome(p, buf, true) else
      match Turn(b, p, buf)
      case Go(q, rest) => Run(b, q, rest)
      case Return(outcome) => outcome
  }

  // ---------- the printer ----------

  predicate BoundaryChar(c: char) {
    'a' <= c <= 'z' || 'A' <= c <= 'Z' || '0' <= c <= '9' || c == '-' || c == '_'
  }

  predicate ValidBoundary(b: string) { forall c :: c in b ==> BoundaryChar(c) }

  function FilenamePart(filename: string): string {
    if filename == "" then "" else ";" + (" " + (FILENAME + (filename + "\"")))
  }

  function DispositionLine(info: FileInfo): string {
    DISPOSITION + (" " + (FORM_DATA + (" " + (NAME + (info.name + "\"" + FilenamePart(info.filename))))))
  }

  function TypeLine(info: FileInfo): string {
    if info.contentType == "" then "" else "Content-Type:" + (" " + info.contentType) + CRLF
  }

  function PrintItem(b: string, x: Item): string {
    DASHES + b + CRLF + DispositionLine(x.info) + CRLF + TypeLine(x.info) + CRLF + x.content + CRLF
  }

  function PrintItems(b: string, items: seq<Item>): string {
    if items == [] then "" else PrintItem(b, items[0]) + PrintItems(b, items[1..])
  }

  function Print(b: string, items: seq<Item>): string {
    PrintItems(b, items) + DASHES + b + DASHES + CRLF
  }
}
