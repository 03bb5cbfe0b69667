/**
 A body that reaches the parser in pieces, one call of `parse` for each: when the result is that of a single call. The
 parser hands content over before it knows that no delimiter begins in it, so it may miss one that is cut in two.
 */
module MultipartSplits {
  import opened Strings
  import opened Multipart
  import opened MultipartNames
  import opened MultipartParsers
  import opened MultipartRoundTrip

  function Join(pieces: seq<string>): string {
    if pieces == [] then "" else pieces[0] + Join(pieces[1..])
  }

  /** One call for each piece, up to the first call that fails. */
  function Feed(b: string, p: Parser, buf: string, pieces: seq<string>): Outcome
    decreases |pieces|
  {
    if pieces == [] then Outcome(p, buf, true) else
      var o := Run(b, p, buf + pieces[0]);
      if o.ok then Feed(b, o.parser, o.buffer, pieces[1..]) else o
  }

  /** A server passes what each read of the connection gives it to the parser. */
  method ReceiveBody(parser: MultipartFormDataParser, pieces: seq<string>, r: Receiver) returns (ok: bool)
    requires parser.Valid()
    modifies parser, r
    ensures parser.Valid()
    ensures Outcome(parser.Abs(r), parser.View(), ok)
            == Feed(parser.boundary, old(parser.Abs(r)), old(parser.View()), pieces)
  {
    hide Run;
    var i := 0;
    while i < |pieces|
      invariant i <= |pieces| && parser.Valid()
      invariant Feed(parser.boundary, parser.Abs(r), parser.View(), pieces[i..])
                == Feed(parser.boundary, old(parser.Abs(r)), old(parser.View()), pieces)
    {
      assert pieces[i..][0] == pieces[i] && pieces[i..][1..] == pieces[i + 1..];
      ok := parser.Parse(pieces[i], r);
      if !ok { return; }
      i := i + 1;
    }
    return true;
  }

  // ---------- what is lost ----------

  /** How much of content without a delimiter one call hands over; the rest stays in the buffer. */
  function Handed(b: string, c: string): (h: nat)
    ensures h <= |c|
    decreases |c|
  {
    if |c| < |CRLF + DASHES| then 0 else
      var pos, n := Find(c, CRLF + DASHES), |Pattern(b)|;
      if |c| - pos < n then pos else pos + n + Handed(b, c[pos + n..])
  }

  /** The content at the end of what one call is given, when the delimiter behind it is still to come. */
  function BodyPart(b: string, p: Parser, s: string): string
    decreases |s|, if p.state == 1 then 1 else 0
  {
    if s == "" then "" else if p.state == 3 && Find(s, Pattern(b)) == |s| then s else
      match Turn(b, p, s)
      case Go(q, rest) => BodyPart(b, q, rest)
      case Return(_) => ""
  }

  /** A delimiter begins in the content that is handed over, and ends in what comes behind. */
  ghost predicate Loses(b: string, p: Parser, s: string, next: string) {
    var c := BodyPart(b, p, s);
    exists i :: 0 <= i < Handed(b, c) && StartsWith((c + next)[i..], Pattern(b))
  }

  ghost predicate NoLoss(b: string, p: Parser, buf: string, pieces: seq<string>)
    decreases |pieces|
  {
    pieces == [] ||
    var s := buf + pieces[0];
    var o := Run(b, p, s);
    o.ok ==> !Loses(b, p, s, Join(pieces[1..])) && NoLoss(b, o.parser, o.buffer, pieces[1..])
  }

  // ---------- what can be told from outside ----------

  datatype Shown = Shown(state: nat, valid: bool, info: FileInfo, items: seq<Item>, ok: bool)

  /** The parser after a call; content that waits in the buffer is counted to its item. */
  function Show(o: Outcome): Shown {
    var p := o.parser;
    Shown(p.state, p.valid, p.info, if p.state == 3 then ContentCall(p.items, o.buffer) else p.items, o.ok)
  }

  // ---------- longer input ----------

  lemma FindExtend(s: string, p: string, t: string)
    requires p != "" && Find(s, p) < |s|
    ensures Find(s + t, p) == Find(s, p)
  {
    var pos := Find(s, p);
    assert StartsWith((s + t)[pos..], p) by { assert (s + t)[pos..][..|p|] == s[pos..][..|p|]; }
    forall j | 0 <= j < pos ensures !StartsWith((s + t)[j..], p) {
      assert (s + t)[j..][..|p|] == s[j..][..|p|];
    }
  }

  lemma DropExtend(s: string, t: string, n: nat)
    requires n <= |s|
    ensures (s + t)[n..] == s[n..] + t
    ensures (s + t)[..n] == s[..n]
  {
  }

  lemma {:induction false} HeadersExtend(p: Parser, s: string, t: string)
    requires p.state == 2
    ensures var (q, rest) := Headers(p, s);
      Headers(p, s + t) == if q.state == 3 then (q, rest + t) else Headers(q, rest + t)
    decreases |s|
  {
    hide Find, ReadHeader, HeaderCall;
    var pos := Find(s, CRLF);
    if pos < |s| {
      FindExtend(s, CRLF, t);
      DropExtend(s, t, pos);
      DropExtend(s, t, pos + 2);
      if pos > 0 { HeadersExtend(p.(info := ReadHeader(p.info, s[..pos])), s[pos + 2..], t); }
    }
  }

  lemma StartExtend(s: string, t: string, p: string)
    requires |p| <= |s|
    ensures StartsWith(s + t, p) <==> StartsWith(s, p)
  {
    assert (s + t)[..|p|] == s[..|p|];
  }

  /** Outside of content, a turn on longer input does the same. */
  lemma TurnExtend(b: string, p: Parser, s: string, t: string)
    requires s != "" && p.state != 3 && Turn(b, p, s).Go?
    ensures Turn(b, p, s + t) == Go(Turn(b, p, s).parser, Turn(b, p, s).buffer + t)
  {
    hide BodyTurn, Headers, StartsWith;
    match p.state {
      case 0 =>
        StartExtend(s, t, DASHES + b + CRLF);
        DropExtend(s, t, |DASHES + b + CRLF|);
      case 2 => HeadersExtend(p, s, t);
      case 4 =>
        StartExtend(s, t, CRLF);
        DropExtend(s, t, 2);
        if |s| >= 4 {
          StartExtend(s, t, DASHES + CRLF);
          DropExtend(s, t, 4);
        }
      case _ =>
    }
  }

  lemma RunTurn(b: string, p: Parser, s: string)
    requires s != ""
    ensures var r := Turn(b, p, s); Run(b, p, s) == if r.Go? then Run(b, r.parser, r.buffer) else r.outcome
  {
    hide Turn;
  }

  /** Where it stops, outside of content, the next call takes it up. */
  lemma StopExtend(b: string, p: Parser, s: string, t: string)
    requires s != "" && p.state != 3 && Turn(b, p, s).Return?
    ensures var o := Turn(b, p, s).outcome;
      Show(if o.ok then Run(b, o.parser, o.buffer + t) else o) == Show(Run(b, p, s + t))
  {
    hide BodyTurn, Headers, Run;
    RunTurn(b, p, s + t);
    match p.state {
      case 0 => if |s| >= |DASHES + b + CRLF| { StartExtend(s, t, DASHES + b + CRLF); }
      case 2 => StopInHeaders(b, p, s, t);
      case _ =>
    }
  }

  lemma StopInHeaders(b: string, p: Parser, s: string, t: string)
    requires s != "" && p.state == 2
    ensures var (q, rest) := Headers(p, s); q.state == 2 ==> Run(b, q, rest + t) == Run(b, p, s + t)
  {
    hide Headers, BodyTurn, Run;
    var (q, rest) := Headers(p, s);
    HeadersExtend(p, s, t);
    RunTurn(b, p, s + t);
    if rest + t != "" {
      RunTurn(b, q, rest + t);
    } else {
      assert s + t == s;
      RunNothing(b, q);
    }
  }

  lemma RunNothing(b: string, p: Parser)
    ensures Run(b, p, "") == Outcome(p, "", true)
  {
  }

  // ---------- content ----------

  lemma ContentNothing(items: seq<Item>)
    ensures ContentCall(items, "") == items
  {
    if items != [] { assert items[|items| - 1].content + "" == items[|items| - 1].content; }
  }

  lemma FindNone(s: string, p: string)
    requires p != ""
    ensures Free(s, p) <==> Find(s, p) == |s|
  {
  }

  lemma FreeBehind(s: string, p: string, n: nat)
    requires Free(s, p) && n <= |s|
    ensures Free(s[n..], p)
  {
    FreeSlice(s, p, n, |s|);
    assert s[n..|s|] == s[n..];
  }

  /** Content in which no delimiter ends: part of it is handed over, and the rest stays. */
  lemma {:induction false} BodyWithout(b: string, p: Parser, c: string)
    requires p.state == 3 && Free(c, Pattern(b))
    ensures Run(b, p, c) == Outcome(p.(items := ContentCall(p.items, c[..Handed(b, c)])), c[Handed(b, c)..], true)
    decreases |c|
  {
    hide Find, Free, ContentCall, Run;
    ContentNothing(p.items);
    assert c[..0] == "" && c[0..] == c;
    if c == "" {
      RunNothing(b, p);
    } else {
      RunTurn(b, p, c);
      if |c| >= |CRLF + DASHES| {
        var (pos, n) := (Find(c, CRLF + DASHES), |Pattern(b)|);
        if |c| - pos >= n { BodyWithoutMore(b, p, c, pos, n); }
      }
    }
  }

  lemma PatternIsLong(b: string)
    ensures |Pattern(b)| >= |CRLF + DASHES| > 0
  {
  }

  lemma BodyTurnOn(b: string, p: Parser, c: string, pos: nat, n: nat)
    requires |c| >= |CRLF + DASHES| && pos == Find(c, CRLF + DASHES) && n == |Pattern(b)| <= |c[pos..]|
    requires Find(c[pos..], Pattern(b)) == |c[pos..]|
    ensures BodyTurn(b, p, c) ==
      Go(p.(items := ContentCall(ContentCall(p.items, c[..pos]), c[pos..][..n])), c[pos..][n..])
  {
    hide Find, ContentCall;
  }

  /** Something like a delimiter begins at `pos`, and as many bytes as a delimiter has go with it. */
  lemma BodyStep(b: string, p: Parser, c: string, pos: nat, n: nat)
    requires p.state == 3 && Free(c, Pattern(b)) && |c| >= |CRLF + DASHES|
    requires pos == Find(c, CRLF + DASHES) && n == |Pattern(b)| <= |c| - pos
    ensures Run(b, p, c) == Run(b, p.(items := ContentCall(p.items, c[..pos + n])), c[pos + n..])
  {
    hide Find, Free, ContentCall, Run, BodyTurn, Pattern;
    PatternIsLong(b);
    var rest := c[pos..];
    FreeBehind(c, Pattern(b), pos);
    FindNone(rest, Pattern(b));
    BodyTurnOn(b, p, c, pos, n);
    RunTurn(b, p, c);
    SlicesInTwo(p.items, c, pos, n);
  }

  lemma SlicesInTwo(items: seq<Item>, c: string, pos: nat, n: nat)
    requires pos + n <= |c|
    ensures ContentCall(ContentCall(items, c[..pos]), c[pos..][..n]) == ContentCall(items, c[..pos + n])
    ensures c[pos..][n..] == c[pos + n..]
  {
    hide ContentCall;
    ContentInTwo(items, c, pos, pos + n);
    DropInTwo(c, pos, n);
  }

  lemma HandedMore(b: string, c: string, pos: nat, n: nat)
    requires |c| >= |CRLF + DASHES| && pos == Find(c, CRLF + DASHES) && n == |Pattern(b)| <= |c| - pos
    ensures Handed(b, c) == pos + n + Handed(b, c[pos + n..])
  {
    hide Find, Pattern;
  }

  lemma BodyWithoutMore(b: string, p: Parser, c: string, pos: nat, n: nat)
    requires p.state == 3 && Free(c, Pattern(b)) && |c| >= |CRLF + DASHES|
    requires pos == Find(c, CRLF + DASHES) && n == |Pattern(b)| <= |c| - pos
    ensures Run(b, p, c) == Outcome(p.(items := ContentCall(p.items, c[..Handed(b, c)])), c[Handed(b, c)..], true)
    decreases |c|, 0
  {
    hide Find, Free, ContentCall, Run, Pattern, Handed;
    PatternIsLong(b);
    var rest := c[pos + n..];
    BodyStep(b, p, c, pos, n);
    FreeBehind(c, Pattern(b), pos + n);
    BodyWithout(b, p.(items := ContentCall(p.items, c[..pos + n])), rest);
    HandedMore(b, c, pos, n);
    SlicesInTwo(p.items, c, pos + n, Handed(b, rest));
  }

  /** Content and the delimiter behind it. */
  lemma BodyWith(b: string, p: Parser, c: string, i: nat)
    requires p.state == 3 && i == Find(c, Pattern(b)) < |c|
    ensures i + |Pattern(b)| <= |c|
    ensures Turn(b, p, c) == Go(p.(state := 4, items := ContentCall(p.items, c[..i])), c[i + |Pattern(b)|..])
    ensures Run(b, p, c) == Run(b, p.(state := 4, items := ContentCall(p.items, c[..i])), c[i + |Pattern(b)|..])
  {
    hide Run, BodyTurn, Find, ContentCall;
    StartFits(c, Pattern(b), i);
    ContentEndsAtDelimiter(b, p, c, i);
    RunTurn(b, p, c);
  }

  lemma RunWith(b: string, p: Parser, c: string, i: nat, n: nat)
    requires p.state == 3 && i == Find(c, Pattern(b)) < |c| && n == |Pattern(b)|
    ensures i + n <= |c|
    ensures Run(b, p, c) == Run(b, p.(state := 4, items := ContentCall(p.items, c[..i])), c[i + n..])
  {
    hide *;
    BodyWith(b, p, c, i);
  }

  lemma DelimiterBehind(b: string, p: Parser, all: string, h: nat, d: nat)
    requires p.state == 3 && Pattern(b) != "" && h <= d == Find(all, Pattern(b)) < |all|
    ensures Run(b, p.(items := ContentCall(p.items, all[..h])), all[h..]) == Run(b, p, all)
  {
    hide *;
    var q, n, rest := p.(items := ContentCall(p.items, all[..h])), |Pattern(b)|, all[h..];
    FindShift(all, Pattern(b), h);
    RunWith(b, p, all, d, n);
    RunWith(b, q, rest, d - h, n);
    SlicesInTwo(p.items, all, h, d - h);
    DropInTwo(all, h, d - h + n);
  }

  lemma NoDelimiterBehind(b: string, p: Parser, all: string, h: nat)
    requires p.state == 3 && h <= |all| && Free(all, Pattern(b))
    ensures Show(Run(b, p.(items := ContentCall(p.items, all[..h])), all[h..])) == Show(Run(b, p, all))
  {
    hide Run, Free, ContentCall, Show;
    FreeBehind(all, Pattern(b), h);
    ShowWithout(b, p, all);
    ShowWithout(b, p.(items := ContentCall(p.items, all[..h])), all[h..]);
    ContentInTwo(p.items, all, h, |all|);
    assert all[..|all|] == all && all[h..][..|all| - h] == all[h..];
  }

  /** Content in two calls, when no delimiter is lost. */
  lemma BodyInTwo(b: string, p: Parser, c: string, t: string)
    requires p.state == 3 && Free(c, Pattern(b))
    requires forall i :: 0 <= i < Handed(b, c) ==> !StartsWith((c + t)[i..], Pattern(b))
    ensures var o := Run(b, p, c);
      o.ok && Show(Run(b, o.parser, o.buffer + t)) == Show(Run(b, p, c + t))
  {
    hide Run, Find, ContentCall, Handed, Free, StartsWith, Show, Pattern;
    PatternIsLong(b);
    var (h, all) := (Handed(b, c), c + t);
    BodyWithout(b, p, c);
    DropExtend(c, t, h);
    var d := Find(all, Pattern(b));
    if d < |all| {
      DelimiterBehind(b, p, all, h, d);
    } else {
      FindNone(all, Pattern(b));
      NoDelimiterBehind(b, p, all, h);
    }
  }

  lemma ShowWithout(b: string, p: Parser, c: string)
    requires p.state == 3 && Free(c, Pattern(b))
    ensures Show(Run(b, p, c)) == Shown(3, p.valid, p.info, ContentCall(p.items, c), true)
  {
    hide Run, Free, ContentCall, Handed;
    BodyWithout(b, p, c);
    var h := Handed(b, c);
    ContentCalls(p.items, c[..h], c[h..]);
    assert c[..h] + c[h..] == c;
  }

  // ---------- two calls ----------

  lemma BodyPartGo(b: string, p: Parser, s: string)
    requires s != "" && !(p.state == 3 && Find(s, Pattern(b)) == |s|) && Turn(b, p, s).Go?
    ensures BodyPart(b, p, s) == BodyPart(b, Turn(b, p, s).parser, Turn(b, p, s).buffer)
  {
    hide Turn, Find;
  }

  lemma BodyPartThree(b: string, p: Parser, s: string)
    requires p.state == 3 && Find(s, Pattern(b)) == |s|
    ensures BodyPart(b, p, s) == s
  {
    hide Turn, Find;
  }

  /** Two calls do what one does, when no delimiter is lost between them. */
  lemma {:induction false} TwoCalls(b: string, p: Parser, s: string, t: string)
    requires Run(b, p, s).ok ==> !Loses(b, p, s, t)
    ensures var o := Run(b, p, s);
      Show(if o.ok then Run(b, o.parser, o.buffer + t) else o) == Show(Run(b, p, s + t))
    decreases |s|, if p.state == 1 then 1 else 0
  {
    hide Run, Turn, BodyPart, Show, Handed, Find, StartsWith;
    if s == "" {
      RunNothing(b, p);
      assert s + t == t;
    } else if p.state == 3 && Find(s, Pattern(b)) == |s| {
      FindNone(s, Pattern(b));
      BodyWithout(b, p, s);
      BodyPartThree(b, p, s);
      BodyInTwo(b, p, s, t);
    } else if Turn(b, p, s).Go? {
      var (q, rest) := (Turn(b, p, s).parser, Turn(b, p, s).buffer);
      RunTurn(b, p, s);
      BodyPartGo(b, p, s);
      GoExtend(b, p, s, t);
      TwoCalls(b, q, rest, t);
    } else {
      RunTurn(b, p, s);
      NoReturnAtDelimiter(b, p, s);
      StopExtend(b, p, s, t);
    }
  }

  lemma NoReturnAtDelimiter(b: string, p: Parser, s: string)
    requires s != "" && Turn(b, p, s).Return?
    ensures p.state == 3 ==> Find(s, Pattern(b)) == |s|
  {
    hide Turn, Find;
    if p.state == 3 && Find(s, Pattern(b)) < |s| { BodyWith(b, p, s, Find(s, Pattern(b))); }
  }

  lemma GoExtend(b: string, p: Parser, s: string, t: string)
    requires s != "" && Turn(b, p, s).Go? && !(p.state == 3 && Find(s, Pattern(b)) == |s|)
    ensures Run(b, p, s + t) == Run(b, Turn(b, p, s).parser, Turn(b, p, s).buffer + t)
  {
    hide Turn, Run, Find, ContentCall;
    if p.state == 3 {
      var i := Find(s, Pattern(b));
      BodyWith(b, p, s, i);
      FindExtend(s, Pattern(b), t);
      BodyWith(b, p, s + t, i);
      DropExtend(s, t, i);
      DropExtend(s, t, i + |Pattern(b)|);
    } else {
      TurnExtend(b, p, s, t);
      RunTurn(b, p, s + t);
    }
  }

  lemma NothingLosesNothing(b: string, p: Parser, s: string)
    ensures !Loses(b, p, s, "")
    decreases |s|, if p.state == 1 then 1 else 0
  {
    hide Turn, Find, Run;
    BodyPartIsFree(b, p, s);
    var c := BodyPart(b, p, s);
    assert c + "" == c;
  }

  lemma {:induction false} BodyPartIsFree(b: string, p: Parser, s: string)
    ensures Free(BodyPart(b, p, s), Pattern(b))
    decreases |s|, if p.state == 1 then 1 else 0
  {
    hide Turn, Find, Free;
    FindNone("", Pattern(b));
    if s != "" {
      FindNone(s, Pattern(b));
      if !(p.state == 3 && Find(s, Pattern(b)) == |s|) {
        match Turn(b, p, s) {
          case Go(q, rest) => BodyPartIsFree(b, q, rest);
          case Return(_) =>
        }
      }
    }
  }

  // ---------- contents only grow ----------

  ghost predicate Grown(before: seq<Item>, after: seq<Item>) {
    |before| <= |after| && forall i :: 0 <= i < |before| ==> before[i].content <= after[i].content
  }

  lemma GrownTransitive(x: seq<Item>, y: seq<Item>, z: seq<Item>)
    requires Grown(x, y) && Grown(y, z)
    ensures Grown(x, z)
  {
    forall i | 0 <= i < |x| ensures x[i].content <= z[i].content {
      assert x[i].content <= y[i].content <= z[i].content;
    }
  }

  lemma ContentGrows(items: seq<Item>, data: string)
    ensures Grown(items, ContentCall(items, data))
  {
  }

  lemma BodyTurnGrows(b: string, p: Parser, s: string)
    ensures Grown(p.items, After(BodyTurn(b, p, s)).items)
  {
    hide Find, ContentCall, Pattern;
    PatternIsLong(b);
    ContentNothing(p.items);
    ContentGrows(p.items, "");
    if |CRLF + DASHES| <= |s| {
      var (q, rest) := BodyHead(p, s);
      ContentGrows(p.items, s[..Find(s, CRLF + DASHES)]);
      if |Pattern(b)| <= |rest| {
        var pos := Find(rest, Pattern(b));
        ContentGrows(q.items, if pos < |rest| then rest[..pos] else rest[..|Pattern(b)|]);
        GrownTransitive(p.items, q.items, BodyTail(b, q, rest).0.items);
      }
    }
  }

  lemma TurnGrows(b: string, p: Parser, s: string)
    requires s != ""
    ensures Grown(p.items, After(Turn(b, p, s)).items)
  {
    hide BodyTurn, Headers;
    if p.state == 3 { BodyTurnGrows(b, p, s); }
  }

  lemma {:induction false} RunGrows(b: string, p: Parser, s: string)
    ensures Grown(p.items, Run(b, p, s).parser.items)
    decreases |s|, if p.state == 1 then 1 else 0
  {
    hide Turn;
    if s != "" {
      TurnGrows(b, p, s);
      match Turn(b, p, s) {
        case Go(q, rest) =>
          RunGrows(b, q, rest);
          GrownTransitive(p.items, q.items, Run(b, q, rest).parser.items);
        case Return(_) =>
      }
    }
  }

  lemma ShowGrows(o: Outcome)
    ensures Grown(o.parser.items, Show(o).items)
  {
    hide ContentCall;
    ContentGrows(o.parser.items, o.buffer);
  }

  lemma {:induction false} FeedGrows(b: string, p: Parser, buf: string, pieces: seq<string>)
    ensures Grown(p.items, Show(Feed(b, p, buf, pieces)).items)
    decreases |pieces|
  {
    hide Run, Show, Grown;
    if pieces == [] {
      ShowGrows(Outcome(p, buf, true));
    } else {
      var o, end := Run(b, p, buf + pieces[0]), Show(Feed(b, p, buf, pieces)).items;
      RunGrows(b, p, buf + pieces[0]);
      if o.ok { FeedGrows(b, o.parser, o.buffer, pieces[1..]); } else { ShowGrows(o); }
      GrownTransitive(p.items, o.parser.items, end);
    }
  }

  // ---------- a lost delimiter is not found again ----------

  /** Content belongs to an item, and a body is valid when it has ended. */
  predicate Proper(p: Parser) { (p.state == 3 ==> p.items != []) && (p.valid ==> p.state == 5) }

  lemma BodyTurnProper(b: string, p: Parser, s: string)
    requires p.state == 3 && Proper(p)
    ensures Proper(After(BodyTurn(b, p, s)))
  {
    hide Find, Pattern;
  }

  lemma TurnProper(b: string, p: Parser, s: string)
    requires s != "" && Proper(p)
    ensures Proper(After(Turn(b, p, s)))
  {
    hide BodyTurn;
    match p.state {
      case 2 => HeadersProper(p, s);
      case 3 => BodyTurnProper(b, p, s);
      case _ =>
    }
  }

  lemma {:induction false} HeadersProper(p: Parser, s: string)
    requires p.state == 2 && !p.valid
    ensures Proper(Headers(p, s).0)
    decreases |s|
  {
    hide Find, ReadHeader;
    var pos := Find(s, CRLF);
    if 0 < pos < |s| { HeadersProper(p.(info := ReadHeader(p.info, s[..pos])), s[pos + 2..]); }
  }

  lemma {:induction false} RunProper(b: string, p: Parser, s: string)
    requires Proper(p)
    ensures Proper(Run(b, p, s).parser)
    decreases |s|, if p.state == 1 then 1 else 0
  {
    hide Turn, Proper;
    if s != "" {
      TurnProper(b, p, s);
      match Turn(b, p, s) {
        case Go(q, rest) => RunProper(b, q, rest);
        case Return(_) =>
      }
    }
  }

  lemma {:induction false} FeedProper(b: string, p: Parser, buf: string, pieces: seq<string>)
    requires Proper(p)
    ensures Proper(Feed(b, p, buf, pieces).parser)
    decreases |pieces|
  {
    hide Run, Proper;
    if pieces != [] {
      var o := Run(b, p, buf + pieces[0]);
      RunProper(b, p, buf + pieces[0]);
      if o.ok { FeedProper(b, o.parser, o.buffer, pieces[1..]); }
    }
  }

  lemma FixedIsShown(o: Outcome)
    ensures Fixed(o.parser) <= Show(o).items
  {
  }

  lemma ContentLength(items: seq<Item>, data: string)
    requires items != []
    ensures var k, r := |items| - 1, ContentCall(items, data);
      |r| == |items| && |r[k].content| == |items[k].content| + |data|
  {
  }

  /** The content in which a delimiter is lost ends there in one call, and in two calls it does not. */
  lemma LostInBody(b: string, p: Parser, c: string, t: string, i: nat) returns (k: nat, n: nat)
    requires p.state == 3 && p.items != [] && Free(c, Pattern(b))
    requires i < Handed(b, c) && StartsWith((c + t)[i..], Pattern(b))
    ensures var o := Run(b, p, c); k < |o.parser.items| && n < |o.parser.items[k].content|
    ensures var all := Show(Run(b, p, c + t)).items; k < |all| && |all[k].content| == n
  {
    hide Run, Find, ContentCall, Handed, Free, StartsWith, Show, Pattern, Turn;
    PatternIsLong(b);
    var d, all := Find(c + t, Pattern(b)), c + t;
    BodyWithout(b, p, c);
    BodyWith(b, p, all, d);
    ContentLength(p.items, c[..Handed(b, c)]);
    ContentLength(p.items, all[..d]);
    k, n := |p.items| - 1, |p.items[|p.items| - 1].content| + d;
    var q, rest := p.(state := 4, items := ContentCall(p.items, all[..d])), all[d + |Pattern(b)|..];
    ItemsStay(b, q, rest);
    FixedIsShown(Run(b, q, rest));
  }

  lemma {:induction false} LostContent(b: string, p: Parser, s: string, t: string) returns (k: nat, n: nat)
    requires Proper(p) && Run(b, p, s).ok && Loses(b, p, s, t)
    ensures var o := Run(b, p, s); k < |o.parser.items| && n < |o.parser.items[k].content|
    ensures var all := Show(Run(b, p, s + t)).items; k < |all| && |all[k].content| == n
    decreases |s|, if p.state == 1 then 1 else 0
  {
    hide Run, Turn, Show, Handed, Find, StartsWith, Proper;
    var c := BodyPart(b, p, s);
    var i :| 0 <= i < Handed(b, c) && StartsWith((c + t)[i..], Pattern(b));
    if s != "" && p.state == 3 && Find(s, Pattern(b)) == |s| {
      FindNone(s, Pattern(b));
      ProperItems(p);
      k, n := LostInBody(b, p, s, t, i);
    } else if s != "" && Turn(b, p, s).Go? {
      var (q, rest) := (Turn(b, p, s).parser, Turn(b, p, s).buffer);
      RunTurn(b, p, s);
      BodyPartGo(b, p, s);
      TurnProper(b, p, s);
      GoExtend(b, p, s, t);
      k, n := LostContent(b, q, rest, t);
    } else {
      assert false;
    }
  }

  lemma ProperItems(p: Parser)
    requires Proper(p) && p.state == 3
    ensures p.items != []
  {
  }

  // ---------- any number of pieces ----------

  /**
   A body in pieces is read as it is read in one call if and only if no delimiter is lost at the end of a piece; when
   one is lost, the items are others.
   */
  lemma {:induction false} FeedIffNoLoss(b: string, p: Parser, buf: string, pieces: seq<string>)
    requires Proper(p) && Show(Run(b, p, buf)) == Show(Outcome(p, buf, true))
    ensures var f, one := Show(Feed(b, p, buf, pieces)), Show(Run(b, p, buf + Join(pieces)));
      (f == one <==> NoLoss(b, p, buf, pieces)) && (f.items == one.items <==> NoLoss(b, p, buf, pieces))
    decreases |pieces|
  {
    hide Run, Show, Loses, Proper, Grown;
    if pieces == [] {
      assert buf + "" == buf;
    } else {
      var s, t, rest := buf + pieces[0], Join(pieces[1..]), pieces[1..];
      var o := Run(b, p, s);
      assert buf + Join(pieces) == s + t;
      if o.ok && Loses(b, p, s, t) {
        var k, n := LostContent(b, p, s, t);
        FeedGrows(b, o.parser, o.buffer, rest);
        var f, one := Show(Feed(b, o.parser, o.buffer, rest)), Show(Run(b, p, s + t));
        LongerDiffers(o.parser.items, f.items, one.items, k);
      } else {
        TwoCalls(b, p, s, t);
        if o.ok {
          NothingLosesNothing(b, p, s);
          TwoCalls(b, p, s, "");
          assert o.buffer + "" == o.buffer && s + "" == s;
          RunProper(b, p, s);
          FeedIffNoLoss(b, o.parser, o.buffer, rest);
        }
      }
    }
  }

  lemma LongerDiffers(before: seq<Item>, after: seq<Item>, other: seq<Item>, k: nat)
    requires Grown(before, after) && k < |before| && k < |other| && |other[k].content| < |before[k].content|
    ensures after != other
  {
    assert before[k].content <= after[k].content;
  }

  /** Printable items come back from their body in pieces if and only if no delimiter is lost. */
  lemma PiecesReadBackIffNoLoss(b: string, items: seq<Item>, pieces: seq<string>)
    requires ValidBoundary(b) && items != [] && AllPrintable(b, items) && Join(pieces) == Print(b, items)
    ensures var r := Feed(b, START, "", pieces);
      r.parser.valid && r.parser.items == items <==> NoLoss(b, START, "", pieces)
  {
    hide Run, Feed, NoLoss, Print, AllPrintable, Join;
    ParseUndoesPrint(b, items);
    RunNothing(b, START);
    FeedIffNoLoss(b, START, "", pieces);
    FeedProper(b, START, "", pieces);
    assert "" + Print(b, items) == Print(b, items);
  }

  // ---------- a cut in one place ----------

  lemma StartCut(s: string, p: string, m: nat, j: nat)
    requires j <= m <= |s|
    ensures StartsWith(s[..m][j..], p) <==> StartsWith(s[j..], p) && j + |p| <= m
  {
    if j + |p| <= m { assert s[..m][j..][..|p|] == s[j..][..|p|]; }
  }

  lemma FindCut(s: string, p: string, m: nat)
    requires p != "" && m <= |s| && Find(s, p) < |s|
    ensures Find(s[..m], p) == if Find(s, p) + |p| <= m then Find(s, p) else m
  {
    hide Find, StartsWith;
    var d, e := Find(s, p), Find(s[..m], p);
    if e < m { StartCut(s, p, m, e); }
    if d + |p| <= m { StartCut(s, p, m, d); }
  }

  lemma FirstDelimiter(b: string, content: string, after: string)
    requires ValidBoundary(b) && Free(content, CRLF + DASHES)
    ensures var body := content + Pattern(b) + after;
      Find(body, Pattern(b)) == Find(body, CRLF + DASHES) == |content| < |body|
  {
    forall i | 0 <= i <= |content| ensures !StartsWith(content[i..], Pattern(b)) {
      if StartsWith(content[i..], Pattern(b)) { StartsWithPrefix(content[i..], CRLF + DASHES, b); }
    }
    BoundaryHasNoCR(b);
    FindDelimiter(content, Pattern(b), after);
    assert content + Pattern(b) + after == content + (CRLF + DASHES) + (b + after);
    FindDelimiter(content, CRLF + DASHES, b + after);
  }

  /** Where a call ends while the content and the delimiter behind it are read. */
  predicate EarlyInDelimiter(content: string, m: nat) { 4 <= m && |content| < m < |content| + 4 }

  lemma HandedAt(b: string, content: string, after: string, m: nat)
    requires ValidBoundary(b) && Free(content, CRLF + DASHES) && m < |content| + |Pattern(b)|
    ensures var body := content + Pattern(b) + after;
      && Find(body[..m], Pattern(b)) == m
      && Handed(b, body[..m]) == if m < 4 then 0 else if m < |content| + 4 then m else |content|
  {
    hide Find, Free;
    var body := content + Pattern(b) + after;
    FirstDelimiter(b, content, after);
    FindCut(body, Pattern(b), m);
    FindCut(body, CRLF + DASHES, m);
  }

  /**
   Content with nothing like a delimiter inside: the delimiter behind it is lost if and only if the call ends after one
   to three of its characters, and with at least four bytes of content and delimiter.
   */
  lemma CutLosesIffEarly(b: string, p: Parser, content: string, after: string, m: nat)
    requires ValidBoundary(b) && p.state == 3
    requires Free(content, CRLF + DASHES) && m < |content| + |Pattern(b)|
    ensures var body := content + Pattern(b) + after;
      Loses(b, p, body[..m], body[m..]) <==> EarlyInDelimiter(content, m)
  {
    hide Find, Free, Handed, Turn, StartsWith;
    var body := content + Pattern(b) + after;
    FirstDelimiter(b, content, after);
    HandedAt(b, content, after, m);
    BodyPartThree(b, p, body[..m]);
    assert body[..m] + body[m..] == body;
    assert StartsWith(body[|content|..], Pattern(b));
    assert forall i :: 0 <= i < |content| ==> !StartsWith(body[i..], Pattern(b));
  }

  /** A body up to and with the empty line behind the headers of its first item. */
  function HeadText(b: string, x: Item): string {
    DASHES + b + CRLF + (DispositionLine(x.info) + CRLF + (TypeLine(x.info) + CRLF))
  }

  lemma RegroupHead(d: string, b: string, c: string, l: string, t: string, r: string)
    ensures d + b + c + (l + c + (t + c)) + r == d + b + (c + (l + c + (t + (c + r))))
    ensures d + b + c + (l + c + (t + c)) + r == d + b + c + (l + c + (t + (c + r)))
  {
    assert l + c + (t + c) + r == l + c + (t + (c + r));
  }

  lemma PrintFirst(b: string, items: seq<Item>)
    requires items != []
    ensures Print(b, items)
            == HeadText(b, items[0]) + (items[0].content + Pattern(b) + AfterBoundary(b, items[1..]))
  {
    hide DispositionLine, TypeLine, Print;
    var x := items[0];
    PrintIsAfterBoundary(b, items);
    RegroupHead(DASHES, b, CRLF, DispositionLine(x.info), TypeLine(x.info),
                x.content + Pattern(b) + AfterBoundary(b, items[1..]));
  }

  /** From there on the first item's content is read, in calls of any length. */
  lemma HeadIsRead(b: string, x: Item, cut: string) returns (q: Parser)
    requires Readable(x.info)
    ensures q.state == 3 && Run(b, START, HeadText(b, x) + cut) == Run(b, q, cut)
    ensures BodyPart(b, START, HeadText(b, x) + cut) == BodyPart(b, q, cut)
  {
    hide Run, BodyPart, BodyTurn, Headers, DispositionLine, TypeLine, Find;
    var s0, first := HeadText(b, x) + cut, DASHES + b + CRLF;
    var s := DispositionLine(x.info) + CRLF + (TypeLine(x.info) + (CRLF + cut));
    RegroupHead(DASHES, b, CRLF, DispositionLine(x.info), TypeLine(x.info), cut);
    assert s0 == first + s && s0[..|first|] == first && s0[|first|..] == s;
    RunTurn(b, START, s0);
    BodyPartGo(b, START, s0);
    var p1 := START.(state := 1);
    RunTurn(b, p1, s);
    BodyPartGo(b, p1, s);
    var p2 := p1.(state := 2, info := NO_INFO);
    HeaderBlock(p2, x.info, cut);
    RunTurn(b, p2, s);
    BodyPartGo(b, p2, s);
    q := ReadHead(p2, SeenItem(x));
  }

  lemma NoLossInOne(b: string, p: Parser, buf: string, t: string)
    ensures NoLoss(b, p, buf, [t])
  {
    hide Run, Loses;
    assert [t][1..] == [];
    NothingLosesNothing(b, p, buf + t);
  }

  lemma NoLossInTwo(b: string, p: Parser, s: string, t: string)
    requires Run(b, p, s).ok
    ensures NoLoss(b, p, "", [s, t]) <==> !Loses(b, p, s, t)
  {
    hide Run, Loses;
    var o := Run(b, p, s);
    assert "" + s == s && [s, t][1..] == [t];
    JoinOne(t);
    NoLossInOne(b, o.parser, o.buffer, t);
  }

  lemma JoinOne(t: string)
    ensures Join([t]) == t
  {
    assert [t][1..] == [] && t + "" == t;
  }

  lemma JoinTwo(s: string, t: string)
    ensures Join([s, t]) == s + t
  {
    assert [s, t][1..] == [t];
    JoinOne(t);
  }

  lemma LosesAtCut(b: string, x: Item, after: string, m: nat)
    requires ValidBoundary(b) && Readable(x.info)
    requires Free(x.content, CRLF + DASHES) && m < |x.content| + |Pattern(b)|
    ensures var head, body := HeadText(b, x), x.content + Pattern(b) + after;
      && Run(b, START, head + body[..m]).ok
      && (Loses(b, START, head + body[..m], body[m..]) <==> EarlyInDelimiter(x.content, m))
  {
    hide Run, BodyPart, HeadText, Free, Find, EarlyInDelimiter, Handed, Readable;
    var body := x.content + Pattern(b) + after;
    var q := HeadIsRead(b, x, body[..m]);
    FirstDelimiter(b, x.content, after);
    HandedAt(b, x.content, after, m);
    FindNone(body[..m], Pattern(b));
    BodyWithout(b, q, body[..m]);
    CutLosesIffEarly(b, q, x.content, after, m);
  }

  /**
   A printable body in two pieces, the first of which ends in the first item's content or in the delimiter behind it:
   the items come back if and only if it does not end after one to three characters of that delimiter.
   */
  lemma TwoPiecesReadBackIffNotEarly(b: string, items: seq<Item>, m: nat)
    requires ValidBoundary(b) && items != [] && AllPrintable(b, items)
    requires Free(items[0].content, CRLF + DASHES) && m < |items[0].content| + |Pattern(b)|
    ensures var k := |HeadText(b, items[0])| + m;
      k <= |Print(b, items)| &&
      var r := Feed(b, START, "", [Print(b, items)[..k], Print(b, items)[k..]]);
      r.parser.valid && r.parser.items == items <==> !EarlyInDelimiter(items[0].content, m)
  {
    hide Run, Print, Feed, NoLoss, Loses, HeadText, Free, AllPrintable, EarlyInDelimiter, Pattern;
    var x, after := items[0], AfterBoundary(b, items[1..]);
    var head, body := HeadText(b, x), x.content + Pattern(b) + after;
    PrintableParts(b, items);
    PrintFirst(b, items);
    DropInBoth(head, body, m);
    LosesAtCut(b, x, after, m);
    NoLossInTwo(b, START, head + body[..m], body[m..]);
    JoinTwo(head + body[..m], body[m..]);
    assert head + body[..m] + body[m..] == head + body;
    PiecesReadBackIffNoLoss(b, items, [head + body[..m], body[m..]]);
  }

  lemma DropInBoth(head: string, body: string, m: nat)
    requires m <= |body|
    ensures (head + body)[..|head| + m] == head + body[..m] && (head + body)[|head| + m..] == body[m..]
  {
  }
}
