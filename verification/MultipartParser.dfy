/** The multipart parser and printer in the form of the source: a buffer with two cursors, and loops. */
module MultipartParsers {
  import opened Strings
  import opened Multipart
  import opened Wrappers

  lemma {:induction false} FindIs(s: string, p: string, pos: nat)
    requires p != "" && pos <= |s|
    requires forall i :: 0 <= i < pos ==> !StartsWith(s[i..], p)
    requires pos < |s| ==> StartsWith(s[pos..], p)
    ensures Find(s, p) == pos
  {
    var found := Find(s, p);
    assert found < |s| ==> StartsWith(s[found..], p);
  }

  /** One line in state 2. */
  lemma HeadersTurn(p: Parser, buf: string)
    requires p.state == 2
    ensures var pos := Find(buf, CRLF);
      Headers(p, buf) ==
        if pos == |buf| then (p, buf)
        else if pos == 0 then (p.(state := 3, items := HeaderCall(p.items, p.info)), buf[2..])
        else Headers(p.(info := ReadHeader(p.info, buf[..pos])), buf[pos + 2..])
  {
    hide Find, ReadHeader, HeaderCall;
  }

  /** The two callbacks, which here accept everything they are given. */
  class Receiver {
    var items: seq<Item>

    constructor ()
      ensures items == []
    {
      items := [];
    }

    method OnHeader(info: FileInfo)
      modifies this
      ensures items == HeaderCall(old(items), info)
    {
      items := items + [Item(info, "")];
    }

    method OnContent(data: string)
      modifies this
      ensures items == ContentCall(old(items), data)
    {
      if items != [] {
        var n := |items| - 1;
        items := items[..n] + [items[n].(content := items[n].content + data)];
      }
    }
  }

  class MultipartFormDataParser {
    const boundary: string
    var state: nat
    var isValid: bool
    var file: FileInfo
    var buf: string
    var spos: nat
    var epos: nat

    ghost predicate Valid()
      reads this
    {
      spos <= epos <= |buf|
    }

    /** The bytes between the two cursors. */
    ghost function View(): string
      requires Valid()
      reads this
    {
      buf[spos..epos]
    }

    ghost function Abs(r: Receiver): Parser
      reads this, r
    {
      Parser(state, isValid, file, r.items)
    }

    constructor (boundary: string)
      ensures Valid() && View() == "" && this.boundary == boundary
      ensures state == 0 && !isValid && file == NO_INFO
    {
      this.boundary := boundary;
      state, isValid, file := 0, false, NO_INFO;
      buf, spos, epos := "", 0, 0;
    }

    function BufSize(): nat
      requires Valid()
      reads this
    {
      epos - spos
    }

    /** Keeps what was not read, at the front of the buffer, and adds the new data behind it. */
    method BufAppend(data: string)
      requires Valid()
      modifies this`buf, this`spos, this`epos
      ensures Valid() && View() == old(View()) + data
    {
      var remaining := BufSize();
      var i := 0;
      while i < remaining
        invariant i <= remaining && |buf| == |old(buf)|
        invariant buf[..i] == old(View())[..i]
        invariant buf[spos + i..epos] == old(buf)[spos + i..epos]
        modifies this`buf
      {
        assert buf[spos + i] == buf[spos + i..epos][0] == old(View())[i];
        buf := buf[i := buf[spos + i]];
        i := i + 1;
      }
      spos, epos := 0, remaining;
      if remaining + |data| > |buf| {
        buf := buf + seq(remaining + |data| - |buf|, _ => '\0');
      }
      i := 0;
      while i < |data|
        invariant i <= |data| && remaining + |data| <= |buf|
        invariant buf[..remaining + i] == old(View()) + data[..i]
        modifies this`buf
      {
        buf := buf[epos + i := data[i]];
        i := i + 1;
      }
      epos := epos + |data|;
    }

    method BufErase(size: nat)
      requires Valid() && size <= |View()|
      modifies this`spos
      ensures Valid() && View() == old(View())[size..]
    {
      spos := spos + size;
    }

    /** Does `p` occur at position `at` of the buffer? */
    method StartWith(at: nat, p: string) returns (r: bool)
      requires Valid() && spos <= at <= epos
      ensures r == StartsWith(View()[at - spos..], p)
    {
      ghost var v := View()[at - spos..];
      if epos - at < |p| { return false; }
      var i := 0;
      while i < |p|
        invariant i <= |p| <= |v| && v[..i] == p[..i]
      {
        assert v[i] == buf[at + i];
        if buf[at + i] != p[i] {
          assert v[..|p|][i] != p[i];
          return false;
        }
        i := i + 1;
      }
      return true;
    }

    method BufFind(p: string) returns (r: nat)
      requires Valid() && p != ""
      ensures r == Find(View(), p)
    {
      ghost var v := View();
      var off := spos;
      while off < epos
        invariant spos <= off <= epos
        invariant forall i :: 0 <= i < off - spos ==> !StartsWith(v[i..], p)
      {
        var pos := off;
        while pos < epos && buf[pos] != p[0]
          invariant off <= pos <= epos
          invariant forall i :: 0 <= i < pos - spos ==> !StartsWith(v[i..], p)
        {
          assert v[pos - spos..][0] == buf[pos];
          pos := pos + 1;
        }
        if pos == epos {
          FindIs(v, p, |v|);
          return BufSize();
        }
        if |p| > epos - pos {
          FindIs(v, p, |v|);
          return BufSize();
        }
        var found := StartWith(pos, p);
        if found {
          FindIs(v, p, pos - spos);
          return pos - spos;
        }
        off := pos + 1;
      }
      FindIs(v, p, |v|);
      return BufSize();
    }

    /** State 2. */
    method ParseHeaders(r: Receiver)
      requires Valid() && state == 2
      modifies this, r
      ensures Valid() && isValid == old(isValid)
      ensures (Abs(r), View()) == Headers(old(Abs(r)), old(View()))
    {
      hide ReadHeader, Find, HeaderCall, Headers;
      ghost var result := Headers(Abs(r), View());
      var pos := BufFind(CRLF);
      while pos < BufSize()
        invariant Valid() && state == 2 && isValid == old(isValid) && pos == Find(View(), CRLF)
        invariant Headers(Abs(r), View()) == result
        decreases epos - spos
      {
        HeadersTurn(Abs(r), View());
        if pos == 0 {
          r.OnHeader(file);
          BufErase(|CRLF|);
          state := 3;
          return;
        }
        assert View()[..pos] == buf[spos..spos + pos];
        file := ReadHeader(file, buf[spos..spos + pos]);
        BufErase(pos + |CRLF|);
        pos := BufFind(CRLF);
      }
      HeadersTurn(Abs(r), View());
    }

    /** Hands over the next bytes. */
    method HandOver(n: nat, r: Receiver)
      requires Valid() && n <= epos - spos
      modifies `spos, r
      ensures Valid() && View() == old(View())[n..] && r.items == ContentCall(old(r.items), old(View())[..n])
    {
      hide ContentCall;
      assert View()[..n] == buf[spos..spos + n];
      r.OnContent(buf[spos..spos + n]);
      BufErase(n);
    }

    /** State 3, second half, from the first bytes that look like a delimiter. */
    method ParseDelimiter(r: Receiver) returns (go: bool)
      requires Valid() && state == 3
      modifies this, r
      ensures Valid() && go == (|Pattern(boundary)| <= |old(View())|)
      ensures (Abs(r), View()) ==
        if go then BodyTail(boundary, old(Abs(r)), old(View())) else (old(Abs(r)), old(View()))
    {
      hide Find, ContentCall;
      var pattern := CRLF + DASHES + boundary;
      if |pattern| > BufSize() { return false; }
      var pos := BufFind(pattern);
      if pos < BufSize() {
        HandOver(pos, r);
        BufErase(|pattern|);
        state := 4;
      } else {
        HandOver(|pattern|, r);
      }
      return true;
    }

    /** State 3. */
    method ParseBody(r: Receiver) returns (go: bool)
      requires Valid() && state == 3
      modifies this, r
      ensures Valid()
      ensures BodyTurn(boundary, old(Abs(r)), old(View()))
              == if go then Go(Abs(r), View()) else Return(Outcome(Abs(r), View(), true))
    {
      hide Find, ContentCall, BodyTail, Pattern;
      if |CRLF + DASHES| > BufSize() { return false; }
      var pos := BufFind(CRLF + DASHES);
      HandOver(pos, r);
      go := ParseDelimiter(r);
    }

    /** State 0. */
    method ParseStart(r: Receiver) returns (go: bool, ok: bool)
      requires Valid() && View() != "" && state == 0
      modifies this, r
      ensures Valid()
      ensures Turn(boundary, old(Abs(r)), old(View()))
              == if go then Go(Abs(r), View()) else Return(Outcome(Abs(r), View(), ok))
    {
      hide Headers, BodyTurn;
      var pattern := DASHES + boundary + CRLF;
      if |pattern| > BufSize() { return false, true; }
      var starts := StartWith(spos, pattern);
      if !starts { return false, false; }
      BufErase(|pattern|);
      state := 1;
      return true, true;
    }

    /** State 4. */
    method ParseBoundary(r: Receiver) returns (go: bool, ok: bool)
      requires Valid() && View() != "" && state == 4
      modifies this, r
      ensures Valid()
      ensures Turn(boundary, old(Abs(r)), old(View()))
              == if go then Go(Abs(r), View()) else Return(Outcome(Abs(r), View(), ok))
    {
      hide Headers, BodyTurn;
      if |CRLF| > BufSize() { return false, true; }
      var next := StartWith(spos, CRLF);
      if next {
        BufErase(|CRLF|);
        state := 1;
      } else {
        if |DASHES + CRLF| > BufSize() { return false, true; }
        var last := StartWith(spos, DASHES + CRLF);
        if !last { return false, true; }
        BufErase(|DASHES + CRLF|);
        isValid := true;
        state := 5;
      }
      return true, true;
    }

    /** One turn of the loop; `ok` is the result when it ends the call. */
    method ParseTurn(r: Receiver) returns (go: bool, ok: bool)
      requires Valid() && View() != ""
      modifies this, r
      ensures Valid()
      ensures Turn(boundary, old(Abs(r)), old(View()))
              == if go then Go(Abs(r), View()) else Return(Outcome(Abs(r), View(), ok))
    {
      hide Headers, BodyTurn;
      match state {
        case 0 =>
          go, ok := ParseStart(r);
        case 1 =>
          file := NO_INFO;
          state := 2;
          return true, true;
        case 2 =>
          ParseHeaders(r);
          return state == 3, true;
        case 3 =>
          go := ParseBody(r);
          return go, true;
        case 4 =>
          go, ok := ParseBoundary(r);
        case _ =>
          isValid := false;
          return false, false;
      }
    }

    /** One call with the next piece of a body. */
    method Parse(data: string, r: Receiver) returns (ok: bool)
      requires Valid()
      modifies this, r
      ensures Valid()
      ensures Outcome(Abs(r), View(), ok) == Run(boundary, old(Abs(r)), old(View()) + data)
    {
      BufAppend(data);
      while BufSize() > 0
        invariant Valid()
        invariant Run(boundary, Abs(r), View()) == Run(boundary, old(Abs(r)), old(View()) + data)
        decreases |View()|, if state == 1 then 1 else 0
      {
        hide Turn;
        var go;
        go, ok := ParseTurn(r);
        if !go { return; }
      }
      return true;
    }
  }

  // ---------- the printer ----------

  method PrintBody(b: string, items: seq<Item>) returns (body: string)
    ensures body == Print(b, items)
  {
    hide PrintItem;
    body := "";
    var i := 0;
    while i < |items|
      invariant i <= |items| && body + PrintItems(b, items[i..]) == PrintItems(b, items)
    {
      assert items[i..][0] == items[i] && items[i..][1..] == items[i + 1..];
      body := body + PrintItem(b, items[i]);
      i := i + 1;
    }
    body := body + DASHES + b + DASHES + CRLF;
  }

  /** None when the boundary has an unsupported character, and the content type and body otherwise. */
  method Post(b: string, items: seq<Item>) returns (r: Option<(string, string)>)
    ensures r == if ValidBoundary(b) then Some(("multipart/form-data; boundary=" + b, Print(b, items))) else None
  {
    var i := 0;
    while i < |b|
      invariant i <= |b| && forall j :: 0 <= j < i ==> BoundaryChar(b[j])
    {
      if !BoundaryChar(b[i]) { return None; }
      i := i + 1;
    }
    var body := PrintBody(b, items);
    return Some(("multipart/form-data; boundary=" + b, body));
  }
}
