/** The list of group ids in the path of a post, such as `1,2,5-10`. */
module GroupLists {
  import opened Datasets
  import opened Queries
  import opened Wrappers

  function Interval(low: nat, high: nat): seq<nat> {
    if high < low then [] else seq(high - low + 1, (i: nat) => low + i)
  }

  /** All numbers from the one to the other, both included, in order. */
  lemma IntervalInFull(low: nat, high: nat)
    ensures |Interval(low, high)| == if low <= high then high - low + 1 else 0
    ensures forall i :: 0 <= i < |Interval(low, high)| ==> Interval(low, high)[i] == low + i
    ensures forall n: nat :: n in Interval(low, high) <==> low <= n <= high
  {
    forall n: nat | low <= n <= high ensures n in Interval(low, high) { assert Interval(low, high)[n - low] == n; }
  }

  /** One piece between commas. */
  function ExtractPiece(piece: string): Option<seq<nat>> {
    var ends := Cut(piece, '-');
    if |ends| == 2 then
      if IsNumber(ends[0]) && IsNumber(ends[1]) then Some(Interval(Int(ends[0]), Int(ends[1]))) else None
    else if |ends| == 1 && IsNumber(ends[0]) then Some([Int(ends[0])])
    else None
  }

  function ExtractPieces(pieces: seq<string>): Option<seq<nat>> {
    if pieces == [] then Some([]) else
      match (ExtractPieces(pieces[..|pieces| - 1]), ExtractPiece(pieces[|pieces| - 1]))
      case (Some(before), Some(ids)) => Some(before + ids)
      case _ => None
  }

  /** None stands for the ExtractionError. */
  function Extract(s: string): Option<seq<nat>> { ExtractPieces(Cut(s, ',')) }

  lemma {:induction false} BadPieceFails(pieces: seq<string>, n: nat)
    requires 0 < n <= |pieces| && ExtractPiece(pieces[n - 1]).None?
    ensures ExtractPieces(pieces).None?
  {
    if n < |pieces| {
      assert pieces[..|pieces| - 1][n - 1] == pieces[n - 1];
      BadPieceFails(pieces[..|pieces| - 1], n);
    }
  }

  method ExtractIntegerListFromString(s: string) returns (r: Option<seq<nat>>)
    ensures r == Extract(s)
  {
    hide Cut, ExtractPiece;
    var groups := Cut(s, ',');
    var list: seq<nat> := [];
    var i := 0;
    while i < |groups|
      invariant i <= |groups| && ExtractPieces(groups[..i]) == Some(list)
    {
      var ids := ExtractPiece(groups[i]);
      if ids.None? {
        BadPieceFails(groups, i + 1);
        return None;
      }
      assert groups[..i + 1][..i] == groups[..i];
      list := list + ids.value;
      i := i + 1;
    }
    assert groups[..i] == groups;
    return Some(list);
  }

  // ---------- lists as clients write them ----------

  datatype Part = One(n: nat) | Range(low: nat, high: nat)

  function PrintPart(p: Part): string {
    match p
    case One(n) => Decimal(n)
    case Range(low, high) => Decimal(low) + (['-'] + Decimal(high))
  }

  function Ids(p: Part): seq<nat> {
    match p
    case One(n) => [n]
    case Range(low, high) => Interval(low, high)
  }

  function PrintParts(ps: seq<Part>): string
    requires ps != []
  {
    if |ps| == 1 then PrintPart(ps[0]) else PrintPart(ps[0]) + ([','] + PrintParts(ps[1..]))
  }

  function AllIds(ps: seq<Part>): seq<nat> {
    if ps == [] then [] else AllIds(ps[..|ps| - 1]) + Ids(ps[|ps| - 1])
  }

  lemma NumberLacks(s: string, c: char)
    requires IsNumber(s) && !IsDigit(c)
    ensures Lacks(s, c)
  {
  }

  lemma PartExtracted(p: Part)
    ensures ExtractPiece(PrintPart(p)) == Some(Ids(p)) && Lacks(PrintPart(p), ',')
  {
    hide Cut, Decimal;
    match p
    case One(n) =>
      DecimalIsNumeral(n);
      NumberLacks(Decimal(n), '-');
      CutOne(Decimal(n), '-');
    case Range(low, high) =>
      DecimalIsNumeral(low);
      DecimalIsNumeral(high);
      NumberLacks(Decimal(low), '-');
      NumberLacks(Decimal(high), '-');
      CutFirst(Decimal(low), '-', Decimal(high));
      CutOne(Decimal(high), '-');
  }

  ghost function Printed(ps: seq<Part>): seq<string> { seq(|ps|, i requires 0 <= i < |ps| => PrintPart(ps[i])) }

  lemma {:induction false} PartsCut(ps: seq<Part>)
    requires ps != []
    ensures Cut(PrintParts(ps), ',') == Printed(ps)
  {
    hide Cut, PrintPart;
    PartExtracted(ps[0]);
    if |ps| == 1 {
      CutOne(PrintPart(ps[0]), ',');
    } else {
      PartsCut(ps[1..]);
      CutFirst(PrintPart(ps[0]), ',', PrintParts(ps[1..]));
      assert Printed(ps) == [PrintPart(ps[0])] + Printed(ps[1..]);
    }
  }

  lemma {:induction false} PrintedExtracted(ps: seq<Part>)
    ensures ExtractPieces(Printed(ps)) == Some(AllIds(ps))
  {
    hide ExtractPiece, PrintPart, Ids;
    if ps != [] {
      var n := |ps| - 1;
      PrintedExtracted(ps[..n]);
      PartExtracted(ps[n]);
      assert Printed(ps)[..n] == Printed(ps[..n]);
    }
  }

  /** Extracting a written list gives its numbers and intervals, in order. */
  lemma ExtractUndoesPrint(ps: seq<Part>)
    requires ps != []
    ensures Extract(PrintParts(ps)) == Some(AllIds(ps))
  {
    PartsCut(ps);
    PrintedExtracted(ps);
  }

  // ---------- lists that are refused ----------

  /** A number, or two with a hyphen between them. */
  predicate WellFormed(piece: string) {
    IsNumber(piece)
    || exists i :: 0 < i < |piece| && piece[i] == '-' && IsNumber(piece[..i]) && IsNumber(piece[i + 1..])
  }

  lemma {:induction false} FirstHyphen(piece: string) returns (i: nat)
    requires !Lacks(piece, '-')
    ensures i < |piece| && piece[i] == '-' && Lacks(piece[..i], '-')
  {
    if piece[0] == '-' { return 0; }
    var j := FirstHyphen(piece[1..]);
    i := j + 1;
    assert piece[..i] == piece[..1] + piece[1..][..j];
  }

  lemma NumberHasNoHyphen(s: string)
    requires IsNumber(s)
    ensures Lacks(s, '-')
  {
  }

  /** Exactly the well-formed pieces are extracted. */
  lemma PieceRefusedIff(piece: string)
    ensures ExtractPiece(piece).None? <==> !WellFormed(piece)
  {
    hide Cut, IsNumber, Int, Interval;
    if Lacks(piece, '-') {
      CutOne(piece, '-');
    } else {
      var i := FirstHyphen(piece);
      var low, high := piece[..i], piece[i + 1..];
      assert piece == low + (['-'] + high);
      CutFirst(low, '-', high);
      if Lacks(high, '-') { CutOne(high, '-'); } else { TwoHyphens(high); }
      HyphenOnlyOnce(piece, i);
    }
  }

  lemma TwoHyphens(high: string)
    requires !Lacks(high, '-')
    ensures |Cut(high, '-')| >= 2
  {
    hide Cut;
    var i := FirstHyphen(high);
    assert high == high[..i] + (['-'] + high[i + 1..]);
    CutFirst(high[..i], '-', high[i + 1..]);
  }

  lemma NotBefore(s: string, i: nat, k: nat)
    requires i <= |s| && k < |s| && Lacks(s[..i], '-') && s[k] == '-'
    ensures i <= k
  {
    assert forall j :: 0 <= j < i ==> s[..i][j] == s[j];
  }

  lemma HyphenOnlyOnce(piece: string, i: nat)
    requires i < |piece| && piece[i] == '-' && Lacks(piece[..i], '-')
    ensures WellFormed(piece) <==> Lacks(piece[i + 1..], '-') && IsNumber(piece[..i]) && IsNumber(piece[i + 1..])
  {
    if IsNumber(piece[i + 1..]) { NumberHasNoHyphen(piece[i + 1..]); }
    if IsNumber(piece) { NumberHasNoHyphen(piece); }
    forall k | 0 < k < |piece| && piece[k] == '-' && IsNumber(piece[..k]) && IsNumber(piece[k + 1..]) ensures k == i {
      NumberHasNoHyphen(piece[..k]);
      NotBefore(piece, i, k);
      NotBefore(piece, k, i);
    }
    assert IsNumber(piece[..i]) ==> piece[..i] != "";
  }

  /** A list is refused if and only if one of its pieces between commas is not well-formed. */
  lemma {:induction false} ListRefusedIff(pieces: seq<string>)
    ensures ExtractPieces(pieces).None? <==> exists i :: 0 <= i < |pieces| && !WellFormed(pieces[i])
  {
    hide ExtractPiece, WellFormed;
    if pieces != [] {
      var n := |pieces| - 1;
      ListRefusedIff(pieces[..n]);
      PieceRefusedIff(pieces[n]);
      assert forall i :: 0 <= i < n ==> pieces[..n][i] == pieces[i];
    }
  }
}
