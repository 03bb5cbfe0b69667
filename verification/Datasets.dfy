/** Datasets as worker processes handle them: an id, a directory, and a buffer held in memory or in a file. */
module Datasets {
  import opened ExchangeDoc
  import opened Wrappers

  type Byte = n: nat | n < 256
  type Bytes = seq<Byte>

  // ---------- names ----------

  function Digit(d: nat): (c: char)
    requires d < 10
  {
    '0' + d as char
  }

  /** `std::to_string` of an unsigned integer. */
  function Decimal(n: nat): (s: string)
    ensures s != []
  {
    if n < 10 then [Digit(n)] else Decimal(n / 10) + [Digit(n % 10)]
  }

  predicate IsDigit(c: char) { '0' <= c <= '9' }

  /** `isdigit`, on ASCII text. */
  predicate IsNumber(s: string) { s != "" && forall i :: 0 <= i < |s| ==> IsDigit(s[i]) }

  /** The value of a numeral in base 10. */
  function Int(s: string): nat
    requires forall i :: 0 <= i < |s| ==> IsDigit(s[i])
  {
    if s == "" then 0 else
      assert IsDigit(s[|s| - 1]);
      10 * Int(s[..|s| - 1]) + (s[|s| - 1] - '0') as nat
  }

  /** `s` is the numeral of `n`: decimal digits with that value, and no zero before others. */
  predicate IsNumeral(s: string, n: nat) {
    IsNumber(s) && Int(s) == n && (s[0] == '0' ==> |s| == 1)
  }

  lemma {:induction false} DecimalIsNumeral(n: nat)
    ensures IsNumeral(Decimal(n), n) && (n > 0 ==> Decimal(n)[0] != '0')
  {
    var s := Decimal(n);
    if n >= 10 {
      DecimalIsNumeral(n / 10);
      assert s[..|s| - 1] == Decimal(n / 10) && s[0] == Decimal(n / 10)[0];
    } else {
      assert s[..|s| - 1] == "";
    }
  }

  lemma {:induction false} DecimalInjective(a: nat, b: nat)
    requires Decimal(a) == Decimal(b)
    ensures a == b
  {
    var s, t := Decimal(a), Decimal(b);
    assert s[|s| - 1] == Digit(a % 10) && t[|t| - 1] == Digit(b % 10);
    if a >= 10 && b >= 10 {
      assert s[..|s| - 1] == Decimal(a / 10) && t[..|t| - 1] == Decimal(b / 10);
      DecimalInjective(a / 10, b / 10);
    }
  }

  function PulledId(id: nat): string { "dataset_" + Decimal(id) }

  function FileName(dir: string, datasetId: string): string { dir + "/" + datasetId + ".raw" }

  const OUTPUT_DIR := "output"

  /** The file in which a worker leaves the result for dataset `id`. */
  function OutName(id: nat): string { FileName(OUTPUT_DIR, PulledId(id)) }

  /** The names in full: the id of the dataset in decimal digits behind a fixed text. */
  predicate IsDatasetName(name: string, id: nat) {
    |name| > 8 && name[..8] == "dataset_" && IsNumeral(name[8..], id)
  }

  predicate IsOutputName(name: string, id: nat) {
    |name| > 19 && name[..15] == "output/dataset_" && name[|name| - 4..] == ".raw"
    && IsNumeral(name[15..|name| - 4], id)
  }

  lemma NamesInFull(id: nat)
    ensures IsDatasetName(PulledId(id), id) && IsOutputName(OutName(id), id)
  {
    hide Decimal, IsNumeral;
    var d, x := Decimal(id), ".raw";
    DecimalIsNumeral(id);
    assert PulledId(id)[..8] == "dataset_" && PulledId(id)[8..] == d;
    var name := OutName(id);
    assert name == "output/dataset_" + d + x;
    assert name[..15] == "output/dataset_" && name[|name| - 4..] == x && name[15..|name| - 4] == d;
  }

  /** A file has the name of one result at most. */
  lemma OutputNameTellsId(name: string, a: nat, b: nat)
    requires IsOutputName(name, a) && IsOutputName(name, b)
    ensures a == b
  {
  }

  /** The output file of dataset `id` holds these bytes. */
  ghost predicate Stored(files: map<string, Bytes>, id: nat, bytes: Bytes) {
    exists name :: name in files && IsOutputName(name, id) && files[name] == bytes
  }

  lemma StoredUnderOutName(files: map<string, Bytes>, id: nat)
    requires OutName(id) in files
    ensures Stored(files, id, files[OutName(id)])
  {
    NamesInFull(id);
    assert IsOutputName(OutName(id), id);
  }

  lemma OutNameInjective(a: nat, b: nat)
    requires OutName(a) == OutName(b)
    ensures a == b
  {
    hide OutName, IsOutputName;
    NamesInFull(a);
    NamesInFull(b);
    OutputNameTellsId(OutName(a), a, b);
  }

  // ---------- storage ----------

  class FileSystem {
    var files: map<string, Bytes>
  }

  class Dataset {
    var id: string
    var dir: Option<string>
    var buffer: Bytes

    constructor ()
      ensures id == "" && dir == None && buffer == []
    {
      id, dir, buffer := "", None, [];
    }

    method SetId(id: string)
      modifies this`id
      ensures this.id == id
    {
      this.id := id;
    }

    method SetData(dir: string)
      modifies this`dir
      ensures this.dir == Some(dir)
    {
      this.dir := Some(dir);
    }

    /** What a reader of this dataset sees: the buffer, or failing that the file behind it. */
    ghost function Content(fs: FileSystem): Option<Bytes>
      reads this, fs
    {
      if buffer != [] then Some(buffer)
      else if dir.None? then None
      else if FileName(dir.value, id) in fs.files then Some(fs.files[FileName(dir.value, id)])
      else None
    }

    /** A missing file makes the source throw, and its caller exit. */
    method RetrieveBufferFromFile(fs: FileSystem, filename: string) returns (ok: bool)
      modifies this`buffer
      ensures ok == (filename in fs.files)
      ensures buffer == if ok then fs.files[filename] else old(buffer)
    {
      ok := filename in fs.files;
      if ok { buffer := fs.files[filename]; }
    }

    method RetrieveBuffer(fs: FileSystem) returns (r: Option<Bytes>)
      ensures r == Content(fs)
    {
      if buffer != [] { return Some(buffer); }
      if dir.None? { return None; }
      var filename := FileName(dir.value, id);
      return if filename in fs.files then Some(fs.files[filename]) else None;
    }

    method RetainBuffer(buffer: Bytes)
      modifies this`buffer
      ensures this.buffer == buffer
    {
      this.buffer := buffer;
    }

    /** Writing the buffer out and then releasing it changes nothing for a reader. */
    method PersistAndRelease(fs: FileSystem)
      requires dir.Some?
      modifies this`buffer, fs`files
      ensures buffer == []
      ensures fs.files == old(fs.files)[FileName(dir.value, id) := old(buffer)]
      ensures Content(fs) == Some(old(buffer))
    {
      fs.files := fs.files[FileName(dir.value, id) := buffer];
      buffer := [];
    }
  }

  // ---------- what is still to be provided ----------

  function Range(n: nat): (s: seq<nat>)
    ensures |s| == n
    ensures forall i :: 0 <= i < n ==> s[i] == i
  {
    seq(n, i => i)
  }

  class DataSupplyState {
    var datasetsToProvide: seq<nat>

    /** One id per dataset; `n` ids fit in 32 bits and none is the end marker. */
    constructor (n: nat)
      requires n <= END
      ensures datasetsToProvide == Range(n)
    {
      datasetsToProvide := [];
      new;
      var i := 0;
      while i < n
        invariant 0 <= i <= n
        invariant datasetsToProvide == Range(i)
      {
        datasetsToProvide := datasetsToProvide + [i];
        i := i + 1;
      }
    }

    /** None when there is no more dataset. */
    method GrabDataset() returns (r: Option<nat>)
      modifies this
      ensures old(datasetsToProvide) == [] ==> r == None && datasetsToProvide == []
      ensures old(datasetsToProvide) != [] ==>
        r.Some? && [r.value] + datasetsToProvide == old(datasetsToProvide)
    {
      if datasetsToProvide == [] { return None; }
      r := Some(datasetsToProvide[0]);
      datasetsToProvide := datasetsToProvide[1..];
    }
  }
}
