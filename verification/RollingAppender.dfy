/** The rolling file appender over a directory: files are named, unlinked, renamed, opened and appended to. */
module RollingAppenders {
  import opened Datasets
  import opened RollingLog

  /** Log files by name. */
  class Directory {
    var files: map<string, LogFile>

    /** A missing file is left alone. */
    method Unlink(name: string)
      modifies this
      ensures files == old(files) - {name}
    {
      files := files - {name};
    }

    /** A missing source leaves everything as it is; an existing target is replaced. */
    method Rename(from: string, to: string)
      requires from != to
      modifies this
      ensures files == if from in old(files) then old(files)[to := old(files)[from]] - {from} else old(files)
    {
      if from in files { files := files[to := files[from]] - {from}; }
    }

    /** Creates the file if needed, and returns its size. */
    method OpenFile(name: string) returns (size: nat)
      modifies this
      ensures files == if name in old(files) then old(files) else old(files)[name := LogFile("", [])]
      ensures name in files && size == Size(files[name])
    {
      if name !in files { files := files[name := LogFile("", [])]; }
      size := Size(files[name]);
    }

    method WriteHeader(name: string, header: string)
      requires name in files && Size(files[name]) == 0
      modifies this
      ensures files == old(files)[name := old(files)[name].(header := header)]
    {
      files := files[name := files[name].(header := header)];
    }

    method WriteRecord(name: string, record: string)
      requires name in files
      modifies this
      ensures files == old(files)[name := old(files)[name].(records := old(files)[name].records + [record])]
    {
      files := files[name := files[name].(records := files[name].records + [record])];
    }
  }

  /** The name of file n; the current file has no number. */
  function FileNumberName(base: string, ext: string, n: int): string {
    base + (if n > 0 then "." + Decimal(n) else "") + if ext == "" then "" else "." + ext
  }

  /** The names in full: the current file, and file n. */
  lemma NameInFull(base: string, ext: string, n: nat) returns (digits: string)
    ensures IsNumeral(digits, n)
    ensures FileNumberName(base, ext, n) ==
      if n == 0 then (if ext == "" then base else base + "." + ext)
      else if ext == "" then base + "." + digits
      else base + "." + digits + "." + ext
  {
    hide Decimal, IsNumeral;
    digits := Decimal(n);
    DecimalIsNumeral(n);
  }

  lemma NamesDiffer(base: string, ext: string, a: nat, b: nat)
    requires FileNumberName(base, ext, a) == FileNumberName(base, ext, b)
    ensures a == b
  {
    var (x, y) := (FileNumberName(base, ext, a), FileNumberName(base, ext, b));
    var tail := if ext == "" then "" else "." + ext;
    var (p, q) := (if a > 0 then "." + Decimal(a) else "", if b > 0 then "." + Decimal(b) else "");
    assert x[|base|..|x| - |tail|] == p && y[|base|..|y| - |tail|] == q;
    if a > 0 && b > 0 {
      assert p[1..] == Decimal(a) && q[1..] == Decimal(b);
      DecimalInjective(a, b);
    }
  }

  /** File n of a directory is file n of `files`, if there is one. */
  ghost predicate Numbered(base: string, ext: string, files: seq<LogFile>, byName: map<string, LogFile>, n: nat) {
    var name := FileNumberName(base, ext, n);
    (name in byName <==> n < |files|) && (n < |files| ==> byName[name] == files[n])
  }

  class RollingFileAppender {
    const base: string
    const ext: string
    const header: string
    const maxFiles: int
    const maxFileSize: nat
    const dir: Directory
    var fileSize: nat
    var firstWrite: bool
    ghost var logs: seq<LogFile>

    /** On the log files that are there already. The size limit is at least 1000. */
    constructor (dir: Directory, base: string, ext: string, header: string, maxFileSize: nat, maxFiles: int,
                 ghost logs: seq<LogFile>)
      requires forall n: nat :: Numbered(base, ext, logs, dir.files, n)
      requires |logs| <= (if maxFiles < 1 then 1 else maxFiles)
      ensures Valid() && Abs() == Log(false, logs)
      ensures this.dir == dir && Settings() == Config(header, Max(maxFileSize, 1000), maxFiles)
    {
      this.dir, this.base, this.ext, this.header := dir, base, ext, header;
      this.maxFileSize := Max(maxFileSize, 1000);
      this.maxFiles := maxFiles;
      fileSize, firstWrite := 0, true;
      this.logs := logs;
    }

    function Settings(): Config { Config(header, maxFileSize, maxFiles) }

    function Name(n: int): string { FileNumberName(base, ext, n) }

    ghost predicate Entry(files: seq<LogFile>, byName: map<string, LogFile>, n: nat) {
      Numbered(base, ext, files, byName, n)
    }

    ghost predicate Is(files: seq<LogFile>, n: nat)
      reads dir
    {
      Entry(files, dir.files, n)
    }

    ghost predicate Shows(files: seq<LogFile>)
      reads dir
    {
      forall n: nat :: Is(files, n)
    }

    ghost predicate Valid()
      reads this, dir
    {
      && Shows(logs) && |logs| <= Keep(Settings())
      && (!firstWrite ==> logs != [] && fileSize == Size(logs[0]))
    }

    ghost function Abs(): Log
      reads this
    {
      Log(!firstWrite, logs)
    }

    lemma NamesApart(a: nat, b: nat)
      ensures Name(a) == Name(b) ==> a == b
    {
      if Name(a) == Name(b) { NamesDiffer(base, ext, a, b); }
    }

    /** The current file with its header, when it is new or has nothing in it. */
    function Opened(before: map<string, LogFile>): LogFile {
      if Name(0) !in before then LogFile(header, [])
      else if Size(before[Name(0)]) == 0 then before[Name(0)].(header := header)
      else before[Name(0)]
    }

    method OpenLogFile()
      modifies `fileSize, dir
      ensures dir.files == old(dir.files)[Name(0) := Opened(old(dir.files))]
      ensures fileSize == Size(dir.files[Name(0)])
    {
      var name := Name(0);
      fileSize := dir.OpenFile(name);
      if fileSize == 0 {
        dir.WriteHeader(name, header);
        fileSize := fileSize + |header|;
      }
    }

    /** The files with their numbers, where those from `hole` on have moved up by one. */
    ghost predicate Moved(files: seq<LogFile>, hole: nat, n: nat)
      reads dir
    {
      if n < hole then Is(files, n)
      else if n == hole then Name(n) !in dir.files
      else (Name(n) in dir.files <==> n - 1 < |files|) && (n - 1 < |files| ==> dir.files[Name(n)] == files[n - 1])
    }

    ghost predicate AllMoved(files: seq<LogFile>, hole: nat)
      reads dir
    {
      forall n: nat :: Moved(files, hole, n)
    }

    method UnlinkLast() returns (ghost kept: seq<LogFile>)
      requires Shows(logs) && |logs| <= Keep(Settings())
      modifies dir
      ensures kept == (if |logs| < Keep(Settings()) then logs else logs[..Keep(Settings()) - 1])
      ensures AllMoved(kept, Keep(Settings()) - 1)
    {
      hide FileNumberName;
      ghost var last := Keep(Settings()) - 1;
      kept := if |logs| <= last then logs else logs[..last];
      assert Name(maxFiles - 1) == Name(last) by { LastName(); }
      dir.Unlink(Name(maxFiles - 1));
      forall n: nat ensures Moved(kept, last, n) {
        assert old(Is(logs, n));
        NamesApart(n, last);
      }
    }

    lemma LastName()
      ensures Name(maxFiles - 1) == Name(Keep(Settings()) - 1)
    {
    }

    method MoveUp(n: nat, ghost kept: seq<LogFile>)
      requires AllMoved(kept, n + 1)
      modifies dir
      ensures AllMoved(kept, n)
    {
      hide FileNumberName;
      NamesApart(n, n + 1);
      assert Moved(kept, n + 1, n) && Moved(kept, n + 1, n + 1);
      dir.Rename(Name(n), Name(n + 1));
      forall i: nat ensures Moved(kept, n, i) {
        assert old(Moved(kept, n + 1, i));
        NamesApart(i, n);
        NamesApart(i, n + 1);
      }
    }

    method RollLogFiles()
      requires Valid()
      modifies this, dir
      ensures Valid() && Abs() == Step(Settings(), old(Abs()), Roll)
    {
      hide FileNumberName;
      ghost var kept := UnlinkLast();
      var n := maxFiles - 2;
      while n >= 0
        invariant AllMoved(kept, if n >= 0 then n + 1 else 0)
      {
        MoveUp(n, kept);
        n := n - 1;
      }
      assert Moved(kept, 0, 0);
      label Renamed:
      OpenLogFile();
      firstWrite := false;
      logs := [LogFile(header, [])] + kept;
      forall i: nat ensures Is(logs, i) {
        assert old@Renamed(Moved(kept, 0, i));
        NamesApart(i, 0);
      }
    }

    ghost predicate Lists(files: seq<LogFile>, byName: map<string, LogFile>) {
      forall n: nat :: Entry(files, byName, n)
    }

    lemma HeadSet(files: seq<LogFile>, changed: seq<LogFile>, byName: map<string, LogFile>, after: map<string, LogFile>)
      requires Lists(files, byName) && changed != [] && after == byName[Name(0) := changed[0]]
      requires changed[1..] == if files == [] then [] else files[1..]
      ensures Lists(changed, after)
    {
      hide FileNumberName;
      forall n: nat ensures Entry(changed, after, n) {
        assert Entry(files, byName, n);
        NamesApart(n, 0);
        if 0 < n < |files| { assert changed[1..][n - 1] == files[1..][n - 1]; }
      }
    }

    lemma ShowsIsLists(files: seq<LogFile>)
      ensures Shows(files) <==> Lists(files, dir.files)
    {
      assert forall n: nat :: Is(files, n) <==> Entry(files, dir.files, n);
    }

    /** The current file is open and not too large. */
    method Prepare()
      requires Valid()
      modifies this, dir
      ensures Valid() && !firstWrite && logs == Files(Settings(), old(Abs()))
    {
      hide FileNumberName, Shows, Lists;
      ShowsIsLists(logs);
      assert Shows(logs) ==> Is(logs, 0) by { ShowsFirst(); }
      if firstWrite {
        ghost var (before, current) := (dir.files, Open(Settings(), logs));
        OpenLogFile();
        HeadSet(logs, current, before, dir.files);
        logs := current;
        firstWrite := false;
        ShowsIsLists(logs);
      } else if maxFiles > 0 && fileSize > maxFileSize {
        RollLogFiles();
      }
    }

    lemma ShowsFirst()
      ensures Shows(logs) ==> Is(logs, 0)
    {
    }

    method Write(record: string)
      requires Valid()
      modifies this, dir
      ensures Valid() && Abs() == Step(Settings(), old(Abs()), Op.Write(record))
    {
      hide FileNumberName, Step, Files, Keep, Shows, Lists;
      Prepare();
      ShowsIsLists(logs);
      ShowsFirst();
      ghost var (before, f, appended) := (dir.files, logs[0], Append(logs, record));
      dir.WriteRecord(Name(0), record);
      fileSize := fileSize + |record|;
      HeadSet(logs, appended, before, dir.files);
      logs := appended;
      ShowsIsLists(logs);
      assert logs[0].records[..|logs[0].records| - 1] == f.records;
    }
  }
}
