/** The rolling log: a current file and older ones, and what a run of writes and rolls leaves in them. */
module RollingLog {

  /** What is in a file: its header and the records behind it. */
  datatype LogFile = LogFile(header: string, records: seq<string>)

  /** `maxFiles` may be any `int`; only positive numbers make the appender roll on its own. */
  datatype Config = Config(header: string, maxFileSize: nat, maxFiles: int)

  /** The files from the current one to the oldest, and whether the current one is open. */
  datatype Log = Log(active: bool, files: seq<LogFile>)

  /** `Restart` is a new appender on the same files. */
  datatype Op = Write(record: string) | Roll | Restart

  function Total(records: seq<string>): nat {
    if records == [] then 0 else Total(records[..|records| - 1]) + |records[|records| - 1]|
  }

  function Size(f: LogFile): nat { |f.header| + Total(f.records) }

  /** How many files can be there after a roll. */
  function Keep(c: Config): nat
    ensures Keep(c) >= 1
  {
    if c.maxFiles < 1 then 1 else c.maxFiles
  }

  /** The current file exists, with its header. */
  function Open(c: Config, files: seq<LogFile>): (r: seq<LogFile>)
    ensures r != []
  {
    if files == [] then [LogFile(c.header, [])]
    else if Size(files[0]) == 0 then files[0 := files[0].(header := c.header)]
    else files
  }

  /** Each file moves up by one, and the last one goes when there are too many. */
  function RollFiles(c: Config, files: seq<LogFile>): seq<LogFile> {
    var all := [LogFile(c.header, [])] + files;
    if |all| <= Keep(c) then all else all[..Keep(c)]
  }

  function Append(files: seq<LogFile>, record: string): seq<LogFile>
    requires files != []
  {
    files[0 := files[0].(records := files[0].records + [record])]
  }

  function Step(c: Config, s: Log, op: Op): Log {
    match op
    case Restart => Log(false, s.files)
    case Roll => Log(true, RollFiles(c, s.files))
    case Write(record) =>
      var files :=
        if !s.active || s.files == [] then Open(c, s.files)
        else if c.maxFiles > 0 && Size(s.files[0]) > c.maxFileSize then RollFiles(c, s.files)
        else s.files;
      Log(true, Append(files, record))
  }

  /** From the files that are there at first. */
  function Run(c: Config, init: seq<LogFile>, ops: seq<Op>): Log {
    if ops == [] then Log(false, init) else Step(c, Run(c, init, ops[..|ops| - 1]), ops[|ops| - 1])
  }

  function Written(ops: seq<Op>): seq<string> {
    if ops == [] then [] else
      var op := ops[|ops| - 1];
      Written(ops[..|ops| - 1]) + if op.Write? then [op.record] else []
  }

  /** The records in the files, the oldest first. */
  function Bodies(files: seq<LogFile>): seq<string> {
    if files == [] then [] else Bodies(files[1..]) + files[0].records
  }

  // ---------- what is kept ----------

  ghost predicate IsSuffix(a: seq<string>, b: seq<string>) { |a| <= |b| && b[|b| - |a|..] == a }

  lemma {:induction false} BodiesOfPrefix(files: seq<LogFile>, n: nat)
    requires n <= |files|
    ensures IsSuffix(Bodies(files[..n]), Bodies(files))
  {
    if n > 0 {
      BodiesOfPrefix(files[1..], n - 1);
      assert files[..n][1..] == files[1..][..n - 1];
    } else {
      assert files[..n] == [];
    }
  }

  lemma SuffixAppends(a: seq<string>, b: seq<string>, x: seq<string>)
    requires IsSuffix(a, b)
    ensures IsSuffix(a + x, b + x)
  {
    var n := |b| - |a|;
    assert (b + x)[n..] == b[n..] + x;
  }

  lemma SuffixTransitive(a: seq<string>, b: seq<string>, c: seq<string>)
    requires IsSuffix(a, b) && IsSuffix(b, c)
    ensures IsSuffix(a, c)
  {
    assert c[|c| - |b|..][|b| - |a|..] == c[|c| - |a|..];
  }

  lemma RollKeepsSuffix(c: Config, files: seq<LogFile>)
    ensures IsSuffix(Bodies(RollFiles(c, files)), Bodies(files))
  {
    var all := [LogFile(c.header, [])] + files;
    assert all[1..] == files && Bodies(all) == Bodies(files) + [] == Bodies(files);
    BodiesOfPrefix(all, if |all| <= Keep(c) then |all| else Keep(c));
    assert all[..|all|] == all;
  }

  lemma OpenKeepsBodies(c: Config, files: seq<LogFile>)
    ensures Bodies(Open(c, files)) == Bodies(files)
  {
    assert Bodies([LogFile(c.header, [])][1..]) == [];
  }

  lemma AppendAdds(files: seq<LogFile>, record: string)
    requires files != []
    ensures Bodies(Append(files, record)) == Bodies(files) + [record]
  {
    assert Append(files, record)[1..] == files[1..];
  }

  lemma WrittenOne(op: Op)
    ensures Written([op]) == if op.Write? then [op.record] else []
  {
    assert [op][..0] == [];
  }

  lemma WrittenNext(ops: seq<Op>)
    requires ops != []
    ensures Written(ops) == Written(ops[..|ops| - 1]) + Written([ops[|ops| - 1]])
  {
    WrittenOne(ops[|ops| - 1]);
  }

  lemma StepHoldsSuffix(c: Config, s: Log, op: Op)
    ensures IsSuffix(Bodies(Step(c, s, op).files), Bodies(s.files) + Written([op]))
  {
    hide Bodies, Open, RollFiles;
    WrittenOne(op);
    RollKeepsSuffix(c, s.files);
    OpenKeepsBodies(c, s.files);
    assert Bodies(s.files) + [] == Bodies(s.files);
    if op.Write? {
      var files := Files(c, s);
      AppendAdds(files, op.record);
      SuffixAppends(Bodies(files), Bodies(s.files), [op.record]);
    }
  }

  /** The records in the files are the last ones of those there at first and those written since, in order. */
  lemma {:induction false} FilesHoldSuffix(c: Config, init: seq<LogFile>, ops: seq<Op>)
    ensures IsSuffix(Bodies(Run(c, init, ops).files), Bodies(init) + Written(ops))
  {
    hide Step, Written, IsSuffix, Bodies;
    if ops != [] {
      var (before, op) := (ops[..|ops| - 1], ops[|ops| - 1]);
      var s, all := Run(c, init, before), Bodies(init) + Written(before);
      FilesHoldSuffix(c, init, before);
      StepHoldsSuffix(c, s, op);
      SuffixAppends(Bodies(s.files), all, Written([op]));
      SuffixTransitive(Bodies(Step(c, s, op).files), Bodies(s.files) + Written([op]), all + Written([op]));
      WrittenNext(ops);
      assert all + Written([op]) == Bodies(init) + Written(ops);
    } else {
      NothingWritten(init);
    }
  }

  lemma NothingWritten(init: seq<LogFile>)
    ensures IsSuffix(Bodies(init), Bodies(init) + Written([]))
  {
    hide Bodies;
    assert Bodies(init) + [] == Bodies(init);
  }

  /** The files that a write appends to. */
  function Files(c: Config, s: Log): (files: seq<LogFile>)
    ensures files != []
    ensures forall record :: Step(c, s, Write(record)) == Log(true, Append(files, record))
  {
    if !s.active || s.files == [] then Open(c, s.files)
    else if c.maxFiles > 0 && Size(s.files[0]) > c.maxFileSize then RollFiles(c, s.files)
    else s.files
  }

  lemma {:induction false} FilesAreFew(c: Config, init: seq<LogFile>, ops: seq<Op>)
    requires |init| <= Keep(c)
    ensures |Run(c, init, ops).files| <= Keep(c)
    ensures Run(c, init, ops).active <==> ops != [] && ops[|ops| - 1] != Restart
    ensures Run(c, init, ops).active ==> Run(c, init, ops).files != []
  {
    if ops != [] { FilesAreFew(c, init, ops[..|ops| - 1]); }
  }

  /** When nothing makes the log roll, it loses nothing. */
  lemma {:induction false} NoRollNoLoss(c: Config, init: seq<LogFile>, ops: seq<Op>)
    requires c.maxFiles <= 0 && Roll !in ops
    ensures Bodies(Run(c, init, ops).files) == Bodies(init) + Written(ops)
  {
    if ops != [] {
      var (before, op) := (ops[..|ops| - 1], ops[|ops| - 1]);
      assert op in ops;
      var s := Run(c, init, before);
      NoRollNoLoss(c, init, before);
      if op.Write? {
        OpenKeepsBodies(c, s.files);
        AppendAdds(Files(c, s), op.record);
        assert Bodies(init) + Written(before) + [op.record] == Bodies(init) + Written(ops);
      } else {
        assert Written(ops) == Written(before) + [] == Written(before);
      }
    }
  }

  /** A roll drops a file only when there are as many as can be. */
  lemma RollDropsLastIffFull(c: Config, files: seq<LogFile>)
    requires |files| <= Keep(c)
    ensures RollFiles(c, files) ==
      [LogFile(c.header, [])] + if |files| < Keep(c) then files else files[..|files| - 1]
  {
  }

  /** As long as there is room for another file, everything is there. */
  lemma {:induction false} AllThereOrFull(c: Config, init: seq<LogFile>, ops: seq<Op>)
    requires |init| <= Keep(c)
    ensures var files := Run(c, init, ops).files;
      Bodies(files) == Bodies(init) + Written(ops) || |files| == Keep(c)
  {
    if ops != [] {
      var (before, op) := (ops[..|ops| - 1], ops[|ops| - 1]);
      AllThereOrFull(c, init, before);
      FilesAreFew(c, init, before);
      StepKeepsAllOrIsFull(c, Run(c, init, before), op);
      WrittenNext(ops);
      assert Bodies(init) + Written(before) + Written([op]) == Bodies(init) + Written(ops);
    }
  }

  lemma StepKeepsAllOrIsFull(c: Config, s: Log, op: Op)
    requires |s.files| <= Keep(c)
    ensures var t := Step(c, s, op);
      && |s.files| <= |t.files|
      && (Bodies(t.files) == Bodies(s.files) + Written([op]) || |t.files| == Keep(c))
  {
    hide Bodies, Open, RollFiles;
    WrittenOne(op);
    RollKeepsAllOrIsFull(c, s.files);
    OpenKeepsBodies(c, s.files);
    OpenAddsNone(c, s.files);
    match op
    case Write(record) => AppendAdds(Files(c, s), record);
    case _ => assert Bodies(s.files) + [] == Bodies(s.files);
  }

  lemma OpenAddsNone(c: Config, files: seq<LogFile>)
    ensures |Open(c, files)| == if files == [] then 1 else |files|
  {
  }

  lemma RollKeepsAllOrIsFull(c: Config, files: seq<LogFile>)
    requires |files| <= Keep(c)
    ensures |files| <= |RollFiles(c, files)| && RollFiles(c, files) != []
    ensures Bodies(RollFiles(c, files)) == Bodies(files) || |RollFiles(c, files)| == Keep(c)
  {
    RollDropsLastIffFull(c, files);
    var all := [LogFile(c.header, [])] + files;
    assert all[1..] == files && Bodies(all) == Bodies(files) + [] == Bodies(files);
  }

  ghost predicate OthersExceed(c: Config, files: seq<LogFile>) {
    forall i :: 1 <= i < |files| ==> Size(files[i]) > c.maxFileSize
  }

  lemma StepKeepsExceeding(c: Config, s: Log, op: Op)
    requires op != Roll && OthersExceed(c, s.files)
    ensures OthersExceed(c, Step(c, s, op).files)
  {
  }

  /** The appender itself rolls for one reason only: every file but the current one has passed the size limit. */
  lemma {:induction false} RolledFilesExceedLimit(c: Config, init: seq<LogFile>, ops: seq<Op>)
    requires Roll !in ops && OthersExceed(c, init)
    ensures OthersExceed(c, Run(c, init, ops).files)
  {
    hide Step, OthersExceed;
    if ops != [] {
      var (before, op) := (ops[..|ops| - 1], ops[|ops| - 1]);
      assert op in ops;
      RolledFilesExceedLimit(c, init, before);
      StepKeepsExceeding(c, Run(c, init, before), op);
    }
  }

  function Sizes(files: seq<LogFile>): nat { if files == [] then 0 else Size(files[0]) + Sizes(files[1..]) }

  lemma {:induction false} ManyExceed(files: seq<LogFile>, limit: nat)
    requires forall i :: 0 <= i < |files| ==> Size(files[i]) > limit
    ensures Sizes(files) >= |files| * limit
  {
    if files != [] {
      ManyExceed(files[1..], limit);
      assert (|files| - 1) * limit + limit == |files| * limit;
    }
  }

  /**
   When nobody rolls by hand, records are lost only to a log that is full: either all that was ever written is there,
   or the older files, one less than the maximum, hold at least the size limit each.
   */
  lemma NothingLostBelowVolume(c: Config, ops: seq<Op>)
    requires Roll !in ops
    ensures var files := Run(c, [], ops).files;
      Bodies(files) == Written(ops) || (files != [] && Sizes(files[1..]) >= (Keep(c) - 1) * c.maxFileSize)
  {
    hide Run, Bodies;
    AllThereOrFull(c, [], ops);
    RolledFilesExceedLimit(c, [], ops);
    assert Bodies([]) == [] by { NoBodies(); }
    assert [] + Written(ops) == Written(ops);
    var files := Run(c, [], ops).files;
    if |files| == Keep(c) { ManyExceed(files[1..], c.maxFileSize); }
  }

  lemma NoBodies()
    ensures Bodies([]) == []
  {
  }

  /** The current file is within the limit at every write, and nobody rolls by hand. */
  ghost predicate NeverPasses(c: Config, init: seq<LogFile>, ops: seq<Op>) {
    && Roll !in ops
    && forall i :: 0 <= i < |ops| ==>
         var s := Run(c, init, ops[..i]); s.files != [] ==> Size(s.files[0]) <= c.maxFileSize
  }

  /** A log whose current file never passes the limit never rolls, and so keeps everything in that file. */
  lemma {:induction false} NoRollWithinLimit(c: Config, ops: seq<Op>)
    requires NeverPasses(c, [], ops)
    ensures var files := Run(c, [], ops).files; |files| <= 1 && Bodies(files) == Written(ops)
  {
    if ops != [] {
      var (before, op) := (ops[..|ops| - 1], ops[|ops| - 1]);
      assert op in ops;
      forall i | 0 <= i < |before| ensures before[..i] == ops[..i] {}
      NoRollWithinLimit(c, before);
      var s := Run(c, [], before);
      if op.Write? {
        OpenKeepsBodies(c, s.files);
        AppendAdds(Files(c, s), op.record);
      } else {
        assert Written(ops) == Written(before) + [] == Written(before);
      }
    }
  }

  // ---------- sizes ----------

  /** Without its last record a file is within the limit. */
  ghost predicate Within(limit: nat, f: LogFile) {
    Size(f.(records := if f.records == [] then [] else f.records[..|f.records| - 1])) <= limit
  }

  ghost predicate AllWithin(limit: nat, files: seq<LogFile>) {
    forall i :: 0 <= i < |files| ==> Within(limit, files[i])
  }

  function Max(a: nat, b: nat): nat { if a < b then b else a }

  /** What a file can be kept within, its last record apart. */
  ghost predicate Feasible(c: Config, limit: nat) {
    c.maxFiles > 0 && c.maxFileSize <= limit && |c.header| <= limit
  }

  ghost predicate LimitKept(limit: nat, c: Config, init: seq<LogFile>, ops: seq<Op>) {
    AllWithin(limit, Run(c, init, ops).files)
  }

  /** An appender that is about to write for the first time finds no current file, or one within the limit. */
  ghost predicate FirstWriteFits(limit: nat, s: Log) {
    s.active || s.files == [] || Size(s.files[0]) <= limit
  }

  ghost predicate FirstWritesFit(limit: nat, c: Config, init: seq<LogFile>, ops: seq<Op>) {
    forall i :: 0 <= i < |ops| && ops[i].Write? ==> FirstWriteFits(limit, Run(c, init, ops[..i]))
  }

  lemma AppendWithin(limit: nat, files: seq<LogFile>, record: string)
    requires files != [] && AllWithin(limit, files[1..])
    ensures AllWithin(limit, Append(files, record)) <==> Size(files[0]) <= limit
  {
    var after := Append(files, record);
    assert after[0].records[..|after[0].records| - 1] == files[0].records;
    assert Within(limit, after[0]) <==> Size(files[0]) <= limit;
    forall i | 1 <= i < |after| ensures Within(limit, after[i]) {
      assert after[i] == files[1..][i - 1];
    }
  }

  /** One write keeps the limit exactly when it is not a first write to a file beyond it. */
  lemma WriteWithin(limit: nat, c: Config, s: Log, record: string)
    requires Feasible(c, limit) && AllWithin(limit, s.files)
    requires s.active ==> s.files != []
    ensures AllWithin(limit, Step(c, s, Write(record)).files) <==> FirstWriteFits(limit, s)
  {
    var files := Files(c, s);
    assert AllWithin(limit, files[1..]) by {
      forall i | 0 <= i < |files[1..]| ensures Within(limit, files[1..][i]) {
        assert files[1..][i] == files[i + 1];
      }
    }
    AppendWithin(limit, files, record);
    assert Size(LogFile(c.header, [])) == |c.header|;
  }

  lemma RollWithin(limit: nat, c: Config, files: seq<LogFile>)
    requires Feasible(c, limit) && AllWithin(limit, files)
    ensures AllWithin(limit, RollFiles(c, files))
  {
    assert Within(limit, LogFile(c.header, []));
  }

  lemma StepWithin(limit: nat, c: Config, s: Log, op: Op)
    requires Feasible(c, limit) && AllWithin(limit, s.files)
    requires s.active ==> s.files != []
    ensures AllWithin(limit, Step(c, s, op).files) <==> (op.Write? ==> FirstWriteFits(limit, s))
  {
    hide AllWithin, FirstWriteFits, RollFiles, Open;
    match op
    case Write(record) => WriteWithin(limit, c, s, record);
    case Roll => RollWithin(limit, c, s.files);
    case Restart =>
  }

  lemma FirstWritesFitPrefix(limit: nat, c: Config, init: seq<LogFile>, ops: seq<Op>)
    requires ops != []
    ensures var before, op := ops[..|ops| - 1], ops[|ops| - 1];
      FirstWritesFit(limit, c, init, ops) <==>
        FirstWritesFit(limit, c, init, before) && (op.Write? ==> FirstWriteFits(limit, Run(c, init, before)))
  {
    hide FirstWriteFits, Run;
    var before := ops[..|ops| - 1];
    assert forall i :: 0 <= i < |before| ==> before[..i] == ops[..i] && before[i] == ops[i];
  }

  lemma {:induction false} KeptWhenFits(limit: nat, c: Config, init: seq<LogFile>, ops: seq<Op>)
    requires Feasible(c, limit) && |init| <= Keep(c)
    requires AllWithin(limit, init) && FirstWritesFit(limit, c, init, ops)
    ensures LimitKept(limit, c, init, ops)
  {
    hide AllWithin, FirstWritesFit, FirstWriteFits, Step, Keep;
    if ops != [] {
      var (before, op) := (ops[..|ops| - 1], ops[|ops| - 1]);
      FirstWritesFitPrefix(limit, c, init, ops);
      KeptWhenFits(limit, c, init, before);
      FilesAreFew(c, init, before);
      StepWithin(limit, c, Run(c, init, before), op);
    }
  }

  /**
   Throughout a run no file exceeds the limit by more than its last record, exactly when that holds of the files
   there at first and every first write of an appender finds a current file within the limit: that write is not
   checked against the size, so each restart behind a large record lets the file grow by one more.
   */
  lemma {:induction false} LimitKeptIffFirstWritesFit(limit: nat, c: Config, init: seq<LogFile>, ops: seq<Op>)
    requires Feasible(c, limit) && |init| <= Keep(c)
    ensures (forall i :: 0 <= i <= |ops| ==> LimitKept(limit, c, init, ops[..i]))
            <==> AllWithin(limit, init) && FirstWritesFit(limit, c, init, ops)
  {
    hide AllWithin, FirstWriteFits, Step, Keep;
    assert ops[..0] == [];
    if AllWithin(limit, init) && FirstWritesFit(limit, c, init, ops) {
      forall i | 0 <= i <= |ops| ensures LimitKept(limit, c, init, ops[..i]) {
        assert forall j :: 0 <= j < i ==> ops[..i][..j] == ops[..j] && ops[..i][j] == ops[j];
        KeptWhenFits(limit, c, init, ops[..i]);
      }
    }
    if forall i :: 0 <= i <= |ops| ==> LimitKept(limit, c, init, ops[..i]) {
      assert LimitKept(limit, c, init, ops[..0]);
      forall i | 0 <= i < |ops| && ops[i].Write? ensures FirstWriteFits(limit, Run(c, init, ops[..i])) {
        assert ops[..i + 1][..i] == ops[..i];
        assert LimitKept(limit, c, init, ops[..i + 1]) && LimitKept(limit, c, init, ops[..i]);
        FilesAreFew(c, init, ops[..i]);
        StepWithin(limit, c, Run(c, init, ops[..i]), ops[i]);
      }
    }
  }

  /** Two records that are too large, and a restart between them. */
  lemma RestartPassesLimit(c: Config, record: string)
    requires Feasible(c, c.maxFileSize) && c.maxFileSize < |record|
    ensures !LimitKept(c.maxFileSize, c, [], [Write(record), Restart, Write(record)])
    ensures LimitKept(c.maxFileSize, c, [], [Write(record), Write(record)])
  {
    var limit, s := c.maxFileSize, Log(true, [LogFile(c.header, [record])]);
    var one, two, three := [Write(record)], [Write(record), Restart], [Write(record), Restart, Write(record)];
    assert one[..0] == [] && two[..1] == one && three[..2] == two && [Write(record), Write(record)][..1] == one;
    assert Run(c, [], one) == s by { assert [] + [record] == [record]; }
    assert Total([record]) == |record| by { assert [record][..0] == []; }
    assert Within(limit, s.files[0]) by { assert [record][..0] == []; }
    assert Run(c, [], two) == Log(false, s.files);
    WriteWithin(limit, c, s, record);
    WriteWithin(limit, c, Log(false, s.files), record);
  }

  /** Without restarts no appender writes for the first time to a file that has records. */
  lemma NoRestartFits(limit: nat, c: Config, ops: seq<Op>)
    requires Restart !in ops
    ensures FirstWritesFit(limit, c, [], ops)
  {
    forall i | 0 <= i < |ops| ensures FirstWriteFits(limit, Run(c, [], ops[..i])) {
      FilesAreFew(c, [], ops[..i]);
      assert i > 0 ==> ops[..i][i - 1] == ops[i - 1] && ops[i - 1] in ops;
    }
  }

  /** From no files and without restarts, a file exceeds the size limit, or its own header, by its last record. */
  lemma SizesBounded(c: Config, ops: seq<Op>)
    requires c.maxFiles > 0 && Restart !in ops
    ensures LimitKept(Max(c.maxFileSize, |c.header|), c, [], ops)
  {
    NoRestartFits(Max(c.maxFileSize, |c.header|), c, ops);
    KeptWhenFits(Max(c.maxFileSize, |c.header|), c, [], ops);
  }

  /** Every file starts with the header. */
  lemma {:induction false} HeadersStay(c: Config, init: seq<LogFile>, ops: seq<Op>)
    requires forall f :: f in init ==> f.header == c.header
    ensures forall f :: f in Run(c, init, ops).files ==> f.header == c.header
  {
    if ops != [] { HeadersStay(c, init, ops[..|ops| - 1]); }
  }

  /** In these runs the limit itself is kept if and only if the header fits in it. */
  lemma LimitKeptIffHeaderFits(c: Config)
    requires c.maxFiles > 0
    ensures (forall ops :: Restart !in ops ==> LimitKept(c.maxFileSize, c, [], ops)) <==> |c.header| <= c.maxFileSize
  {
    if |c.header| <= c.maxFileSize {
      forall ops | Restart !in ops ensures LimitKept(c.maxFileSize, c, [], ops) { SizesBounded(c, ops); }
    } else {
      assert Run(c, [], [Roll]).files == [LogFile(c.header, [])] by {
        assert [Roll][..0] == [] && [LogFile(c.header, [])] + [] == [LogFile(c.header, [])];
      }
      assert !Within(c.maxFileSize, Run(c, [], [Roll]).files[0]);
      assert !LimitKept(c.maxFileSize, c, [], [Roll]) && Restart !in [Roll];
    }
  }
}
