/**
 The loops of the supplier, of a worker and of the aggregator, each run by itself on the exchange files. Interleaved
 runs are the subject of `FileRing`.
 */
module RingLoops {
  import opened ExchangeDoc
  import opened ExchangeFiles
  import D = Datasets

  function InputRecord(names: seq<string>, k: nat): Record
    requires k < |names|
  {
    Store(Dataset(k, names[k], END))
  }

  const MARKER := Store(Dataset(END, "", END))

  /** The supplier's queue from dataset `first` on. */
  function Supply(names: seq<string>, first: nat): (s: seq<Record>)
    requires first <= |names|
    ensures |s| == |names| - first + 1
    decreases |names| - first
  {
    if first == |names| then [MARKER] else [InputRecord(names, first)] + Supply(names, first + 1)
  }

  /** What has been pushed when `n` datasets were grabbed. */
  function Pushed(names: seq<string>, n: nat): seq<Record>
    requires n <= |names|
  {
    if n == 0 then [] else Pushed(names, n - 1) + [InputRecord(names, n - 1)]
  }

  lemma {:induction false} PushedIsSupply(names: seq<string>, n: nat)
    requires n <= |names|
    ensures Pushed(names, n) + Supply(names, n) == Supply(names, 0)
  {
    if n > 0 {
      PushedIsSupply(names, n - 1);
      assert Pushed(names, n - 1) + ([InputRecord(names, n - 1)] + Supply(names, n))
             == Pushed(names, n) + Supply(names, n);
    }
  }

  lemma PushedNext(names: seq<string>, n: nat)
    requires n < |names|
    ensures Pushed(names, n + 1) == Pushed(names, n) + [InputRecord(names, n)]
  {
  }

  lemma PushedEnds(names: seq<string>)
    ensures Pushed(names, 0) == [] && Supply(names, |names|) == [MARKER]
  {
  }

  /** The supplier's loop, its read threads, and its end signal. */
  method SupplierRun(file: ExchangeFile, names: seq<string>)
    requires !file.locked && file.doc == InitDoc && |names| <= END
    modifies file
    ensures !file.locked && file.doc == InitDoc.(datasets := Arr(Supply(names, 0)))
  {
    hide Supply, Pushed;
    PushedEnds(names);
    var state := new D.DataSupplyState(|names|);
    var server := new SupplierServerFile(file);
    ghost var n := 0;
    while true
      invariant n <= |names| && state.datasetsToProvide == D.Range(|names|)[n..]
      invariant fresh(state) && fresh(server) && server.file == file && server.readThreads == [] && !file.locked
      invariant file.doc == InitDoc.(datasets := file.doc.datasets) && Items(file.doc.datasets) == Pushed(names, n)
      decreases |names| - n
    {
      ghost var left := state.datasetsToProvide;
      var index := state.GrabDataset();
      if index.None? { break; }
      assert left[0] == ([index.value] + state.datasetsToProvide)[0] == n;
      assert left[1..] == state.datasetsToProvide == D.Range(|names|)[n + 1..];
      PushedNext(names, n);
      server.PushDataset(index.value, names[index.value]);
      var pushed := server.ThreadPushes(0);
      n := n + 1;
    }
    var ok := server.PushEndSignal();
    PushedIsSupply(names, n);
  }

  /** The results of the first n datasets, as published. */
  function Published(n: nat): seq<Record> {
    if n == 0 then [] else Published(n - 1) + [Store(Dataset(n - 1, D.OutName(n - 1), END))]
  }

  /** Every input file is there, and none is a result file. */
  ghost predicate Inputs(files: map<string, D.Bytes>, names: seq<string>) {
    && (forall k :: 0 <= k < |names| ==> names[k] in files)
    && forall k, id: nat :: 0 <= k < |names| ==> names[k] != D.OutName(id)
  }

  ghost predicate Computed(before: map<string, D.Bytes>, files: map<string, D.Bytes>, names: seq<string>, n: nat,
                           f: D.Bytes -> D.Bytes)
    requires Inputs(before, names) && n <= |names|
  {
    && (forall k: nat :: k < n ==> D.OutName(k) in files && files[D.OutName(k)] == f(before[names[k]]))
    && forall k :: 0 <= k < |names| ==> names[k] in files && files[names[k]] == before[names[k]]
  }

  lemma ComputedNext(before: map<string, D.Bytes>, files: map<string, D.Bytes>, names: seq<string>, n: nat,
                     f: D.Bytes -> D.Bytes)
    requires Inputs(before, names) && n < |names| && Computed(before, files, names, n, f)
    ensures Computed(before, files[D.OutName(n) := f(files[names[n]])], names, n + 1, f)
  {
    hide D.OutName;
    forall k: nat | k < n ensures D.OutName(k) != D.OutName(n) {
      if D.OutName(k) == D.OutName(n) { D.OutNameInjective(k, n); }
    }
  }

  /** The worker's loop: connect, pull, compute, persist and publish, and pass on the end signal. */
  method WorkerRun(fs: D.FileSystem, sup: ExchangeFile, agg: ExchangeFile, names: seq<string>, f: D.Bytes -> D.Bytes)
    requires sup != agg && !sup.locked && !agg.locked && |names| <= END && Inputs(fs.files, names)
    requires sup.doc.datasets == Arr(Supply(names, 0)) && agg.doc == InitDoc
    modifies fs, sup, agg
    ensures !sup.locked && !agg.locked && sup.doc.datasets == Arr([MARKER])
    ensures Inputs(old(fs.files), names) && Computed(old(fs.files), fs.files, names, |names|, f)
    ensures agg.doc == Doc(Arr(Published(|names|) + [Store(Dataset(END, "", 1))]), Arr([1]), Null)
  {
    hide D.OutName;
    var supplier := new SupplierClientFile(agg);
    var connected := supplier.Connect();
    ghost var n := 0;
    var input := new D.Dataset();
    var output := new D.Dataset();
    while true
      invariant n <= |names| && sup.doc.datasets == Arr(Supply(names, n)) && !sup.locked && !agg.locked
      invariant fresh(supplier) && supplier.file == agg && supplier.clientId == 1
      invariant fresh(input) && fresh(output) && input != output
      invariant Items(agg.doc.datasets) == Published(n) && agg.doc.clients == Arr([1]) && agg.doc.unregistered == Null
      invariant Computed(old(fs.files), fs.files, names, n, f)
      decreases |names| - n
    {
      var pulled := PullRound(sup);
      match pulled {
        case Pulled(id, filename) =>
          ComputedNext(old(fs.files), fs.files, names, n, f);
          var handled := WorkerHandles(fs, supplier, input, output, id, filename, f);
          n := n + 1;
        case _ => break;
      }
    }
    ClientHandleEndSignal(sup);
    var ended := supplier.PushEndSignal();
  }

  datatype Result = Result(id: nat, name: string, buffer: D.Bytes)

  /** The results of the first n datasets. */
  function Results(before: map<string, D.Bytes>, names: seq<string>, n: nat, f: D.Bytes -> D.Bytes): seq<Result>
    requires n <= |names| && forall k :: 0 <= k < |names| ==> names[k] in before
  {
    if n == 0 then []
    else Results(before, names, n - 1, f) + [Result(n - 1, D.PulledId(n - 1), f(before[names[n - 1]]))]
  }

  /** What the aggregator has still to read. */
  function Unread(first: nat, n: nat): (s: seq<Record>)
    requires first <= n
    ensures |s| == n - first + 1
    decreases n - first
  {
    if first == n then [Store(Dataset(END, "", 1))]
    else [Store(Dataset(first, D.OutName(first), END))] + Unread(first + 1, n)
  }

  lemma {:induction false} PublishedIsUnread(n: nat, i: nat)
    requires i <= n
    ensures Published(i) + Unread(i, n) == Unread(0, n)
  {
    hide D.OutName;
    if i > 0 {
      PublishedIsUnread(n, i - 1);
      var r := Store(Dataset(i - 1, D.OutName(i - 1), END));
      assert Published(i - 1) + ([r] + Unread(i, n)) == Published(i) + Unread(i, n);
    }
  }

  /** The aggregator's loop: pull, fetch, and handle end signals until no supplier is left. */
  method AggregatorRun(fs: D.FileSystem, file: ExchangeFile, ghost names: seq<string>,
                       ghost before: map<string, D.Bytes>, ghost f: D.Bytes -> D.Bytes) returns (results: seq<Result>)
    requires !file.locked && file.doc == Doc(Arr(Unread(0, |names|)), Arr([1]), Null) && |names| <= END
    requires Inputs(before, names) && Computed(before, fs.files, names, |names|, f)
    modifies file
    ensures results == Results(before, names, |names|, f) && !file.locked
  {
    hide D.OutName;
    results := [];
    ghost var n := 0;
    while true
      invariant n <= |names| && file.doc == Doc(Arr(Unread(n, |names|)), Arr([1]), Null) && !file.locked
      invariant results == Results(before, names, n, f)
      decreases |names| - n
    {
      var pulled := PullRound(file);
      match pulled {
        case Pulled(id, filename) =>
          assert filename == D.OutName(n) && filename in fs.files;
          var dataset := new D.Dataset();
          var ok := dataset.RetrieveBufferFromFile(fs, filename);
          dataset.SetId(D.PulledId(id));
          results := results + [Result(id, dataset.id, dataset.buffer)];
          n := n + 1;
        case _ => break;
      }
    }
    OneClientLeaves(file.doc);
    var noMoreSupplier := ServerHandleEndSignal(file);
    assert noMoreSupplier;
  }

  lemma OneClientLeaves(d: Doc)
    requires d == Doc(Arr([Store(Dataset(END, "", 1))]), Arr([1]), Null)
    ensures AllUnregistered(Pop(Unregister(d, First(d).clientId)))
  {
    assert SetOf([]) == [] && Insert([], 1) == [1];
  }

  /** One after the other, on two exchange files, the three loops compute every dataset, in order. */
  method RingAlone(fs: D.FileSystem, names: seq<string>, f: D.Bytes -> D.Bytes) returns (results: seq<Result>)
    requires |names| <= END && Inputs(fs.files, names)
    modifies fs
    ensures Inputs(old(fs.files), names) && |results| == |names|
    ensures forall k :: 0 <= k < |names| ==>
      results[k].id == k && D.IsDatasetName(results[k].name, k) && results[k].buffer == f(old(fs.files)[names[k]])
    ensures forall k: nat :: k < |names| ==> D.Stored(fs.files, k, f(old(fs.files)[names[k]]))
  {
    hide Supply, Results, Published, Unread;
    var sup := new ExchangeFile();
    var agg := new ExchangeFile();
    ghost var before := fs.files;
    SupplierRun(sup, names);
    WorkerRun(fs, sup, agg, names, f);
    assert Published(|names|) + [Store(Dataset(END, "", 1))] == Unread(0, |names|) by {
      PublishedIsUnread(|names|, |names|);
      LastUnread(|names|);
    }
    results := AggregatorRun(fs, agg, names, before, f);
    ResultsAre(before, names, |names|, f);
    OutputsAre(before, fs.files, names, f);
  }

  lemma {:induction false} ResultsAre(before: map<string, D.Bytes>, names: seq<string>, n: nat, f: D.Bytes -> D.Bytes)
    requires n <= |names| && forall k :: 0 <= k < |names| ==> names[k] in before
    ensures var r := Results(before, names, n, f);
      |r| == n && forall k :: 0 <= k < n ==>
        r[k].id == k && D.IsDatasetName(r[k].name, k) && r[k].buffer == f(before[names[k]])
  {
    hide D.PulledId, D.IsDatasetName;
    if n > 0 {
      ResultsAre(before, names, n - 1, f);
      D.NamesInFull(n - 1);
    }
  }

  lemma OutputsAre(before: map<string, D.Bytes>, files: map<string, D.Bytes>, names: seq<string>, f: D.Bytes -> D.Bytes)
    requires Inputs(before, names) && Computed(before, files, names, |names|, f)
    ensures forall k: nat :: k < |names| ==> D.Stored(files, k, f(before[names[k]]))
  {
    hide D.OutName, D.Stored;
    forall k: nat | k < |names| ensures D.Stored(files, k, f(before[names[k]])) {
      D.StoredUnderOutName(files, k);
    }
  }

  lemma LastUnread(n: nat)
    ensures Unread(n, n) == [Store(Dataset(END, "", 1))]
  {
  }
}
