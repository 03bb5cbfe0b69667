/**
 The exchange file and the four endpoints built on it, in the sequential form of the source. Each
 method states its effect with the operations of `ExchangeDoc`, which are also the atomic steps of
 the protocol in `FileRing`.
 */
module ExchangeFiles {
  import opened ExchangeDoc
  import D = Datasets
  import opened Wrappers

  class ExchangeFile {
    var doc: Doc
    var locked: bool // the lock file exists

    constructor ()
      ensures doc == InitDoc && !locked
    {
      doc, locked := InitDoc, false;
    }

    /** One attempt of `LockFile`: creating the lock file fails when it already exists. */
    method TryLock() returns (ok: bool)
      modifies this`locked
      ensures ok == !old(locked) && locked
    {
      ok := !locked;
      locked := true;
    }

    method UnlockFile()
      modifies this`locked
      ensures !locked
    {
      locked := false;
    }

    method RegisterClient() returns (client: nat)
      modifies this`doc
      ensures client == NextClientId(old(doc)) && doc == Register(old(doc))
      ensures ListsConsistent(old(doc)) && |Items(old(doc).clients)| + 1 < END ==>
                client !in Items(old(doc).clients) && ListsConsistent(doc)
    {
      if ListsConsistent(doc) && |Items(doc.clients)| + 1 < END { RegisterConsistent(doc); }
      client := (|Items(doc.clients)| + 1) % UINT32;
      doc := doc.(clients := PushBack(doc.clients, client));
    }

    method PushDataset(x: Dataset)
      modifies this`doc
      ensures doc == Push(old(doc), x) && Queue(doc) == Queue(old(doc)) + [x]
    {
      var record := Record(x.id, x.filename, None);
      if x.clientId != END { record := record.(clientId := Some(x.clientId)); }
      doc := doc.(datasets := PushBack(doc.datasets, record));
    }

    method GetFirstDataset() returns (x: Dataset)
      requires HasDataset(doc)
      ensures x == First(doc) == Queue(doc)[0]
    {
      var record := Items(doc.datasets)[0];
      x := Dataset(record.id, record.filename, END);
      if record.clientId.Some? { x := x.(clientId := record.clientId.value); }
    }

    method PopFirstDataset()
      requires HasDataset(doc)
      modifies this`doc
      ensures doc == Pop(old(doc)) && Queue(doc) == Queue(old(doc))[1..]
    {
      doc := doc.(datasets := Arr(Items(doc.datasets)[1..]));
    }

    method UnregisterClient(client: nat)
      modifies this`doc
      ensures doc == Unregister(old(doc), client)
      ensures forall c :: c in Items(doc.unregistered) <==> c in Items(old(doc).unregistered) || c == client
    {
      var ids := SetOf(Items(doc.unregistered));
      ids := Insert(ids, client);
      doc := doc.(unregistered := Arr(ids));
    }

    method AreAllClientsUnregistered() returns (r: bool)
      ensures r == AllUnregistered(doc)
      ensures ListsConsistent(doc) ==> (r <==> forall c :: c in Items(doc.clients) ==> c in Items(doc.unregistered))
    {
      if ListsConsistent(doc) { AllUnregisteredMeans(doc); }
      r := doc.clients == doc.unregistered;
    }
  }

  /** The file holds at most what was stored: a pushed dataset is read back as it was pushed. */
  lemma PushThenFirst(d: Doc, x: Dataset)
    requires !HasDataset(d)
    ensures HasDataset(Push(d, x)) && First(Push(d, x)) == x
    ensures Pop(Push(d, x)) == d.(datasets := Arr([]))
  {
    assert Items(Push(d, x).datasets) == [Store(x)];
  }

  datatype Pulled = Busy | Empty | EndSignal | Pulled(id: nat, filename: string)

  /** What one round of a polling `PullDataset` finds. */
  function PullOutcome(d: Doc, locked: bool): Pulled {
    if locked then Busy
    else if !HasDataset(d) then Empty
    else if First(d).id == END then EndSignal
    else Pulled(First(d).id, First(d).filename)
  }

  /** One polling round, shared by the two aggregators: an end marker keeps the lock. */
  method PullRound(file: ExchangeFile) returns (r: Pulled)
    modifies file
    ensures r == PullOutcome(old(file.doc), old(file.locked))
    ensures file.doc == if r.Pulled? then Pop(old(file.doc)) else old(file.doc)
    ensures file.locked == (r.Busy? || r.EndSignal?)
  {
    var ok := file.TryLock();
    if !ok { return Busy; }
    if !HasDataset(file.doc) {
      file.UnlockFile();
      return Empty;
    }
    var first := file.GetFirstDataset();
    if first.id == END { return EndSignal; }
    file.PopFirstDataset();
    file.UnlockFile();
    return Pulled(first.id, first.filename);
  }

  /** Pushing under the lock, once the lock file could be created. */
  method PushLocked(file: ExchangeFile, x: Dataset) returns (ok: bool)
    modifies file
    ensures ok == !old(file.locked)
    ensures file.doc == if ok then Push(old(file.doc), x) else old(file.doc)
    ensures file.locked == old(file.locked)
  {
    ok := file.TryLock();
    if ok {
      file.PushDataset(x);
      file.UnlockFile();
    }
  }

  class SupplierServerFile {
    const file: ExchangeFile
    var readThreads: seq<Dataset> // threads started and not finished yet

    constructor (file: ExchangeFile)
      ensures this.file == file && readThreads == []
    {
      this.file, readThreads := file, [];
    }

    method PushDataset(id: nat, filename: string)
      modifies this`readThreads
      ensures readThreads == if id == END then old(readThreads)
                             else old(readThreads) + [Dataset(id, filename, END)]
    {
      if id == END { return; }
      readThreads := readThreads + [Dataset(id, filename, END)];
    }

    /** Thread `t` reaches its locked region. */
    method ThreadPushes(t: nat) returns (ok: bool)
      requires t < |readThreads|
      modifies this`readThreads, file
      ensures ok == !old(file.locked) && file.locked == old(file.locked)
      ensures ok ==> file.doc == Push(old(file.doc), old(readThreads[t]))
                     && readThreads == old(readThreads[..t] + readThreads[t + 1..])
      ensures !ok ==> file.doc == old(file.doc) && readThreads == old(readThreads)
    {
      ok := PushLocked(file, readThreads[t]);
      if ok { readThreads := readThreads[..t] + readThreads[t + 1..]; }
    }

    /** Every thread is joined before the marker is pushed, so this is called without threads. */
    method PushEndSignal() returns (ok: bool)
      requires readThreads == []
      modifies file
      ensures ok == !old(file.locked) && file.locked == old(file.locked)
      ensures file.doc == if ok then Push(old(file.doc), Dataset(END, "", END)) else old(file.doc)
    {
      ok := PushLocked(file, Dataset(END, "", END));
    }
  }

  class SupplierClientFile {
    const file: ExchangeFile
    var clientId: nat

    constructor (file: ExchangeFile)
      ensures this.file == file && clientId == END
    {
      this.file, clientId := file, END;
    }

    method Connect() returns (ok: bool)
      modifies this`clientId, file
      ensures ok == !old(file.locked) && file.locked == old(file.locked)
      ensures ok ==> clientId == NextClientId(old(file.doc)) && file.doc == Register(old(file.doc))
      ensures !ok ==> clientId == old(clientId) && file.doc == old(file.doc)
    {
      ok := file.TryLock();
      if ok {
        clientId := file.RegisterClient();
        file.UnlockFile();
      }
    }

    /** Nothing is pushed for the id of an end marker. */
    method PushDataset(id: nat, filename: string) returns (ok: bool)
      modifies file
      ensures ok == (id == END || !old(file.locked)) && file.locked == old(file.locked)
      ensures file.doc == if ok && id != END then Push(old(file.doc), Dataset(id, filename, END)) else old(file.doc)
    {
      if id == END { return true; }
      ok := PushLocked(file, Dataset(id, filename, END));
    }

    method PushEndSignal() returns (ok: bool)
      modifies file
      ensures ok == !old(file.locked) && file.locked == old(file.locked)
      ensures file.doc == if ok then Push(old(file.doc), Dataset(END, "", clientId)) else old(file.doc)
    {
      ok := PushLocked(file, Dataset(END, "", clientId));
    }
  }

  /** As a client, the aggregator leaves the end marker where it is. */
  method ClientHandleEndSignal(file: ExchangeFile)
    modifies file
    ensures !file.locked && file.doc == old(file.doc)
  {
    file.UnlockFile();
  }

  /** As a server, it removes the marker, unregisters its sender, unlocks, and only then tests. */
  method ServerHandleEndSignal(file: ExchangeFile) returns (noMoreSupplier: bool)
    requires file.locked && HasDataset(file.doc)
    modifies file
    ensures !file.locked
    ensures file.doc == Pop(Unregister(old(file.doc), First(old(file.doc)).clientId))
    ensures noMoreSupplier == AllUnregistered(file.doc)
  {
    var first := file.GetFirstDataset();
    file.UnregisterClient(first.clientId);
    file.PopFirstDataset();
    file.UnlockFile();
    noMoreSupplier := file.AreAllClientsUnregistered();
  }

  /**
   The body of a worker's loop for one dataset, when nobody else holds the aggregator's lock:
   read, compute, persist, and only then publish the name of the result.
   */
  method WorkerHandles(fs: D.FileSystem, agg: SupplierClientFile, input: D.Dataset, output: D.Dataset,
                       id: nat, filename: string, f: D.Bytes -> D.Bytes) returns (ok: bool)
    requires input != output && !agg.file.locked
    modifies fs, agg.file, input, output
    ensures ok == (filename in old(fs.files)) && !agg.file.locked
    ensures D.IsOutputName(D.OutName(id), id)
    ensures ok ==>
      && fs.files == old(fs.files)[D.OutName(id) := f(old(fs.files)[filename])]
      && agg.file.doc == if id == END then old(agg.file.doc)
                         else Push(old(agg.file.doc), Dataset(id, D.OutName(id), END))
    ensures !ok ==> fs.files == old(fs.files) && agg.file.doc == old(agg.file.doc)
  {
    D.NamesInFull(id);
    ok := input.RetrieveBufferFromFile(fs, filename);
    if !ok { return; }
    input.SetId(D.PulledId(id));
    output.SetId(input.id);
    output.RetainBuffer(f(input.buffer));
    output.SetData(D.OUTPUT_DIR);
    output.PersistAndRelease(fs);
    ok := agg.PushDataset(id, D.FileName(D.OUTPUT_DIR, output.id));
  }
}
