/** The file ring cannot get stuck, and can only do finitely many steps other than polling. */
module FileRingLiveness {
  import opened ExchangeDoc
  import opened Datasets
  import opened FileRing
  import opened FileRingSafety
  import opened Wrappers

  // ---------- work left ----------

  ghost function QueueWork(q: seq<Record>, perDataset: nat, perEnd: nat): nat {
    if q == [] then 0 else (if q[0].id == END then perEnd else perDataset) + QueueWork(q[1..], perDataset, perEnd)
  }

  ghost function WorkerWork(w: Worker): nat {
    match w
    case Idle => 8
    case Pulling(_) => 7
    case AtMarker(_) => 6
    case Ending(_) => 5
    case Done(_) => 0
    case Popped(_, _, _) => 7 + 5
    case Loaded(_, _, _) => 7 + 4
    case Persisted(_, _) => 7 + 3
  }

  ghost function WorkersWork(ws: seq<Worker>): nat {
    if ws == [] then 0 else WorkerWork(ws[0]) + WorkersWork(ws[1..])
  }

  ghost function AggregatorWork(a: Aggregator): nat {
    match a
    case Exited => 0
    case Unregistering => 1
    case Polling => 2
    case Testing => 3
    case Fetching(_, _) => 3
  }

  ghost function Work(s: State): nat {
    8 * |s.toProvide| + 7 * |s.reading| + (if s.ended then 0 else 1)
    + QueueWork(Items(s.sup.datasets), 6, 0) + WorkersWork(s.workers)
    + QueueWork(Items(s.agg.datasets), 2, 4) + AggregatorWork(s.aggregator)
  }

  lemma {:induction false} QueueWorkAppend(q: seq<Record>, r: Record, d: nat, e: nat)
    ensures QueueWork(q + [r], d, e) == QueueWork(q, d, e) + if r.id == END then e else d
  {
    if q != [] {
      QueueWorkAppend(q[1..], r, d, e);
      assert (q + [r])[1..] == q[1..] + [r];
    } else {
      assert q + [r] == [r] && [r][1..] == [];
    }
  }

  lemma {:induction false} WorkersWorkUpdate(ws: seq<Worker>, w: nat, x: Worker)
    requires w < |ws|
    ensures WorkersWork(ws[w := x]) + WorkerWork(ws[w]) == WorkersWork(ws) + WorkerWork(x)
  {
    if w == 0 {
      assert ws[w := x][1..] == ws[1..];
    } else {
      WorkersWorkUpdate(ws[1..], w - 1, x);
      assert ws[w := x][1..] == ws[1..][w - 1 := x];
    }
  }

  lemma SupplierWorks(c: Config, s: State, e: Step)
    requires c.Valid() && Conserved(c, s) && Enabled(c, s, e)
    requires e.Grab? || e.ThreadPush? || e.SupplierEnd?
    ensures Work(Apply(c, s, e)) < Work(s)
  {
    match e {
      case Grab =>
        assert Places(s, s.toProvide[0]) <= 1;
        assert s.toProvide[0] in s.toProvide;
        assert |s.reading + {s.toProvide[0]}| == |s.reading| + 1;
      case ThreadPush(k) => QueueWorkAppend(Items(s.sup.datasets), Store(Dataset(k, c.names[k], END)), 6, 0);
      case SupplierEnd => QueueWorkAppend(Items(s.sup.datasets), Store(Dataset(END, "", END)), 6, 0);
    }
  }

  lemma WorkerWorks(c: Config, s: State, e: Step)
    requires Enabled(c, s, e)
    requires e.Connect? || e.SeeMarker? || e.PopDataset? || e.ReadInput? || e.PersistResult? || e.Leave?
    ensures Work(Apply(c, s, e)) < Work(s)
  {
    WorkersWorkUpdate(s.workers, e.w, Apply(c, s, e).workers[e.w]);
  }

  lemma WorkerPushes(c: Config, s: State, e: Step)
    requires Enabled(c, s, e)
    requires e.PushEnd? || (e.PushResult? && s.workers[e.w].id != END)
    ensures Work(Apply(c, s, e)) < Work(s)
  {
    var q, w := Items(s.agg.datasets), s.workers[e.w];
    WorkersWorkUpdate(s.workers, e.w, Apply(c, s, e).workers[e.w]);
    if e.PushResult? {
      QueueWorkAppend(q, Store(Dataset(w.id, OutName(w.id), END)), 2, 4);
    } else {
      QueueWorkAppend(q, Store(Dataset(END, "", w.client)), 2, 4);
    }
  }

  lemma AggregatorWorks(c: Config, s: State, e: Step)
    requires Locks(s) && Enabled(c, s, e)
    requires e.AggSeeEnd? || e.AggPop? || e.AggFetch? || e.AggUnregister? || e.AggTest?
    ensures Work(Apply(c, s, e)) < Work(s)
  {
  }

  /** Every step that is not an empty poll uses up some of the work; an empty poll changes nothing. */
  lemma StepsUseUpWork(c: Config, s: State, e: Step)
    requires c.Valid() && Inv(c, s) && Enabled(c, s, e)
    ensures if IsPoll(e) then Apply(c, s, e) == s else Work(Apply(c, s, e)) < Work(s)
  {
    hide Work, Conserved, Locks, Marker, Clients, Ends, EndFollows, Tests, Complete, OutName;
    match e {
      case Grab | ThreadPush(_) | SupplierEnd => SupplierWorks(c, s, e);
      case AggPoll | WorkerPoll(_) =>
      case AggSeeEnd | AggPop | AggFetch | AggUnregister | AggTest => AggregatorWorks(c, s, e);
      case PushEnd(_) => WorkerPushes(c, s, e);
      case PushResult(w) =>
        assert WorkerContent(c, s.files, s.workers[w]);
        WorkerPushes(c, s, e);
      case _ => WorkerWorks(c, s, e);
    }
  }

  ghost function Useful(run: seq<Step>): nat {
    if run == [] then 0 else Useful(run[..|run| - 1]) + if IsPoll(run[|run| - 1]) then 0 else 1
  }

  /** A bound on the steps of any run, polls apart. */
  lemma {:induction false} UsefulStepsBounded(c: Config, run: seq<Step>)
    requires c.Valid() && Exec(c, run).Some?
    ensures Useful(run) + Work(Exec(c, run).value) <= Work(Init(c))
  {
    if run != [] {
      var init := run[..|run| - 1];
      UsefulStepsBounded(c, init);
      RunInv(c, init);
      StepsUseUpWork(c, Exec(c, init).value, run[|run| - 1]);
    }
  }

  // ---------- progress ----------

  lemma SomeWorkerCanStep(c: Config, s: State, w: nat) returns (e: Step)
    requires c.Valid() && Inv(c, s) && w < |s.workers| && !s.workers[w].Done?
    requires s.ended && s.supLock.None? && !s.aggLock
    ensures Enabled(c, s, e) && !IsPoll(e)
  {
    assert WorkerContent(c, s.files, s.workers[w]);
    match s.workers[w] {
      case Idle => e := Connect(w);
      case Pulling(_) =>
        if First(s.sup).id == END { e := SeeMarker(w); } else { e := PopDataset(w); }
      case AtMarker(_) => e := Leave(w);
      case Popped(_, _, _) => e := ReadInput(w);
      case Loaded(_, _, _) => e := PersistResult(w);
      case Persisted(_, _) => e := PushResult(w);
      case Ending(_) => e := PushEnd(w);
    }
  }

  /** When all workers have finished and their markers are consumed, the client lists agree. */
  lemma AllDoneAgree(c: Config, s: State)
    requires c.Valid() && Clients(c, s) && Ends(s) && Items(s.agg.datasets) == [] && 0 < |s.workers|
    requires forall w :: 0 <= w < |s.workers| ==> s.workers[w].Done?
    ensures s.agg.clients.Arr? && AllUnregistered(s.agg)
  {
    assert s.workers[0].client in Items(s.agg.clients);
    AllUnregisteredMeans(s.agg);
    forall k | k in Items(s.agg.clients) ensures k in Items(s.agg.unregistered) {
      var w :| 0 <= w < |s.workers| && HasClient(s.workers[w], k);
      assert EndsIn(Items(s.agg.datasets)) == [];
    }
  }

  lemma AggregatorCanStep(c: Config, s: State) returns (e: Step)
    requires c.Valid() && Locks(s) && Contents(c, s) && !s.aggregator.Exited?
    requires s.aggregator.Polling? ==> HasDataset(s.agg)
    ensures Enabled(c, s, e) && !IsPoll(e)
  {
    hide OutName, PulledId;
    match s.aggregator {
      case Unregistering => e := AggUnregister;
      case Testing => e := AggTest;
      case Fetching(_, _) => e := AggFetch;
      case Polling => e := if First(s.agg).id == END then AggSeeEnd else AggPop;
    }
  }

  lemma SupplierCanStep(c: Config, s: State) returns (e: Step)
    requires Conserved(c, s) && s.supLock.None? && !s.ended
    ensures Enabled(c, s, e) && !IsPoll(e)
  {
    if s.toProvide != [] { return Grab; }
    if id :| id in s.reading {
      assert Places(s, id) >= 1;
      return ThreadPush(id);
    }
    return SupplierEnd;
  }

  /** Until the aggregator has left, some step other than an empty poll can be taken. */
  lemma NeverStuck(c: Config, s: State) returns (e: Step)
    requires c.Valid() && Inv(c, s) && 0 < c.workers && !s.aggregator.Exited?
    ensures Enabled(c, s, e) && !IsPoll(e)
  {
    hide OutName, Conserved, Contents, Marker, Ends, EndFollows, Complete, ListsConsistent;
    if s.supLock.Some? { return Leave(s.supLock.value); }
    if !s.aggregator.Polling? || HasDataset(s.agg) {
      e := AggregatorCanStep(c, s);
    } else if !s.ended {
      e := SupplierCanStep(c, s);
    } else if w: nat :| w < |s.workers| && !s.workers[w].Done? {
      e := SomeWorkerCanStep(c, s, w);
    } else {
      AllDoneAgree(c, s);
      assert false;
    }
  }

  lemma ExecAppend(c: Config, run: seq<Step>, e: Step)
    requires Exec(c, run).Some? && Enabled(c, Exec(c, run).value, e)
    ensures Exec(c, run + [e]) == Some(Apply(c, Exec(c, run).value, e))
  {
    assert (run + [e])[..|run + [e]| - 1] == run;
  }

  /** Some step that can be taken next brings the aggregator nearer to its exit. */
  lemma Advance(c: Config, run: seq<Step>) returns (e: Step)
    requires c.Valid() && 0 < c.workers && Exec(c, run).Some? && !Exec(c, run).value.aggregator.Exited?
    ensures Exec(c, run + [e]).Some? && Work(Exec(c, run + [e]).value) < Work(Exec(c, run).value)
  {
    RunInv(c, run);
    e := NeverStuck(c, Exec(c, run).value);
    StepsUseUpWork(c, Exec(c, run).value, e);
    ExecAppend(c, run, e);
  }

  /** From wherever a run has got to, it can be continued until the aggregator leaves. */
  lemma {:induction false} ExitAlwaysReachable(c: Config, run: seq<Step>) returns (longer: seq<Step>)
    requires c.Valid() && 0 < c.workers && Exec(c, run).Some?
    ensures run <= longer
    ensures Exec(c, longer).Some? && Exec(c, longer).value.aggregator.Exited?
    decreases Work(Exec(c, run).value)
  {
    longer := run;
    if !Exec(c, run).value.aggregator.Exited? {
      var e := Advance(c, run);
      longer := ExitAlwaysReachable(c, run + [e]);
    }
  }
}
