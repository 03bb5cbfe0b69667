/**
 The dataset ring over exchange files: one supplier server, any number of workers, one aggregator
 server. A step is one region between locking and unlocking an exchange file, or one unlocked access.
 */
module FileRing {
  import opened ExchangeDoc
  import opened Datasets
  import opened ExchangeFiles
  import opened Wrappers

  /** `names[k]` is the file of input dataset `k`; `f` is what a worker computes. */
  datatype Config = Config(names: seq<string>, files: map<string, Bytes>, workers: nat, f: Bytes -> Bytes) {
    ghost predicate Valid() {
      && |names| <= END
      && workers < END - 1
      && (forall k :: 0 <= k < |names| ==> names[k] in files)
      && (forall k, id: nat :: 0 <= k < |names| ==> names[k] != OutName(id))
    }

    ghost function Input(k: nat): Bytes
      requires Valid() && k < |names|
    {
      files[names[k]]
    }
  }

  datatype Worker =
    | Idle
    | Pulling(client: nat)
    | AtMarker(client: nat)                             // holds the supplier's lock
    | Popped(client: nat, id: nat, filename: string)
    | Loaded(client: nat, id: nat, buffer: Bytes)
    | Persisted(client: nat, id: nat)
    | Ending(client: nat)
    | Done(client: nat)

  datatype Aggregator =
    | Polling
    | Unregistering                                     // holds the aggregator's lock
    | Testing                                           // unlocked, about to compare the client lists
    | Fetching(id: nat, filename: string)
    | Exited

  datatype Result = Result(id: nat, name: string, buffer: Bytes)

  datatype State = State(
    toProvide: seq<nat>, reading: set<nat>, ended: bool,
    sup: Doc, supLock: Option<nat>,
    agg: Doc, aggLock: bool,
    files: map<string, Bytes>,
    workers: seq<Worker>,
    aggregator: Aggregator, results: seq<Result>)

  ghost function Init(c: Config): State {
    State(Range(|c.names|), {}, false, InitDoc, None, InitDoc, false, c.files,
          seq(c.workers, _ => Idle), Polling, [])
  }

  datatype Step =
    | Grab | ThreadPush(id: nat) | SupplierEnd
    | Connect(w: nat) | WorkerPoll(w: nat) | SeeMarker(w: nat) | PopDataset(w: nat) | ReadInput(w: nat)
    | PersistResult(w: nat) | PushResult(w: nat) | Leave(w: nat) | PushEnd(w: nat)
    | AggPoll | AggSeeEnd | AggPop | AggFetch | AggUnregister | AggTest

  predicate IsPoll(e: Step) { e.WorkerPoll? || e.AggPoll? }

  ghost predicate Enabled(c: Config, s: State, e: Step) {
    match e
    case Grab => s.toProvide != []
    case ThreadPush(id) => id in s.reading && s.supLock.None? && id < |c.names|
    case SupplierEnd => s.toProvide == [] && s.reading == {} && !s.ended && s.supLock.None?
    case Connect(w) => w < |s.workers| && s.workers[w].Idle? && !s.aggLock
    case WorkerPoll(w) =>
      w < |s.workers| && s.workers[w].Pulling? && PullOutcome(s.sup, s.supLock.Some?) in {Busy, Empty}
    case SeeMarker(w) => w < |s.workers| && s.workers[w].Pulling? && PullOutcome(s.sup, s.supLock.Some?).EndSignal?
    case PopDataset(w) => w < |s.workers| && s.workers[w].Pulling? && PullOutcome(s.sup, s.supLock.Some?).Pulled?
    case ReadInput(w) => w < |s.workers| && s.workers[w].Popped? && s.workers[w].filename in s.files
    case PersistResult(w) => w < |s.workers| && s.workers[w].Loaded?
    case PushResult(w) => w < |s.workers| && s.workers[w].Persisted? && !s.aggLock
    case Leave(w) => w < |s.workers| && s.workers[w].AtMarker?
    case PushEnd(w) => w < |s.workers| && s.workers[w].Ending? && !s.aggLock
    case AggPoll => s.aggregator.Polling? && PullOutcome(s.agg, s.aggLock) in {Busy, Empty}
    case AggSeeEnd => s.aggregator.Polling? && PullOutcome(s.agg, s.aggLock).EndSignal?
    case AggPop => s.aggregator.Polling? && PullOutcome(s.agg, s.aggLock).Pulled?
    case AggFetch => s.aggregator.Fetching? && s.aggregator.filename in s.files
    case AggUnregister => s.aggregator.Unregistering? && HasDataset(s.agg)
    case AggTest => s.aggregator.Testing?
  }

  ghost function Apply(c: Config, s: State, e: Step): State
    requires Enabled(c, s, e)
  {
    match e
    case Grab => s.(toProvide := s.toProvide[1..], reading := s.reading + {s.toProvide[0]})
    case ThreadPush(id) =>
      s.(reading := s.reading - {id}, sup := Push(s.sup, Dataset(id, c.names[id], END)))
    case SupplierEnd => s.(ended := true, sup := Push(s.sup, Dataset(END, "", END)))
    case Connect(w) =>
      s.(workers := s.workers[w := Pulling(NextClientId(s.agg))], agg := Register(s.agg))
    case WorkerPoll(w) => s
    case SeeMarker(w) => s.(workers := s.workers[w := AtMarker(s.workers[w].client)], supLock := Some(w))
    case PopDataset(w) =>
      s.(workers := s.workers[w := Popped(s.workers[w].client, First(s.sup).id, First(s.sup).filename)],
         sup := Pop(s.sup))
    case ReadInput(w) =>
      s.(workers := s.workers[w := Loaded(s.workers[w].client, s.workers[w].id, s.files[s.workers[w].filename])])
    case PersistResult(w) =>
      s.(workers := s.workers[w := Persisted(s.workers[w].client, s.workers[w].id)],
         files := s.files[OutName(s.workers[w].id) := c.f(s.workers[w].buffer)])
    case PushResult(w) =>
      s.(workers := s.workers[w := Pulling(s.workers[w].client)],
         agg := Push(s.agg, Dataset(s.workers[w].id, OutName(s.workers[w].id), END)))
    case Leave(w) => s.(workers := s.workers[w := Ending(s.workers[w].client)], supLock := None)
    case PushEnd(w) =>
      s.(workers := s.workers[w := Done(s.workers[w].client)],
         agg := Push(s.agg, Dataset(END, "", s.workers[w].client)))
    case AggPoll => s
    case AggSeeEnd => s.(aggregator := Unregistering, aggLock := true)
    case AggPop => s.(aggregator := Fetching(First(s.agg).id, First(s.agg).filename), agg := Pop(s.agg))
    case AggFetch =>
      s.(aggregator := Polling,
         results := s.results + [Result(s.aggregator.id, PulledId(s.aggregator.id), s.files[s.aggregator.filename])])
    case AggUnregister =>
      s.(aggregator := Testing, aggLock := false, agg := Pop(Unregister(s.agg, First(s.agg).clientId)))
    case AggTest => s.(aggregator := if AllUnregistered(s.agg) then Exited else Polling)
  }

  /** The state after a run, or None when some step of it cannot be taken. */
  ghost function Exec(c: Config, run: seq<Step>): Option<State> {
    if run == [] then Some(Init(c)) else
      var before := Exec(c, run[..|run| - 1]);
      var e := run[|run| - 1];
      if before.Some? && Enabled(c, before.value, e) then Some(Apply(c, before.value, e)) else None
  }

  // ---------- conservation: where each id is ----------

  ghost function InQueue(q: seq<Record>, id: nat): nat {
    if q == [] then 0 else (if q[0].id == id && id != END then 1 else 0) + InQueue(q[1..], id)
  }

  ghost function HeldBy(w: Worker, id: nat): nat {
    if (w.Popped? || w.Loaded? || w.Persisted?) && w.id == id then 1 else 0
  }

  ghost function Held(ws: seq<Worker>, id: nat): nat {
    if ws == [] then 0 else HeldBy(ws[0], id) + Held(ws[1..], id)
  }

  ghost function Fetched(a: Aggregator, id: nat): nat {
    if a.Fetching? && a.id == id then 1 else 0
  }

  ghost function Ids(rs: seq<Result>): seq<nat> {
    seq(|rs|, i requires 0 <= i < |rs| => rs[i].id)
  }

  /** In how many places dataset `id` is. */
  ghost function Places(s: State, id: nat): nat {
    multiset(s.toProvide)[id] + (if id in s.reading then 1 else 0)
    + InQueue(Items(s.sup.datasets), id) + Held(s.workers, id)
    + InQueue(Items(s.agg.datasets), id) + Fetched(s.aggregator, id) + multiset(Ids(s.results))[id]
  }

  ghost predicate Conserved(c: Config, s: State) {
    forall id: nat :: Places(s, id) == if id < |c.names| then 1 else 0
  }

  lemma {:induction false} InQueueAppend(q: seq<Record>, r: Record, id: nat)
    ensures InQueue(q + [r], id) == InQueue(q, id) + InQueue([r], id)
  {
    if q != [] {
      InQueueAppend(q[1..], r, id);
      assert (q + [r])[1..] == q[1..] + [r];
    } else {
      assert q + [r] == [r];
    }
  }

  lemma {:induction false} InQueueMember(q: seq<Record>, i: nat)
    requires i < |q| && q[i].id != END
    ensures InQueue(q, q[i].id) >= 1
  {
    if i > 0 { InQueueMember(q[1..], i - 1); }
  }

  lemma {:induction false} HeldUpdate(ws: seq<Worker>, w: nat, x: Worker, id: nat)
    requires w < |ws|
    ensures Held(ws[w := x], id) + HeldBy(ws[w], id) == Held(ws, id) + HeldBy(x, id)
  {
    if w == 0 {
      assert ws[w := x][1..] == ws[1..];
    } else {
      HeldUpdate(ws[1..], w - 1, x, id);
      assert ws[w := x][1..] == ws[1..][w - 1 := x];
    }
  }

  lemma {:induction false} HeldContains(ws: seq<Worker>, w: nat, id: nat)
    requires w < |ws|
    ensures HeldBy(ws[w], id) <= Held(ws, id)
  {
    if w > 0 { HeldContains(ws[1..], w - 1, id); }
  }

  lemma {:induction false} HeldIdle(n: nat, id: nat)
    ensures Held(seq(n, _ => Idle), id) == 0
  {
    if n > 0 {
      HeldIdle(n - 1, id);
      assert seq(n, _ => Idle)[1..] == seq(n - 1, _ => Idle);
    }
  }

  lemma {:induction false} RangeCounts(n: nat, id: nat)
    ensures multiset(Range(n))[id] == if id < n then 1 else 0
  {
    if n > 0 {
      RangeCounts(n - 1, id);
      assert Range(n) == Range(n - 1) + [n - 1];
    }
  }

  lemma InitConserved(c: Config)
    requires c.Valid()
    ensures Conserved(c, Init(c))
  {
    forall id: nat ensures Places(Init(c), id) == if id < |c.names| then 1 else 0 {
      RangeCounts(|c.names|, id);
      HeldIdle(c.workers, id);
    }
  }

  lemma StepConserves(c: Config, s: State, e: Step)
    requires c.Valid() && Conserved(c, s) && Enabled(c, s, e)
    requires e.AggUnregister? ==> First(s.agg).id == END
    ensures Conserved(c, Apply(c, s, e))
  {
    var t := Apply(c, s, e);
    forall id: nat ensures Places(t, id) == Places(s, id) {
      StepKeepsPlaces(c, s, e, id);
    }
  }

  lemma StepKeepsPlaces(c: Config, s: State, e: Step, id: nat)
    requires c.Valid() && Conserved(c, s) && Enabled(c, s, e)
    requires e.AggUnregister? ==> First(s.agg).id == END
    ensures Places(Apply(c, s, e), id) == Places(s, id)
  {
    match e {
      case Grab | ThreadPush(_) | SupplierEnd => SupplierKeepsPlaces(c, s, e, id);
      case AggPoll | AggSeeEnd | AggPop | AggFetch | AggUnregister | AggTest => AggregatorKeepsPlaces(c, s, e, id);
      case PushResult(w) => PushResultKeepsPlaces(c, s, w, id);
      case PopDataset(w) => HeldUpdate(s.workers, w, Apply(c, s, e).workers[w], id);
      case WorkerPoll(w) =>
      case _ => WorkerKeepsPlaces(c, s, e, id);
    }
  }

  lemma SupplierKeepsPlaces(c: Config, s: State, e: Step, id: nat)
    requires c.Valid() && Conserved(c, s) && Enabled(c, s, e)
    requires e.Grab? || e.ThreadPush? || e.SupplierEnd?
    ensures Places(Apply(c, s, e), id) == Places(s, id)
  {
    match e {
      case Grab =>
        var k := s.toProvide[0];
        assert s.toProvide == [k] + s.toProvide[1..];
        assert Places(s, k) <= 1;
      case ThreadPush(k) => InQueueAppend(Items(s.sup.datasets), Store(Dataset(k, c.names[k], END)), id);
      case SupplierEnd => InQueueAppend(Items(s.sup.datasets), Store(Dataset(END, "", END)), id);
    }
  }

  lemma AggregatorKeepsPlaces(c: Config, s: State, e: Step, id: nat)
    requires c.Valid() && Enabled(c, s, e)
    requires e.AggPoll? || e.AggSeeEnd? || e.AggPop? || e.AggFetch? || e.AggUnregister? || e.AggTest?
    requires e.AggUnregister? ==> First(s.agg).id == END
    ensures Places(Apply(c, s, e), id) == Places(s, id)
  {
    if e.AggFetch? {
      assert Ids(Apply(c, s, e).results) == Ids(s.results) + [s.aggregator.id];
    }
  }

  lemma PushResultKeepsPlaces(c: Config, s: State, w: nat, id: nat)
    requires c.Valid() && Conserved(c, s) && Enabled(c, s, PushResult(w))
    ensures Places(Apply(c, s, PushResult(w)), id) == Places(s, id)
  {
    hide OutName, Held;
    var k := s.workers[w].id;
    HeldUpdate(s.workers, w, Apply(c, s, PushResult(w)).workers[w], id);
    HeldContains(s.workers, w, k);
    assert Places(s, k) >= 1;
    InQueueAppend(Items(s.agg.datasets), Store(Dataset(k, OutName(k), END)), id);
  }

  lemma WorkerKeepsPlaces(c: Config, s: State, e: Step, id: nat)
    requires c.Valid() && Enabled(c, s, e)
    requires e.Connect? || e.SeeMarker? || e.ReadInput? || e.PersistResult? || e.Leave? || e.PushEnd?
    ensures Places(Apply(c, s, e), id) == Places(s, id)
  {
    hide OutName, Held;
    HeldUpdate(s.workers, e.w, Apply(c, s, e).workers[e.w], id);
    if e.PushEnd? {
      InQueueAppend(Items(s.agg.datasets), Store(Dataset(END, "", s.workers[e.w].client)), id);
    }
  }
}
