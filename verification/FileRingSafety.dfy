/** What every step of the file ring keeps, and what holds when the aggregator leaves its loop. */
module FileRingSafety {
  import opened ExchangeDoc
  import opened Datasets
  import opened FileRing
  import opened Wrappers

  // ---------- locks ----------

  ghost predicate Locks(s: State) {
    && (forall w :: 0 <= w < |s.workers| ==> (s.workers[w].AtMarker? <==> s.supLock == Some(w)))
    && (s.supLock.Some? ==> s.supLock.value < |s.workers|)
    && (s.aggLock <==> s.aggregator.Unregistering?)
    && (s.aggLock ==> HasDataset(s.agg) && First(s.agg).id == END)
  }

  // ---------- the supplier's end marker ----------

  ghost predicate Marker(s: State) {
    var q := Items(s.sup.datasets);
    && (!s.ended ==> forall i :: 0 <= i < |q| ==> q[i].id != END)
    && (s.ended ==>
          && s.toProvide == [] && s.reading == {} && q != [] && q[|q| - 1].id == END
          && forall i :: 0 <= i < |q| - 1 ==> q[i].id != END)
    && (forall w :: 0 <= w < |s.workers| && Finishing(s.workers[w]) ==> s.ended && |q| == 1)
  }

  predicate Finishing(w: Worker) { w.AtMarker? || w.Ending? || w.Done? }

  // ---------- contents ----------

  ghost predicate Computed(c: Config, files: map<string, Bytes>, id: nat)
    requires c.Valid()
  {
    id < |c.names| && OutName(id) in files && files[OutName(id)] == c.f(c.Input(id))
  }

  ghost predicate WorkerContent(c: Config, files: map<string, Bytes>, w: Worker)
    requires c.Valid()
  {
    match w
    case Popped(_, id, filename) => id < |c.names| && filename == c.names[id]
    case Loaded(_, id, buffer) => id < |c.names| && buffer == c.Input(id)
    case Persisted(_, id) => Computed(c, files, id)
    case _ => true
  }

  ghost predicate Contents(c: Config, s: State)
    requires c.Valid()
  {
    && (forall k :: 0 <= k < |c.names| ==> c.names[k] in s.files && s.files[c.names[k]] == c.Input(k))
    && (forall r :: r in Items(s.sup.datasets) && r.id != END ==> r.id < |c.names| && r.filename == c.names[r.id])
    && (forall w :: 0 <= w < |s.workers| ==> WorkerContent(c, s.files, s.workers[w]))
    && (forall r :: r in Items(s.agg.datasets) && r.id != END ==>
          r.filename == OutName(r.id) && Computed(c, s.files, r.id))
    && (s.aggregator.Fetching? ==>
          s.aggregator.filename == OutName(s.aggregator.id) && Computed(c, s.files, s.aggregator.id))
    && (forall r :: r in s.results ==>
          r.name == PulledId(r.id) && Computed(c, s.files, r.id) && r.buffer == c.f(c.Input(r.id)))
  }

  // ---------- clients ----------

  predicate HasClient(w: Worker, client: nat) { !w.Idle? && w.client == client }

  ghost function Registered(ws: seq<Worker>): (n: nat)
    ensures n <= |ws|
  {
    if ws == [] then 0 else (if ws[0].Idle? then 0 else 1) + Registered(ws[1..])
  }

  lemma {:induction false} RegisteredUpdate(ws: seq<Worker>, w: nat, x: Worker)
    requires w < |ws| && !x.Idle?
    ensures Registered(ws[w := x]) == Registered(ws) + if ws[w].Idle? then 1 else 0
  {
    if w == 0 {
      assert ws[w := x][1..] == ws[1..];
    } else {
      RegisteredUpdate(ws[1..], w - 1, x);
      assert ws[w := x][1..] == ws[1..][w - 1 := x];
    }
  }

  /** Workers and client ids correspond one to one. */
  ghost predicate Clients(c: Config, s: State) {
    && |s.workers| == c.workers
    && ListsConsistent(s.agg)
    && |Items(s.agg.clients)| == Registered(s.workers)
    && (forall w :: 0 <= w < |s.workers| && !s.workers[w].Idle? ==> s.workers[w].client in Items(s.agg.clients))
    && (forall v, w :: 0 <= v < w < |s.workers| && !s.workers[v].Idle? && !s.workers[w].Idle? ==>
          s.workers[v].client != s.workers[w].client)
    && (forall k :: k in Items(s.agg.clients) ==> exists w :: 0 <= w < |s.workers| && HasClient(s.workers[w], k))
  }

  /** The clients whose end marker waits in the aggregator's queue, in order. */
  ghost function EndsIn(q: seq<Record>): seq<nat> {
    if q == [] then [] else (if q[0].id == END then [Load(q[0]).clientId] else []) + EndsIn(q[1..])
  }

  lemma {:induction false} EndsInAppend(q: seq<Record>, r: Record)
    ensures EndsIn(q + [r]) == EndsIn(q) + if r.id == END then [Load(r).clientId] else []
  {
    if q != [] {
      EndsInAppend(q[1..], r);
      assert (q + [r])[1..] == q[1..] + [r];
    } else {
      assert q + [r] == [r] && [r][1..] == [];
    }
  }

  ghost predicate Distinct(s: seq<nat>) { forall i, j :: 0 <= i < j < |s| ==> s[i] != s[j] }

  /** The marker of each finished worker is either in the aggregator's queue or consumed, not both. */
  ghost predicate EndsSplit(ends: seq<nat>, clients: seq<nat>, consumed: seq<nat>, ws: seq<Worker>) {
    && Distinct(ends)
    && (forall k :: k in ends ==> k in clients && k !in consumed)
    && (forall w :: 0 <= w < |ws| && !ws[w].Idle? ==>
          (ws[w].Done? <==> ws[w].client in consumed || ws[w].client in ends))
  }

  ghost predicate Ends(s: State) {
    EndsSplit(EndsIn(Items(s.agg.datasets)), Items(s.agg.clients), Items(s.agg.unregistered), s.workers)
  }

  predicate Active(w: Worker) { !w.Idle? && !w.Done? }

  /** Whatever is in the aggregator's queue, an end marker is behind it or will be. */
  ghost predicate EndFollows(s: State) {
    var q := Items(s.agg.datasets);
    q != [] ==> q[|q| - 1].id == END || exists w :: 0 <= w < |s.workers| && Active(s.workers[w])
  }

  ghost predicate Tests(s: State) {
    && (s.aggregator.Testing? ==> Items(s.agg.unregistered) != [])
    && (s.aggregator.Polling? || s.aggregator.Unregistering? || s.aggregator.Fetching? ==>
          s.agg.clients.Null? || !AllUnregistered(s.agg))
  }

  ghost predicate Complete(c: Config, s: State) {
    s.aggregator.Exited? ==> forall id: nat :: multiset(Ids(s.results))[id] == if id < |c.names| then 1 else 0
  }

  ghost predicate Inv(c: Config, s: State)
    requires c.Valid()
  {
    && Conserved(c, s) && Locks(s) && Marker(s) && Contents(c, s)
    && Clients(c, s) && Ends(s) && EndFollows(s) && Tests(s) && Complete(c, s)
  }

  // ---------- each step keeps each part ----------

  lemma StepLocks(c: Config, s: State, e: Step)
    requires Locks(s) && Enabled(c, s, e)
    ensures Locks(Apply(c, s, e))
  {
    hide OutName, PulledId;
  }

  lemma SupplierKeepsMarker(c: Config, s: State, e: Step)
    requires c.Valid() && Marker(s) && Enabled(c, s, e)
    requires e.Grab? || e.ThreadPush? || e.SupplierEnd?
    ensures Marker(Apply(c, s, e))
  {
    hide OutName;
  }

  lemma PopKeepsMarker(c: Config, s: State, w: nat)
    requires Marker(s) && Enabled(c, s, PopDataset(w))
    ensures Marker(Apply(c, s, PopDataset(w)))
  {
    assert s.ended ==> |Items(s.sup.datasets)| > 1;
  }

  lemma SeeKeepsMarker(c: Config, s: State, w: nat)
    requires Marker(s) && Enabled(c, s, SeeMarker(w))
    ensures Marker(Apply(c, s, SeeMarker(w)))
  {
    assert Items(s.sup.datasets)[0].id == END;
  }

  lemma AggregatorKeepsMarker(c: Config, s: State, e: Step)
    requires Marker(s) && Enabled(c, s, e)
    requires e.AggPoll? || e.AggSeeEnd? || e.AggPop? || e.AggFetch? || e.AggUnregister? || e.AggTest?
    ensures Marker(Apply(c, s, e))
  {
    hide PulledId;
  }

  lemma WorkerKeepsMarker(c: Config, s: State, e: Step)
    requires Locks(s) && Marker(s) && Enabled(c, s, e)
    requires e.Connect? || e.WorkerPoll? || e.ReadInput? || e.PersistResult? || e.PushResult? || e.Leave? || e.PushEnd?
    ensures Marker(Apply(c, s, e))
  {
    hide OutName, PulledId;
    assert Items(Apply(c, s, e).sup.datasets) == Items(s.sup.datasets);
  }

  lemma StepMarker(c: Config, s: State, e: Step)
    requires c.Valid() && Locks(s) && Marker(s) && Enabled(c, s, e)
    ensures Marker(Apply(c, s, e))
  {
    hide Marker, Apply;
    match e {
      case Grab | ThreadPush(_) | SupplierEnd => SupplierKeepsMarker(c, s, e);
      case AggPoll | AggSeeEnd | AggPop | AggFetch | AggUnregister | AggTest => AggregatorKeepsMarker(c, s, e);
      case PopDataset(w) => PopKeepsMarker(c, s, w);
      case SeeMarker(w) => SeeKeepsMarker(c, s, w);
      case _ => WorkerKeepsMarker(c, s, e);
    }
  }

  lemma SupplierKeepsContents(c: Config, s: State, e: Step)
    requires c.Valid() && Contents(c, s) && Enabled(c, s, e)
    requires e.Grab? || e.ThreadPush? || e.SupplierEnd?
    ensures Contents(c, Apply(c, s, e))
  {
    hide OutName, PulledId, Computed, WorkerContent;
  }

  lemma WorkerKeepsContents(c: Config, s: State, e: Step)
    requires c.Valid() && Contents(c, s) && Enabled(c, s, e)
    requires e.Connect? || e.WorkerPoll? || e.SeeMarker? || e.PopDataset? || e.ReadInput? || e.Leave?
    ensures Contents(c, Apply(c, s, e))
  {
    hide OutName, PulledId, Computed;
    if e.PopDataset? { assert Items(s.sup.datasets)[0] in Items(s.sup.datasets); }
  }

  lemma PushKeepsContents(c: Config, s: State, e: Step)
    requires c.Valid() && Contents(c, s) && Enabled(c, s, e)
    requires e.PersistResult? || e.PushResult? || e.PushEnd?
    ensures Contents(c, Apply(c, s, e))
  {
    if e.PersistResult? { PersistKeepsComputed(c, s, e.w); }
    hide OutName, PulledId, Computed;
  }

  lemma AggregatorKeepsContents(c: Config, s: State, e: Step)
    requires c.Valid() && Contents(c, s) && Enabled(c, s, e)
    requires e.AggPoll? || e.AggSeeEnd? || e.AggPop? || e.AggFetch? || e.AggUnregister? || e.AggTest?
    ensures Contents(c, Apply(c, s, e))
  {
    hide OutName, PulledId, WorkerContent;
    if e.AggPop? { assert Items(s.agg.datasets)[0] in Items(s.agg.datasets); }
  }

  lemma StepContents(c: Config, s: State, e: Step)
    requires c.Valid() && Contents(c, s) && Enabled(c, s, e)
    ensures Contents(c, Apply(c, s, e))
  {
    hide Contents, Apply, Enabled;
    match e {
      case Grab | ThreadPush(_) | SupplierEnd => SupplierKeepsContents(c, s, e);
      case AggPoll | AggSeeEnd | AggPop | AggFetch | AggUnregister | AggTest => AggregatorKeepsContents(c, s, e);
      case PersistResult(_) | PushResult(_) | PushEnd(_) => PushKeepsContents(c, s, e);
      case _ => WorkerKeepsContents(c, s, e);
    }
  }

  lemma PersistKeepsComputed(c: Config, s: State, w: nat)
    requires c.Valid() && Contents(c, s) && Enabled(c, s, PersistResult(w))
    ensures forall id: nat :: Computed(c, s.files, id) ==> Computed(c, Apply(c, s, PersistResult(w)).files, id)
    ensures Computed(c, Apply(c, s, PersistResult(w)).files, s.workers[w].id)
  {
    var k := s.workers[w].id;
    assert WorkerContent(c, s.files, s.workers[w]);
    forall id: nat | Computed(c, s.files, id)
      ensures Computed(c, Apply(c, s, PersistResult(w)).files, id)
    {
      if OutName(id) == OutName(k) { OutNameInjective(id, k); }
    }
  }

  lemma WorkerKeepsClients(c: Config, s: State, t: State, w: nat)
    requires Clients(c, s) && w < |s.workers| && !s.workers[w].Idle?
    requires |t.workers| == |s.workers| && t.workers == s.workers[w := t.workers[w]]
    requires HasClient(t.workers[w], s.workers[w].client)
    requires t.agg.clients == s.agg.clients && t.agg.unregistered == s.agg.unregistered
    ensures Clients(c, t)
  {
    hide ConsistentLists;
    RegisteredUpdate(s.workers, w, t.workers[w]);
    forall k | k in Items(t.agg.clients)
      ensures exists v :: 0 <= v < |t.workers| && HasClient(t.workers[v], k)
    {
      var v :| 0 <= v < |s.workers| && HasClient(s.workers[v], k);
      assert HasClient(t.workers[v], k);
    }
  }

  lemma RegisterKeepsClients(c: Config, s: State, w: nat)
    requires c.Valid() && Clients(c, s) && Enabled(c, s, Connect(w))
    ensures Clients(c, Apply(c, s, Connect(w)))
    ensures NextClientId(s.agg) !in Items(s.agg.clients)
    ensures Items(Apply(c, s, Connect(w)).agg.clients) == Items(s.agg.clients) + [NextClientId(s.agg)]
  {
    var t := Apply(c, s, Connect(w));
    RegisteredUpdate(s.workers, w, t.workers[w]);
    RegisterConsistent(s.agg);
    forall k | k in Items(t.agg.clients)
      ensures exists v :: 0 <= v < |t.workers| && HasClient(t.workers[v], k)
    {
      if k == NextClientId(s.agg) {
        assert HasClient(t.workers[w], k);
      } else {
        var v :| 0 <= v < |s.workers| && HasClient(s.workers[v], k);
        assert HasClient(t.workers[v], k);
      }
    }
  }

  /** The client named by the marker at the head of the aggregator's queue. */
  lemma HeadClient(c: Config, s: State)
    requires c.Valid() && Locks(s) && Clients(c, s) && Ends(s) && s.aggregator.Unregistering?
    ensures EndsIn(Items(s.agg.datasets)) == [First(s.agg).clientId] + EndsIn(Items(s.agg.datasets)[1..])
    ensures First(s.agg).clientId in Items(s.agg.clients)
    ensures ListsConsistent(Apply(c, s, AggUnregister).agg)
    ensures forall k :: k in Items(Apply(c, s, AggUnregister).agg.unregistered) <==>
      k in Items(s.agg.unregistered) || k == First(s.agg).clientId
  {
    var head := First(s.agg).clientId;
    HeadIsClient(s);
    hide Ends, EndsIn, ConsistentLists;
    UnregisterConsistent(s.agg, head);
  }

  lemma HeadIsClient(s: State)
    requires Ends(s) && HasDataset(s.agg) && First(s.agg).id == END
    ensures EndsIn(Items(s.agg.datasets)) == [First(s.agg).clientId] + EndsIn(Items(s.agg.datasets)[1..])
    ensures First(s.agg).clientId in Items(s.agg.clients)
  {
    assert EndsIn(Items(s.agg.datasets))[0] == First(s.agg).clientId;
  }

  lemma UnregisterKeepsClients(c: Config, s: State)
    requires c.Valid() && Locks(s) && Clients(c, s) && Ends(s) && Enabled(c, s, AggUnregister)
    ensures Clients(c, Apply(c, s, AggUnregister))
  {
    hide ConsistentLists;
    HeadClient(c, s);
  }

  predicate MovesWorker(e: Step) {
    e.SeeMarker? || e.PopDataset? || e.ReadInput? || e.PersistResult? || e.PushResult? || e.Leave? || e.PushEnd?
  }

  lemma MoveKeepsClients(c: Config, s: State, e: Step)
    requires Clients(c, s) && Enabled(c, s, e) && MovesWorker(e)
    ensures Clients(c, Apply(c, s, e))
  {
    hide OutName, PulledId, Clients;
    WorkerKeepsClients(c, s, Apply(c, s, e), e.w);
  }

  lemma StepClients(c: Config, s: State, e: Step)
    requires c.Valid() && Locks(s) && Clients(c, s) && Ends(s) && Enabled(c, s, e)
    ensures Clients(c, Apply(c, s, e))
  {
    hide OutName, PulledId, ConsistentLists, Ends, Locks;
    if MovesWorker(e) {
      hide Clients;
      MoveKeepsClients(c, s, e);
    } else {
      match e
      case Connect(w) => RegisterKeepsClients(c, s, w);
      case AggUnregister => UnregisterKeepsClients(c, s);
      case _ =>
    }
  }

  lemma EndsSplitFinish(ends: seq<nat>, clients: seq<nat>, consumed: seq<nat>, ws: seq<Worker>, w: nat)
    requires EndsSplit(ends, clients, consumed, ws) && w < |ws| && Active(ws[w]) && ws[w].client in clients
    requires forall v :: 0 <= v < |ws| && v != w && !ws[v].Idle? ==> ws[v].client != ws[w].client
    ensures EndsSplit(ends + [ws[w].client], clients, consumed, ws[w := Done(ws[w].client)])
  {
  }

  lemma EndsSplitMove(ends: seq<nat>, clients: seq<nat>, consumed: seq<nat>, ws: seq<Worker>, w: nat, x: Worker)
    requires EndsSplit(ends, clients, consumed, ws)
    requires w < |ws| && Active(ws[w]) && Active(x) && x.client == ws[w].client
    ensures EndsSplit(ends, clients, consumed, ws[w := x])
  {
  }

  lemma EndsSplitConsume(ends: seq<nat>, clients: seq<nat>, consumed: seq<nat>, after: seq<nat>, ws: seq<Worker>)
    requires EndsSplit(ends, clients, consumed, ws) && ends != []
    requires forall k :: k in after <==> k in consumed || k == ends[0]
    ensures EndsSplit(ends[1..], clients, after, ws)
  {
    assert ends == [ends[0]] + ends[1..];
    assert forall k :: k in ends <==> k == ends[0] || k in ends[1..];
  }

  lemma EndsSplitJoin(ends: seq<nat>, clients: seq<nat>, consumed: seq<nat>, ws: seq<Worker>, w: nat, k: nat)
    requires EndsSplit(ends, clients, consumed, ws) && w < |ws|
    requires k !in consumed && k !in ends
    ensures EndsSplit(ends, clients + [k], consumed, ws[w := Pulling(k)])
  {
  }

  lemma ConnectKeepsEnds(c: Config, s: State, w: nat)
    requires c.Valid() && Clients(c, s) && Ends(s) && Enabled(c, s, Connect(w))
    ensures Ends(Apply(c, s, Connect(w)))
  {
    RegisterKeepsClients(c, s, w);
    EndsSplitJoin(EndsIn(Items(s.agg.datasets)), Items(s.agg.clients), Items(s.agg.unregistered), s.workers, w,
                  NextClientId(s.agg));
  }

  lemma PushEndKeepsEnds(c: Config, s: State, w: nat)
    requires Clients(c, s) && Ends(s) && Enabled(c, s, PushEnd(w))
    ensures Ends(Apply(c, s, PushEnd(w)))
  {
    hide ConsistentLists, EndsSplit, EndsIn;
    var q := Items(s.agg.datasets);
    EndsInAppend(q, Store(Dataset(END, "", s.workers[w].client)));
    EndsSplitFinish(EndsIn(q), Items(s.agg.clients), Items(s.agg.unregistered), s.workers, w);
  }

  lemma PushResultKeepsEnds(c: Config, s: State, w: nat)
    requires Ends(s) && Enabled(c, s, PushResult(w)) && s.workers[w].id != END
    ensures Ends(Apply(c, s, PushResult(w)))
  {
    hide EndsSplit, OutName;
    var q, id := Items(s.agg.datasets), s.workers[w].id;
    EndsInAppend(q, Store(Dataset(id, OutName(id), END)));
    assert EndsIn(q) + [] == EndsIn(q);
    EndsSplitMove(EndsIn(q), Items(s.agg.clients), Items(s.agg.unregistered), s.workers, w,
                  Pulling(s.workers[w].client));
  }

  lemma UnregisterKeepsEnds(c: Config, s: State)
    requires c.Valid() && Locks(s) && Clients(c, s) && Ends(s) && Enabled(c, s, AggUnregister)
    ensures Ends(Apply(c, s, AggUnregister))
  {
    hide ConsistentLists, EndsSplit;
    HeadClient(c, s);
    var ends := EndsIn(Items(s.agg.datasets));
    assert ends[1..] == EndsIn(Items(s.agg.datasets)[1..]);
    EndsSplitConsume(ends, Items(s.agg.clients), Items(s.agg.unregistered),
                     Items(Apply(c, s, AggUnregister).agg.unregistered), s.workers);
  }

  lemma PopKeepsEnds(c: Config, s: State)
    requires Ends(s) && Enabled(c, s, AggPop)
    ensures Ends(Apply(c, s, AggPop))
  {
    hide EndsSplit;
    assert EndsIn(Items(s.agg.datasets)) == EndsIn(Items(s.agg.datasets)[1..]);
  }

  lemma MoveKeepsEnds(c: Config, s: State, e: Step)
    requires Ends(s) && Enabled(c, s, e)
    requires e.SeeMarker? || e.PopDataset? || e.ReadInput? || e.PersistResult? || e.Leave?
    ensures Ends(Apply(c, s, e))
  {
    hide EndsSplit, OutName;
    EndsSplitMove(EndsIn(Items(s.agg.datasets)), Items(s.agg.clients), Items(s.agg.unregistered), s.workers, e.w,
                  Apply(c, s, e).workers[e.w]);
  }

  lemma StepEnds(c: Config, s: State, e: Step)
    requires c.Valid() && Locks(s) && Clients(c, s) && Ends(s) && Enabled(c, s, e)
    requires e.PushResult? ==> s.workers[e.w].id != END
    ensures Ends(Apply(c, s, e))
  {
    hide ConsistentLists, EndsSplit, OutName;
    match e {
      case Connect(w) => ConnectKeepsEnds(c, s, w);
      case PushEnd(w) => PushEndKeepsEnds(c, s, w);
      case PushResult(w) => PushResultKeepsEnds(c, s, w);
      case SeeMarker(_) | PopDataset(_) | ReadInput(_) | PersistResult(_) | Leave(_) => MoveKeepsEnds(c, s, e);
      case AggPop => PopKeepsEnds(c, s);
      case AggUnregister => UnregisterKeepsEnds(c, s);
      case _ =>
    }
  }

  /** Steps that leave the aggregator's queue alone, and finish no worker. */
  lemma QuietKeepsEndFollows(s: State, t: State)
    requires EndFollows(s) && t.agg.datasets == s.agg.datasets && |t.workers| == |s.workers|
    requires forall w :: 0 <= w < |s.workers| && Active(s.workers[w]) ==> Active(t.workers[w])
    ensures EndFollows(t)
  {
    if w: nat :| w < |s.workers| && Active(s.workers[w]) { assert Active(t.workers[w]); }
  }

  lemma HeadKeepsEndFollows(s: State, t: State)
    requires EndFollows(s) && HasDataset(s.agg) && t.agg.datasets == Arr(Items(s.agg.datasets)[1..])
    requires t.workers == s.workers
    ensures EndFollows(t)
  {
    hide Active;
    var q, r := Items(s.agg.datasets), Items(t.agg.datasets);
    assert r != [] ==> r[|r| - 1] == q[|q| - 1];
  }

  lemma ActiveStays(c: Config, s: State, e: Step, w: nat)
    requires Enabled(c, s, e) && !e.PushEnd? && w < |s.workers| && Active(s.workers[w])
    ensures |Apply(c, s, e).workers| == |s.workers| && Active(Apply(c, s, e).workers[w])
  {
    hide OutName, PulledId;
  }

  lemma StepEndFollows(c: Config, s: State, e: Step)
    requires EndFollows(s) && Enabled(c, s, e)
    ensures EndFollows(Apply(c, s, e))
  {
    hide OutName, PulledId, EndFollows;
    var t := Apply(c, s, e);
    match e
    case PushResult(w) =>
      assert Active(t.workers[w]);
      SomeoneActive(t, w);
    case PushEnd(w) => EndIsLastEntry(t, Store(Dataset(END, "", s.workers[w].client)));
    case AggPop | AggUnregister => HeadKeepsEndFollows(s, t);
    case _ =>
      forall w | 0 <= w < |s.workers| && Active(s.workers[w]) ensures Active(t.workers[w]) { ActiveStays(c, s, e, w); }
      QuietKeepsEndFollows(s, t);
  }

  lemma SomeoneActive(s: State, w: nat)
    requires w < |s.workers| && Active(s.workers[w])
    ensures EndFollows(s)
  {
  }

  lemma EndIsLastEntry(s: State, r: Record)
    requires HasDataset(s.agg) && Items(s.agg.datasets)[|Items(s.agg.datasets)| - 1] == r && r.id == END
    ensures EndFollows(s)
  {
  }

  lemma ConnectKeepsTests(c: Config, s: State, w: nat)
    requires c.Valid() && Clients(c, s) && Tests(s) && Enabled(c, s, Connect(w))
    ensures Tests(Apply(c, s, Connect(w)))
  {
    RegisterKeepsClients(c, s, w);
  }

  lemma StepTests(c: Config, s: State, e: Step)
    requires c.Valid() && Locks(s) && Clients(c, s) && Ends(s) && Tests(s) && Enabled(c, s, e)
    ensures Tests(Apply(c, s, e))
  {
    hide OutName, PulledId, ConsistentLists, EndsSplit, EndsIn;
    match e {
      case Connect(w) => ConnectKeepsTests(c, s, w);
      case AggUnregister => HeadClient(c, s);
      case _ =>
    }
  }

  lemma {:induction false} NobodyHolds(ws: seq<Worker>, id: nat)
    requires forall w :: 0 <= w < |ws| ==> HeldBy(ws[w], id) == 0
    ensures Held(ws, id) == 0
  {
    if ws != [] {
      assert forall w :: 0 <= w < |ws[1..]| ==> ws[1..][w] == ws[w + 1];
      NobodyHolds(ws[1..], id);
    }
  }

  /** When the exit test is about to succeed, every registered worker has finished. */
  lemma AllFinished(c: Config, s: State)
    requires c.Valid() && Clients(c, s) && Ends(s) && Tests(s) && s.aggregator.Testing? && AllUnregistered(s.agg)
    ensures forall w :: 0 <= w < |s.workers| ==> s.workers[w].Idle? || s.workers[w].Done?
    ensures exists w :: 0 <= w < |s.workers| && s.workers[w].Done?
  {
    var k := Items(s.agg.unregistered)[0];
    assert k in Items(s.agg.clients);
    var w :| 0 <= w < |s.workers| && HasClient(s.workers[w], k);
    assert s.workers[w].Done?;
  }

  lemma QueueDrained(c: Config, s: State)
    requires c.Valid() && Clients(c, s) && Ends(s) && EndFollows(s) && AllUnregistered(s.agg)
    requires forall w :: 0 <= w < |s.workers| ==> s.workers[w].Idle? || s.workers[w].Done?
    ensures Items(s.agg.datasets) == []
  {
    var q := Items(s.agg.datasets);
    if q != [] {
      LastEndListed(q);
      assert false;
    }
  }

  lemma LastEndListed(q: seq<Record>)
    requires q != [] && q[|q| - 1].id == END
    ensures Load(q[|q| - 1]).clientId in EndsIn(q)
  {
    assert q == q[..|q| - 1] + [q[|q| - 1]];
    EndsInAppend(q[..|q| - 1], q[|q| - 1]);
  }

  /** So when the aggregator leaves, no dataset is anywhere but in its results. */
  lemma ExitIsComplete(c: Config, s: State, id: nat)
    requires c.Valid() && Inv(c, s) && s.aggregator.Testing? && AllUnregistered(s.agg)
    ensures multiset(Ids(s.results))[id] == Places(s, id)
  {
    AllFinished(c, s);
    QueueDrained(c, s);
    NobodyHolds(s.workers, id);
    var w :| 0 <= w < |s.workers| && s.workers[w].Done?;
    assert s.ended && |Items(s.sup.datasets)| == 1;
    assert Items(s.sup.datasets)[1..] == [];
  }

  lemma StepComplete(c: Config, s: State, e: Step)
    requires c.Valid() && Inv(c, s) && Enabled(c, s, e)
    ensures Complete(c, Apply(c, s, e))
  {
    var t := Apply(c, s, e);
    if e.AggTest? && t.aggregator.Exited? {
      forall id: nat ensures multiset(Ids(t.results))[id] == if id < |c.names| then 1 else 0 {
        ExitIsComplete(c, s, id);
      }
    } else {
      assert t.aggregator.Exited? ==> s.aggregator.Exited? && t.results == s.results;
    }
  }

  lemma InitInv(c: Config)
    requires c.Valid()
    ensures Inv(c, Init(c))
  {
    InitConserved(c);
    NoneRegistered(c.workers);
  }

  lemma {:induction false} NoneRegistered(n: nat)
    ensures Registered(seq(n, _ => Idle)) == 0
  {
    if n > 0 {
      NoneRegistered(n - 1);
      assert seq(n, _ => Idle)[1..] == seq(n - 1, _ => Idle);
    }
  }

  lemma StepInv(c: Config, s: State, e: Step)
    requires c.Valid() && Inv(c, s) && Enabled(c, s, e)
    ensures Inv(c, Apply(c, s, e))
  {
    hide Conserved, Marker, Clients, Ends, EndFollows, Tests, Complete, OutName;
    StepConserves(c, s, e);
    StepLocks(c, s, e);
    StepMarker(c, s, e);
    StepContents(c, s, e);
    StepClients(c, s, e);
    assert e.PushResult? ==> WorkerContent(c, s.files, s.workers[e.w]);
    StepEnds(c, s, e);
    StepEndFollows(c, s, e);
    StepTests(c, s, e);
    StepComplete(c, s, e);
  }

  lemma {:induction false} RunInv(c: Config, run: seq<Step>)
    requires c.Valid() && Exec(c, run).Some?
    ensures Inv(c, Exec(c, run).value)
  {
    if run == [] {
      InitInv(c);
    } else {
      RunInv(c, run[..|run| - 1]);
      StepInv(c, Exec(c, run[..|run| - 1]).value, run[|run| - 1]);
    }
  }

  // ---------- main results ----------

  lemma ComputedIsStored(c: Config, files: map<string, Bytes>, id: nat)
    requires c.Valid() && Computed(c, files, id)
    ensures Stored(files, id, c.f(c.Input(id)))
  {
    StoredUnderOutName(files, id);
  }

  /**
   In every run, however many workers there are and however late they connect: once the aggregator
   has left its loop, it holds each dataset exactly once, under its name, with what a worker computes from its
   input, and each result is in the output file of its dataset.
   */
  lemma AggregatorExitsWithEverything(c: Config, run: seq<Step>)
    requires c.Valid() && Exec(c, run).Some? && Exec(c, run).value.aggregator.Exited?
    ensures multiset(Ids(Exec(c, run).value.results)) == multiset(Range(|c.names|))
    ensures forall r :: r in Exec(c, run).value.results ==>
      && r.id < |c.names| && IsDatasetName(r.name, r.id) && r.buffer == c.f(c.Input(r.id))
      && Stored(Exec(c, run).value.files, r.id, r.buffer)
  {
    hide OutName, PulledId, IsDatasetName, Stored;
    RunInv(c, run);
    forall r | r in Exec(c, run).value.results
      ensures IsDatasetName(r.name, r.id) && Stored(Exec(c, run).value.files, r.id, r.buffer)
    {
      NamesInFull(r.id);
      ComputedIsStored(c, Exec(c, run).value.files, r.id);
    }
    var got := multiset(Ids(Exec(c, run).value.results));
    forall id: nat ensures got[id] == multiset(Range(|c.names|))[id] {
      RangeCounts(|c.names|, id);
    }
  }

  /** Datasets are handed to read threads in the order of their numbers. */
  lemma {:induction false} GrabbedInOrder(c: Config, run: seq<Step>)
    requires Exec(c, run).Some?
    ensures var left := Exec(c, run).value.toProvide;
      |left| <= |c.names| && left == Range(|c.names|)[|c.names| - |left|..]
  {
    hide OutName, PulledId;
    if run != [] {
      GrabbedInOrder(c, run[..|run| - 1]);
      StepTakesFirst(c, Exec(c, run[..|run| - 1]).value, run[|run| - 1]);
    }
  }

  lemma StepTakesFirst(c: Config, s: State, e: Step)
    requires Enabled(c, s, e)
    ensures var t := Apply(c, s, e);
      t.toProvide == if e.Grab? then s.toProvide[1..] else s.toProvide
    ensures e.Grab? ==> Apply(c, s, e).reading == s.reading + {s.toProvide[0]}
  {
    hide OutName, PulledId;
  }

  /** At any time of any run, each dataset is in exactly one place, and no other id is anywhere. */
  lemma EachDatasetInOnePlace(c: Config, run: seq<Step>, id: nat)
    requires c.Valid() && Exec(c, run).Some?
    ensures Places(Exec(c, run).value, id) == if id < |c.names| then 1 else 0
  {
    RunInv(c, run);
  }

  /** The supplier's end marker is the last entry of a queue that will not grow, and no step removes it. */
  lemma MarkerStays(c: Config, run: seq<Step>, e: Step)
    requires c.Valid() && Exec(c, run + [e]).Some?
    ensures var s := Exec(c, run + [e]).value; var q := Items(s.sup.datasets);
      s.ended ==> s.toProvide == [] && s.reading == {} && q != [] && q[|q| - 1].id == END
                  && forall i :: 0 <= i < |q| - 1 ==> q[i].id != END
    ensures Exec(c, run).Some? && (Exec(c, run).value.ended ==> Exec(c, run + [e]).value.ended)
  {
    hide Conserved, Locks, Contents, Clients, Ends, EndFollows, Tests, Complete;
    RunInv(c, run + [e]);
    assert (run + [e])[..|run + [e]| - 1] == run;
  }

  /** A worker that has seen the marker knows that no dataset is left to pull. */
  lemma SeenMarkerMeansDrained(c: Config, run: seq<Step>, w: nat)
    requires c.Valid() && Exec(c, run).Some?
    requires w < |Exec(c, run).value.workers| && Finishing(Exec(c, run).value.workers[w])
    ensures var s := Exec(c, run).value;
      s.toProvide == [] && s.reading == {} && |Items(s.sup.datasets)| == 1 && First(s.sup).id == END
  {
    RunInv(c, run);
  }
}
