/**
 The whole ring over sockets: what the supplier server puts on its connections, what workers make of it, and what the
 aggregator server has pulled when it leaves.
 */
module SocketRing {
  import opened ExchangeDoc
  import opened Datasets
  import opened SocketFrames
  import S = SocketSupplier
  import SL = SocketSupplierLiveness
  import A = SocketAggregator
  import AL = SocketAggregatorLiveness
  import opened Wrappers

  // ---------- what a worker receives ----------

  /** The bytes of what one send puts on a connection. */
  ghost function ItemBytes(x: S.Item): Bytes {
    match x
    case Head(id) => if id < UINT32 then Word(id) else []
    case Length(n) => if n < UINT32 then Word(n) else []
    case Body(bytes) => bytes
    case EndSignal => Word(END)
  }

  ghost function WireBytes(wire: seq<S.Item>): Bytes {
    if wire == [] then [] else WireBytes(wire[..|wire| - 1]) + ItemBytes(wire[|wire| - 1])
  }

  /** The datasets on a connection. */
  ghost function Received(wire: seq<S.Item>): seq<Frame> {
    if wire == [] then [] else
      var n := |wire|;
      match wire[n - 1]
      case EndSignal => Received(wire[..n - 1])
      case Body(bytes) =>
        if n >= 3 && wire[n - 3].Head? then Received(wire[..n - 3]) + [Frame(wire[n - 3].id, bytes)] else []
      case _ => []
  }

  /** Datasets are as long as their 32-bit length can say, and their ids are not the end marker. */
  ghost predicate Sendable(data: seq<Bytes>) {
    |data| <= END && forall k :: 0 <= k < |data| ==> |data[k]| < UINT32
  }

  lemma {:induction false} ReceivedIsData(data: seq<Bytes>, wire: seq<S.Item>)
    requires Sendable(data) && S.WholeFrames(data, wire)
    ensures forall x :: x in Received(wire) ==> x.id < |data| && x.payload == data[x.id]
    ensures ValidFrames(Received(wire))
  {
    if wire != [] {
      var n := |wire|;
      match wire[n - 1]
      case EndSignal => ReceivedIsData(data, wire[..n - 1]);
      case Body(_) => ReceivedIsData(data, wire[..n - 3]);
      case _ =>
    }
  }

  /** The bytes of frames, without an end signal. */
  ghost function Encoded(fs: seq<Frame>): Bytes
    requires ValidFrames(fs)
  {
    if fs == [] then [] else Encode(fs[0]) + Encoded(fs[1..])
  }

  lemma {:induction false} StreamIsEncoded(fs: seq<Frame>)
    requires ValidFrames(fs)
    ensures Stream(fs) == Encoded(fs) + Word(END)
  {
    hide Encode, Word;
    if fs != [] { StreamIsEncoded(fs[1..]); }
  }

  lemma {:induction false} EncodedAppend(fs: seq<Frame>, x: Frame)
    requires ValidFrames(fs) && ValidFrame(x)
    ensures ValidFrames(fs + [x]) && Encoded(fs + [x]) == Encoded(fs) + Encode(x)
  {
    hide Encode;
    if fs == [] {
      assert fs + [x] == [x] && [x][1..] == [];
    } else {
      assert (fs + [x])[0] == fs[0] && (fs + [x])[1..] == fs[1..] + [x];
      EncodedAppend(fs[1..], x);
    }
  }

  lemma LastItem(wire: seq<S.Item>, n: nat)
    requires 0 < n <= |wire|
    ensures WireBytes(wire[..n]) == WireBytes(wire[..n - 1]) + ItemBytes(wire[n - 1])
  {
    assert wire[..n][..n - 1] == wire[..n - 1];
  }

  lemma Regroup(a: Bytes, x: Bytes, y: Bytes, z: Bytes)
    ensures a + x + y + z == a + (x + y + z)
  {
  }

  lemma LastThree(wire: seq<S.Item>)
    requires |wire| >= 3
    ensures var n := |wire|;
      WireBytes(wire)
      == WireBytes(wire[..n - 3]) + (ItemBytes(wire[n - 3]) + ItemBytes(wire[n - 2]) + ItemBytes(wire[n - 1]))
  {
    hide ItemBytes, WireBytes;
    var n := |wire|;
    LastItem(wire, n);
    LastItem(wire, n - 1);
    LastItem(wire, n - 2);
    assert wire[..n] == wire;
    Regroup(WireBytes(wire[..n - 3]), ItemBytes(wire[n - 3]), ItemBytes(wire[n - 2]), ItemBytes(wire[n - 1]));
  }

  lemma {:induction false} FramesOnWire(data: seq<Bytes>, wire: seq<S.Item>)
    requires Sendable(data) && S.WholeFrames(data, wire) && S.EndSignal !in wire
    ensures ValidFrames(Received(wire)) && WireBytes(wire) == Encoded(Received(wire))
  {
    hide Word, Encode;
    ReceivedIsData(data, wire);
    if wire != [] {
      var n := |wire|;
      var x := Frame(wire[n - 3].id, wire[n - 1].bytes);
      FramesOnWire(data, wire[..n - 3]);
      EncodedAppend(Received(wire[..n - 3]), x);
      FrameBytes(x);
      LastThree(wire);
    }
  }

  lemma FrameBytes(x: Frame)
    requires ValidFrame(x)
    ensures Encode(x) == ItemBytes(S.Head(x.id)) + ItemBytes(S.Length(|x.payload|)) + ItemBytes(S.Body(x.payload))
  {
  }

  lemma EndIsLast(wire: seq<S.Item>)
    requires S.EndsLast(wire) && S.EndSignal in wire
    ensures wire[|wire| - 1] == S.EndSignal
  {
    var i :| 0 <= i < |wire| && wire[i] == S.EndSignal;
  }

  lemma BeforeEnd(data: seq<Bytes>, wire: seq<S.Item>)
    requires S.WholeFrames(data, wire) && S.EndsLast(wire) && S.EndSignal in wire
    ensures var init := wire[..|wire| - 1];
      && S.WholeFrames(data, init) && S.EndsLast(init) && Received(wire) == Received(init)
      && WireBytes(wire) == WireBytes(init) + Word(END)
  {
    hide Word;
    EndIsLast(wire);
  }

  /** The bytes on a connection with an end signal are the stream of its datasets, and perhaps more end signals. */
  lemma {:induction false} WireIsStream(data: seq<Bytes>, wire: seq<S.Item>) returns (rest: Bytes)
    requires Sendable(data) && S.WholeFrames(data, wire) && S.EndsLast(wire) && S.EndSignal in wire
    ensures ValidFrames(Received(wire)) && WireBytes(wire) == Stream(Received(wire)) + rest
  {
    hide Word, Encode, Stream, Received, WireBytes, S.WholeFrames, S.EndsLast, Sendable;
    var init := wire[..|wire| - 1];
    BeforeEnd(data, wire);
    ReceivedIsData(data, init);
    if S.EndSignal in init {
      rest := WireIsStream(data, init);
      rest := rest + Word(END);
    } else {
      FramesOnWire(data, init);
      StreamIsEncoded(Received(init));
      rest := [];
    }
  }

  /** What a worker gets from such a connection, however it is fragmented. */
  method WorkerReceives(socket: Socket, ghost data: seq<Bytes>, ghost wire: seq<S.Item>) returns (got: seq<Frame>)
    requires Sendable(data) && S.WholeFrames(data, wire) && S.EndsLast(wire) && S.EndSignal in wire
    requires socket.incoming == WireBytes(wire)
    modifies socket
    ensures got == Received(wire)
  {
    ghost var rest := WireIsStream(data, wire);
    got := ReceiveAll(socket, Received(wire), rest);
  }

  // ---------- counting datasets ----------

  /** How many of these frames are of dataset `id`. */
  ghost function InFrames(fs: seq<Frame>, id: nat): nat {
    if fs == [] then 0 else InFrames(fs[..|fs| - 1], id) + if fs[|fs| - 1].id == id then 1 else 0
  }

  ghost function HeadsOf(wire: seq<S.Item>, id: nat): nat {
    if wire == [] then 0 else HeadsOf(wire[..|wire| - 1], id) + if wire[|wire| - 1] == S.Head(id) then 1 else 0
  }

  lemma LastThreeHeads(wire: seq<S.Item>, id: nat)
    requires |wire| >= 3 && !wire[|wire| - 1].Head? && !wire[|wire| - 2].Head?
    ensures var n := |wire|;
      HeadsOf(wire, id) == HeadsOf(wire[..n - 3], id) + if wire[n - 3] == S.Head(id) then 1 else 0
  {
    var n := |wire|;
    assert wire[..n - 1][..n - 2] == wire[..n - 2] && wire[..n - 2][..n - 3] == wire[..n - 3];
    assert HeadsOf(wire, id) == HeadsOf(wire[..n - 1], id);
    assert HeadsOf(wire[..n - 1], id) == HeadsOf(wire[..n - 2], id);
  }

  lemma {:induction false} ReceivedOnce(data: seq<Bytes>, wire: seq<S.Item>, id: nat)
    requires S.WholeFrames(data, wire)
    ensures InFrames(Received(wire), id) == HeadsOf(wire, id)
  {
    if wire != [] {
      var n := |wire|;
      match wire[n - 1]
      case EndSignal => ReceivedOnce(data, wire[..n - 1], id);
      case Body(_) =>
        ReceivedOnce(data, wire[..n - 3], id);
        LastThreeHeads(wire, id);
        assert Received(wire)[..|Received(wire)| - 1] == Received(wire[..n - 3]);
      case _ =>
    }
  }

  lemma {:induction false} NoHeads(wire: seq<S.Item>, id: nat)
    requires forall i :: 0 <= i < |wire| ==> wire[i] != S.Head(id)
    ensures HeadsOf(wire, id) == 0
  {
    if wire != [] { NoHeads(wire[..|wire| - 1], id); }
  }

  lemma {:induction false} OneHead(wire: seq<S.Item>, i: nat, id: nat)
    requires i < |wire| && wire[i] == S.Head(id)
    requires forall j :: 0 <= j < |wire| && j != i ==> wire[j] != S.Head(id)
    ensures HeadsOf(wire, id) == 1
  {
    var n := |wire| - 1;
    if i < n { OneHead(wire[..n], i, id); } else { NoHeads(wire[..n], id); }
  }

  // ---------- the workers between the two servers ----------

  /** What a worker sends on: the results of what it got, in order. */
  ghost function Computed(f: Bytes -> Bytes, fs: seq<Frame>): (r: seq<Frame>)
    ensures |r| == |fs|
    ensures forall i :: 0 <= i < |fs| ==> r[i] == Frame(fs[i].id, f(fs[i].payload))
  {
    if fs == [] then [] else Computed(f, fs[..|fs| - 1]) + [Frame(fs[|fs| - 1].id, f(fs[|fs| - 1].payload))]
  }

  lemma {:induction false} ComputedCount(f: Bytes -> Bytes, fs: seq<Frame>, id: nat)
    ensures InFrames(Computed(f, fs), id) == InFrames(fs, id)
  {
    if fs != [] {
      var r := Computed(f, fs);
      assert r[..|r| - 1] == Computed(f, fs[..|fs| - 1]);
      ComputedCount(f, fs[..|fs| - 1], id);
    }
  }

  /**
   The workers: `link` says which connection of the supplier a client of the aggregator has at its other end. Each
   worker sends the results of what it received.
   */
  ghost predicate Workers(f: Bytes -> Bytes, s: S.State, plans: A.Plans, link: map<nat, nat>) {
    && link.Keys == plans.Keys && link.Values == s.conns.Keys
    && (forall j, k :: j in link && k in link && link[j] == link[k] ==> j == k)
    && forall k :: k in plans ==> plans[k] == Computed(f, Received(s.conns[link[k]].wire))
  }

  /** The supplier has finished and so have the handlers of all its clients. */
  ghost predicate SupplyFinished(data: seq<Bytes>, run: seq<S.Step>) {
    && S.Exec(data, run).Some? && S.Exec(data, run).value.main.Finished?
    && forall k :: k in S.Exec(data, run).value.conns ==> S.AtStage(S.Exec(data, run).value, k, S.Completed)
  }

  // ---------- the result ----------

  /** How many entries that the aggregator has pulled are of dataset `id`. */
  ghost function InEntries(es: seq<A.Entry>, id: nat): nat {
    if es == [] then 0 else
      var x := es[|es| - 1];
      InEntries(es[..|es| - 1], id) + if x.frame.Some? && x.frame.value.id == id then 1 else 0
  }

  ghost predicate Has(es: seq<A.Entry>, id: nat, result: Bytes) {
    exists i :: 0 <= i < |es| && es[i].frame == Some(Frame(id, result))
  }

  /** The dataset was pulled once, with this result. */
  ghost predicate PulledOnce(es: seq<A.Entry>, id: nat, result: Bytes) {
    InEntries(es, id) == 1 && Has(es, id, result)
  }

  lemma {:induction false} EntryInFrames(es: seq<A.Entry>, i: nat)
    requires i < |es| && es[i].frame.Some?
    ensures es[i].frame.value in A.FramesFrom(es, es[i].client)
  {
    if i < |es| - 1 { EntryInFrames(es[..|es| - 1], i); }
  }

  lemma {:induction false} FrameInEntries(es: seq<A.Entry>, k: nat, x: Frame)
    requires x in A.FramesFrom(es, k)
    ensures Has(es, x.id, x.payload)
  {
    var n := |es| - 1;
    if es[n].frame == Some(x) {
      assert es[n].frame == Some(Frame(x.id, x.payload));
    } else {
      FrameInEntries(es[..n], k, x);
      var i :| 0 <= i < n && es[..n][i].frame == Some(Frame(x.id, x.payload));
      assert es[i].frame == Some(Frame(x.id, x.payload));
    }
  }

  /** When all entries of a dataset are of one client, they are as many as the frames of that client. */
  lemma {:induction false} OneClientCounts(es: seq<A.Entry>, k: nat, id: nat)
    requires forall i :: 0 <= i < |es| && es[i].frame.Some? && es[i].frame.value.id == id ==> es[i].client == k
    ensures InEntries(es, id) == InFrames(A.FramesFrom(es, k), id)
  {
    if es != [] {
      var n := |es| - 1;
      OneClientCounts(es[..n], k, id);
      var fs := A.FramesFrom(es, k);
      if es[n].client == k && es[n].frame.Some? {
        assert fs[..|fs| - 1] == A.FramesFrom(es[..n], k);
      } else {
        assert fs == A.FramesFrom(es[..n], k);
      }
    }
  }

  lemma {:induction false} NoEntries(es: seq<A.Entry>, id: nat)
    requires InEntries(es, id) == 0
    ensures forall i :: 0 <= i < |es| && es[i].frame.Some? ==> es[i].frame.value.id != id
  {
    if es != [] { NoEntries(es[..|es| - 1], id); }
  }

  lemma {:induction false} FrameCounts(fs: seq<Frame>, x: Frame)
    requires x in fs
    ensures InFrames(fs, x.id) > 0
  {
    var n := |fs| - 1;
    if fs[n].id != x.id { FrameCounts(fs[..n], x); }
  }

  /** The worker at the other end of client k was sent dataset `id`, once, and no other worker was. */
  ghost predicate Owner(f: Bytes -> Bytes, data: seq<Bytes>, plans: A.Plans, k: nat, id: nat) {
    && k in plans && id < |data| && InFrames(plans[k], id) == 1 && Frame(id, f(data[id])) in plans[k]
    && forall j :: j in plans && j != k ==> InFrames(plans[j], id) == 0
  }

  lemma HeadsOnWires(data: seq<Bytes>, supply: seq<S.Step>, id: nat) returns (c: nat)
    requires SupplyFinished(data, supply) && id < |data|
    ensures var s := S.Exec(data, supply).value;
      && c in s.conns && HeadsOf(s.conns[c].wire, id) == 1
      && forall d :: d in s.conns && d != c ==> HeadsOf(s.conns[d].wire, id) == 0
  {
    hide S.Exec;
    S.EachDatasetSentOnce(data, supply, id);
    var s := S.Exec(data, supply).value;
    var k, i: nat :| S.HeadAt(s, k, i, id);
    c := k;
    forall j: nat | j < |s.conns[c].wire| && j != i ensures s.conns[c].wire[j] != S.Head(id) {
      assert S.HeadAt(s, c, j, id) <==> s.conns[c].wire[j] == S.Head(id);
    }
    OneHead(s.conns[c].wire, i, id);
    forall d | d in s.conns && d != c ensures HeadsOf(s.conns[d].wire, id) == 0 {
      forall j: nat | j < |s.conns[d].wire| ensures s.conns[d].wire[j] != S.Head(id) {
        assert S.HeadAt(s, d, j, id) <==> s.conns[d].wire[j] == S.Head(id);
      }
      NoHeads(s.conns[d].wire, id);
    }
  }

  lemma {:induction false} CountedFrame(fs: seq<Frame>, id: nat) returns (x: Frame)
    requires InFrames(fs, id) > 0
    ensures x in fs && x.id == id
  {
    var n := |fs| - 1;
    if fs[n].id == id { return fs[n]; }
    x := CountedFrame(fs[..n], id);
  }

  lemma AllWiresWhole(data: seq<Bytes>, supply: seq<S.Step>, c: nat)
    requires SupplyFinished(data, supply) && c in S.Exec(data, supply).value.conns
    ensures S.WholeFrames(data, S.Exec(data, supply).value.conns[c].wire)
  {
    S.RunInv(data, supply);
    var s := S.Exec(data, supply).value;
    assert S.Framed(data, s.main, c, s.conns[c].wire);
    assert s.conns[c].wire[..|s.conns[c].wire|] == s.conns[c].wire;
  }

  lemma PlanCounts(f: Bytes -> Bytes, data: seq<Bytes>, supply: seq<S.Step>, plans: A.Plans, link: map<nat, nat>,
                   j: nat, id: nat)
    requires SupplyFinished(data, supply) && id < |data| && j in plans
    requires Workers(f, S.Exec(data, supply).value, plans, link)
    ensures link[j] in S.Exec(data, supply).value.conns
    ensures InFrames(plans[j], id) == HeadsOf(S.Exec(data, supply).value.conns[link[j]].wire, id)
  {
    hide S.Exec;
    var s := S.Exec(data, supply).value;
    assert link[j] in link.Values;
    AllWiresWhole(data, supply, link[j]);
    ReceivedOnce(data, s.conns[link[j]].wire, id);
    ComputedCount(f, Received(s.conns[link[j]].wire), id);
  }

  lemma PlanIsResults(f: Bytes -> Bytes, data: seq<Bytes>, supply: seq<S.Step>, plans: A.Plans, link: map<nat, nat>,
                      j: nat)
    requires Sendable(data) && SupplyFinished(data, supply) && j in plans
    requires Workers(f, S.Exec(data, supply).value, plans, link)
    ensures forall x :: x in plans[j] ==> x.id < |data| && x.payload == f(data[x.id])
  {
    hide S.Exec;
    hide S.WholeFrames;
    var s := S.Exec(data, supply).value;
    assert link[j] in link.Values;
    var wire := s.conns[link[j]].wire;
    AllWiresWhole(data, supply, link[j]);
    ReceivedIsData(data, wire);
    var fs := Received(wire);
    forall x | x in plans[j] ensures x.id < |data| && x.payload == f(data[x.id]) {
      var i :| 0 <= i < |fs| && plans[j][i] == x;
      assert fs[i] in fs;
    }
  }

  lemma OwnerOf(f: Bytes -> Bytes, data: seq<Bytes>, supply: seq<S.Step>, plans: A.Plans, link: map<nat, nat>, id: nat)
    returns (k: nat)
    requires Sendable(data) && SupplyFinished(data, supply) && id < |data|
    requires Workers(f, S.Exec(data, supply).value, plans, link)
    ensures Owner(f, data, plans, k, id)
  {
    hide S.Exec, Received, Computed, InFrames, HeadsOf;
    var c := HeadsOnWires(data, supply, id);
    var s := S.Exec(data, supply).value;
    k :| k in link && link[k] == c;
    forall j | j in plans ensures InFrames(plans[j], id) == HeadsOf(s.conns[link[j]].wire, id) {
      PlanCounts(f, data, supply, plans, link, j, id);
    }
    var x := CountedFrame(plans[k], id);
    PlanIsResults(f, data, supply, plans, link, k);
  }

  /** A dataset is pulled once exactly when its owner had joined. */
  lemma PulledIffOwnerJoined(f: Bytes -> Bytes, data: seq<Bytes>, plans: A.Plans, run: seq<A.Step>, k: nat, id: nat)
    requires A.ValidPlans(plans) && A.Exec(plans, run).Some? && A.Exec(plans, run).value.aggregator.Exited?
    requires Owner(f, data, plans, k, id)
    ensures var t := A.Exec(plans, run).value;
      PulledOnce(t.pulled, id, f(data[id])) <==> k in t.aggregator.joined
  {
    hide A.Exec;
    var t := A.Exec(plans, run).value;
    forall i | 0 <= i < |t.pulled| && t.pulled[i].frame.Some? && t.pulled[i].frame.value.id == id
      ensures t.pulled[i].client == k
    {
      var j := t.pulled[i].client;
      A.EntriesHaveClients(plans, run, i);
      EntryInFrames(t.pulled, i);
      A.PulledAfterExit(plans, run, j);
      FrameCounts(plans[j], t.pulled[i].frame.value);
    }
    OneClientCounts(t.pulled, k, id);
    A.PulledAfterExit(plans, run, k);
    if k in t.aggregator.joined { FrameInEntries(t.pulled, k, Frame(id, f(data[id]))); }
  }

  /**
   The whole ring: when the supplier has finished and the aggregator has left, every dataset was pulled once, with what
   a worker computes from it, if and only if every worker that was sent a dataset joined the aggregator in time.
   */
  lemma RingCompleteIffWorkersJoined(f: Bytes -> Bytes, data: seq<Bytes>, supply: seq<S.Step>,
                                     plans: A.Plans, link: map<nat, nat>, run: seq<A.Step>)
    requires Sendable(data) && SupplyFinished(data, supply)
    requires Workers(f, S.Exec(data, supply).value, plans, link) && A.ValidPlans(plans)
    requires A.Exec(plans, run).Some? && A.Exec(plans, run).value.aggregator.Exited?
    ensures var t := A.Exec(plans, run).value;
      (forall id: nat :: id < |data| ==> PulledOnce(t.pulled, id, f(data[id]))) <==>
      (forall k :: k in plans && plans[k] != [] ==> k in t.aggregator.joined)
  {
    hide A.Exec, S.Exec, SupplyFinished, Workers, PulledOnce;
    var t := A.Exec(plans, run).value;
    forall id: nat | id < |data|
      ensures exists k :: Owner(f, data, plans, k, id)
                          && (PulledOnce(t.pulled, id, f(data[id])) <==> k in t.aggregator.joined)
    {
      var k := OwnerOf(f, data, supply, plans, link, id);
      PulledIffOwnerJoined(f, data, plans, run, k, id);
    }
    forall k | k in plans && plans[k] != []
      ensures plans[k][0].id < |data| && Owner(f, data, plans, k, plans[k][0].id)
    {
      var x := plans[k][0];
      PlanIsResults(f, data, supply, plans, link, k);
      FrameCounts(plans[k], x);
      var j := OwnerOf(f, data, supply, plans, link, x.id);
    }
  }

  // ---------- it does complete ----------

  /** The workers of a finished supply, each with the number of its connection. */
  ghost function PlansOf(f: Bytes -> Bytes, s: S.State): A.Plans {
    map k | k in s.conns :: Computed(f, Received(s.conns[k].wire))
  }

  lemma IdentityLinks(f: Bytes -> Bytes, s: S.State) returns (link: map<nat, nat>)
    ensures Workers(f, s, PlansOf(f, s), link)
  {
    link := map k | k in s.conns :: k;
    forall k | k in s.conns ensures k in link.Values { assert link[k] == k; }
  }

  lemma ResultsFit(f: Bytes -> Bytes, data: seq<Bytes>, supply: seq<S.Step>)
    requires Sendable(data) && SupplyFinished(data, supply) && forall bytes :: |f(bytes)| < UINT32
    ensures A.ValidPlans(PlansOf(f, S.Exec(data, supply).value))
  {
    hide S.Exec, S.WholeFrames, Received;
    var s := S.Exec(data, supply).value;
    forall k | k in s.conns ensures ValidFrames(Computed(f, Received(s.conns[k].wire))) {
      AllWiresWhole(data, supply, k);
      ReceivedIsData(data, s.conns[k].wire);
      ComputedValid(f, Received(s.conns[k].wire));
    }
  }

  lemma ComputedValid(f: Bytes -> Bytes, fs: seq<Frame>)
    requires ValidFrames(fs) && forall bytes :: |f(bytes)| < UINT32
    ensures ValidFrames(Computed(f, fs))
  {
    var r := Computed(f, fs);
    forall x | x in r ensures ValidFrame(x) {
      var i :| 0 <= i < |r| && r[i] == x;
      assert fs[i] in fs;
    }
  }

  lemma OverIsFinished(data: seq<Bytes>, supply: seq<S.Step>)
    requires S.Exec(data, supply).Some? && SL.Over(S.Exec(data, supply).value)
    ensures SupplyFinished(data, supply)
  {
    hide S.Exec;
  }

  lemma SomebodyWasServed(data: seq<Bytes>, supply: seq<S.Step>)
    requires SupplyFinished(data, supply) && data != []
    ensures S.Exec(data, supply).value.conns != map[]
  {
    hide S.Exec;
    var c := HeadsOnWires(data, supply, 0);
  }

  /**
   The whole ring can complete: for any datasets there are a supply that finishes, workers, and a run of the aggregator
   that leaves with every dataset pulled once, with what a worker computes from it.
   */
  lemma RingCanComplete(f: Bytes -> Bytes, data: seq<Bytes>)
    returns (supply: seq<S.Step>, plans: A.Plans, link: map<nat, nat>, run: seq<A.Step>)
    requires Sendable(data) && data != [] && forall bytes :: |f(bytes)| < UINT32
    ensures SupplyFinished(data, supply) && Workers(f, S.Exec(data, supply).value, plans, link)
    ensures A.ValidPlans(plans) && A.Exec(plans, run).Some? && A.Exec(plans, run).value.aggregator.Exited?
    ensures forall id: nat :: id < |data| ==> PulledOnce(A.Exec(plans, run).value.pulled, id, f(data[id]))
  {
    hide A.Exec, S.Exec, SL.Over, SupplyFinished, Workers, PulledOnce, A.ValidPlans, A.FramesFrom;
    assert S.Exec(data, []).Some? by { SupplyBegins(data); }
    supply := SL.FinishAlwaysReachable(data, []);
    OverIsFinished(data, supply);
    var s := S.Exec(data, supply).value;
    plans := PlansOf(f, s);
    link := IdentityLinks(f, s);
    ResultsFit(f, data, supply);
    SomebodyWasServed(data, supply);
    run := AL.EverythingCanArrive(plans);
    A.CompleteIffAllJoined(plans, run);
    RingCompleteIffWorkersJoined(f, data, supply, plans, link, run);
  }

  lemma SupplyBegins(data: seq<Bytes>)
    ensures S.Exec(data, []) == Some(S.Init)
  {
  }
}
