/**
 The socket supplier server: the main thread pushes datasets and then end signals, while the accept
 handler registers clients one after the other. Every access to the stop flag, the callback slot, the
 socket map and a socket is one step.
 */
module SocketSupplier {
  import opened ExchangeDoc
  import opened Datasets
  import opened Wrappers

  /** What one `send` puts on a connection. */
  datatype Item = Head(id: nat) | Length(n: nat) | Body(bytes: Bytes) | EndSignal

  /** How far the accept handler is with a connection. */
  datatype Stage = TestStop | Insert | TestCallback | CallBack | Completed

  datatype Conn = Conn(stage: Stage, wire: seq<Item>)

  datatype Main =
    | Supplying(next: nat)                       // before `PushDataset(next)`, or before `PushEndSignal`
    | SendHead(next: nat, client: nat)
    | SendLength(next: nat, client: nat)
    | SendBody(next: nat, client: nat)
    | Stopping                                   // callback set
    | Advancing(from: nat)                       // looking for the first entry of the map beyond `from`
    | AtEntry(client: nat)                       // about to send the end signal to this entry
    | Finished

  /** `sockets` holds the keys of the socket map, in the order a traversal meets them. */
  datatype State = State(conns: map<nat, Conn>, sockets: seq<nat>, stop: bool, callback: bool, main: Main)

  ghost const Init := State(map[], [], false, false, Supplying(0))

  datatype Step =
    | Accept(client: nat) | HandlerTestsStop(client: nat) | HandlerInserts(client: nat)
    | HandlerTestsCallback(client: nat) | HandlerCalls(client: nat)
    | Choose | MainSends | SetCallback | SetStop | Advance | SendEnd

  /** The first key beyond `from`. */
  function After(keys: seq<nat>, from: nat): Option<nat> {
    if keys == [] then None else if from < keys[0] then Some(keys[0]) else After(keys[1..], from)
  }

  predicate AtStage(s: State, client: nat, stage: Stage) {
    client in s.conns && s.conns[client].stage == stage
  }

  /** `data[k]` is the content of dataset `k`. */
  ghost predicate Enabled(data: seq<Bytes>, s: State, e: Step) {
    match e
    case Accept(k) => 0 < k && forall j :: j in s.conns ==> j < k && s.conns[j].stage == Completed
    case HandlerTestsStop(k) => AtStage(s, k, TestStop)
    case HandlerInserts(k) => AtStage(s, k, Stage.Insert)
    case HandlerTestsCallback(k) => AtStage(s, k, TestCallback)
    case HandlerCalls(k) => AtStage(s, k, CallBack)
    case Choose => s.main.Supplying? && s.main.next < |data| && s.sockets != []
    case MainSends =>
      && (s.main.SendHead? || s.main.SendLength? || s.main.SendBody?)
      && s.main.next < |data| && s.main.client in s.conns
    case SetCallback => s.main.Supplying? && s.main.next >= |data|
    case SetStop => s.main.Stopping?
    case Advance => s.main.Advancing?
    case SendEnd => s.main.AtEntry? && s.main.client in s.conns
  }

  ghost function Send(s: State, client: nat, item: Item): State
    requires client in s.conns
  {
    s.(conns := s.conns[client := s.conns[client].(wire := s.conns[client].wire + [item])])
  }

  ghost function MoveTo(s: State, client: nat, stage: Stage): State
    requires client in s.conns
  {
    s.(conns := s.conns[client := s.conns[client].(stage := stage)])
  }

  ghost function Apply(data: seq<Bytes>, s: State, e: Step): State
    requires Enabled(data, s, e)
  {
    match e
    case Accept(k) => s.(conns := s.conns[k := Conn(TestStop, [])])
    case HandlerTestsStop(k) => MoveTo(s, k, if s.stop then TestCallback else Stage.Insert)
    case HandlerInserts(k) => MoveTo(s, k, TestCallback).(sockets := ExchangeDoc.Insert(SetOf(s.sockets), k))
    case HandlerTestsCallback(k) => MoveTo(s, k, if s.callback then CallBack else Completed)
    case HandlerCalls(k) => MoveTo(Send(s, k, EndSignal), k, Completed)
    case Choose => s.(main := SendHead(s.main.next, s.sockets[s.main.next % |s.sockets|]))
    case MainSends =>
      var n, k := s.main.next, s.main.client;
      if s.main.SendHead? then Send(s, k, Head(n)).(main := SendLength(n, k))
      else if s.main.SendLength? then Send(s, k, Length(|data[n]|)).(main := SendBody(n, k))
      else Send(s, k, Body(data[n])).(main := Supplying(n + 1))
    case SetCallback => s.(callback := true, main := Stopping)
    case SetStop => s.(stop := true, main := Advancing(0))
    case Advance =>
      s.(main := match After(s.sockets, s.main.from) case Some(k) => AtEntry(k) case None => Finished)
    case SendEnd => Send(s, s.main.client, EndSignal).(main := Advancing(s.main.client))
  }

  ghost function Exec(data: seq<Bytes>, run: seq<Step>): Option<State> {
    if run == [] then Some(Init) else
      var before := Exec(data, run[..|run| - 1]);
      var e := run[|run| - 1];
      if before.Some? && Enabled(data, before.value, e) then Some(Apply(data, before.value, e)) else None
  }

  // ---------- the end race ----------

  ghost predicate Signalled(c: Conn) { EndSignal in c.wire }

  /** The main thread has not passed this entry of the map yet. */
  predicate StillToVisit(m: Main, client: nat) {
    match m
    case Advancing(from) => from < client
    case AtEntry(k) => k <= client
    case Finished => false
    case _ => true
  }

  predicate Before(m: Main) { m.Supplying? || m.SendHead? || m.SendLength? || m.SendBody? }

  ghost predicate Race(s: State) {
    && (0 !in s.conns)
    && (s.callback <==> !Before(s.main))
    && (s.stop <==> !Before(s.main) && !s.main.Stopping?)
    && Ascending(s.sockets)
    && (forall k :: k in s.sockets ==>
          k in s.conns
          && (s.conns[k].stage == TestCallback || s.conns[k].stage == CallBack || s.conns[k].stage == Completed))
    && (s.main.SendHead? || s.main.SendLength? || s.main.SendBody? ==> s.main.client in s.sockets)
    && (s.main.AtEntry? ==> s.main.client in s.sockets)
    && (forall k :: k in s.conns && s.conns[k].stage == TestCallback && !s.callback ==> k in s.sockets)
    && (forall k :: k in s.conns && s.conns[k].stage == CallBack ==> s.callback)
    && (forall k :: k in s.conns && s.conns[k].stage == Completed ==>
          Signalled(s.conns[k]) || (k in s.sockets && StillToVisit(s.main, k)))
  }

  lemma {:induction false} AfterIsFirst(keys: seq<nat>, from: nat)
    requires Ascending(keys)
    ensures After(keys, from).Some? ==> After(keys, from).value in keys && from < After(keys, from).value
    ensures forall k :: k in keys && from < k ==> After(keys, from).Some? && After(keys, from).value <= k
  {
    if keys != [] {
      assert forall k :: k in keys <==> k == keys[0] || k in keys[1..];
      AfterIsFirst(keys[1..], from);
    }
  }

  lemma InsertKeepsRace(data: seq<Bytes>, s: State, k: nat)
    requires Race(s) && Enabled(data, s, HandlerInserts(k))
    ensures Race(Apply(data, s, HandlerInserts(k)))
  {
    AscendingUnique(SetOf(s.sockets), s.sockets);
  }

  lemma CallKeepsRace(data: seq<Bytes>, s: State, k: nat)
    requires Race(s) && Enabled(data, s, HandlerCalls(k))
    ensures Race(Apply(data, s, HandlerCalls(k)))
  {
    assert Apply(data, s, HandlerCalls(k)).conns[k].wire[|s.conns[k].wire|] == EndSignal;
  }

  lemma HandlerKeepsRace(data: seq<Bytes>, s: State, e: Step)
    requires Race(s) && Enabled(data, s, e)
    requires e.Accept? || e.HandlerTestsStop? || e.HandlerInserts? || e.HandlerTestsCallback? || e.HandlerCalls?
    ensures Race(Apply(data, s, e))
  {
    if e.HandlerInserts? {
      InsertKeepsRace(data, s, e.client);
    } else if e.HandlerCalls? {
      CallKeepsRace(data, s, e.client);
    }
  }

  lemma MainKeepsRace(data: seq<Bytes>, s: State, e: Step)
    requires Race(s) && Enabled(data, s, e)
    requires e.Choose? || e.MainSends? || e.SetCallback? || e.SetStop? || e.Advance?
    ensures Race(Apply(data, s, e))
  {
    if e.Advance? { AfterIsFirst(s.sockets, s.main.from); }
  }

  lemma SendEndKeepsRace(data: seq<Bytes>, s: State)
    requires Race(s) && Enabled(data, s, SendEnd)
    ensures Race(Apply(data, s, SendEnd))
  {
    var t, k := Apply(data, s, SendEnd), s.main.client;
    assert t.conns[k].wire[|s.conns[k].wire|] == EndSignal;
  }

  // ---------- what is on each connection ----------

  /** Whole dataset frames and end signals. */
  ghost predicate WholeFrames(data: seq<Bytes>, wire: seq<Item>) {
    if wire == [] then true
    else
      var n := |wire|;
      match wire[n - 1]
      case EndSignal => WholeFrames(data, wire[..n - 1])
      case Body(bytes) =>
        && n >= 3 && wire[n - 3].Head? && wire[n - 3].id < |data| && bytes == data[wire[n - 3].id]
        && wire[n - 2] == Length(|bytes|) && WholeFrames(data, wire[..n - 3])
      case _ => false
  }

  ghost predicate EndsLast(wire: seq<Item>) {
    forall i, j :: 0 <= i < j < |wire| && wire[i] == EndSignal ==> wire[j] == EndSignal
  }

  /** The frame the main thread is in the middle of sending. */
  ghost function Partial(data: seq<Bytes>, m: Main, client: nat): seq<Item> {
    if m.SendLength? && m.client == client then [Head(m.next)]
    else if m.SendBody? && m.client == client && m.next < |data| then [Head(m.next), Length(|data[m.next]|)]
    else []
  }

  ghost predicate Framed(data: seq<Bytes>, m: Main, client: nat, wire: seq<Item>) {
    var part := Partial(data, m, client);
    && EndsLast(wire)
    && (Before(m) ==> EndSignal !in wire)
    && |part| <= |wire| && wire[|wire| - |part|..] == part
    && WholeFrames(data, wire[..|wire| - |part|])
  }

  ghost predicate Wires(data: seq<Bytes>, s: State) {
    && (s.main.SendHead? || s.main.SendLength? || s.main.SendBody? ==> s.main.next < |data|)
    && forall k :: k in s.conns ==> Framed(data, s.main, k, s.conns[k].wire)
  }

  lemma FrameHead(data: seq<Bytes>, n: nat, k: nat, wire: seq<Item>)
    requires n < |data| && Framed(data, SendHead(n, k), k, wire)
    ensures Framed(data, SendLength(n, k), k, wire + [Head(n)])
  {
    assert wire[..|wire|] == wire;
    assert (wire + [Head(n)])[..|wire|] == wire;
  }

  lemma FrameLength(data: seq<Bytes>, n: nat, k: nat, wire: seq<Item>)
    requires n < |data| && Framed(data, SendLength(n, k), k, wire)
    ensures Framed(data, SendBody(n, k), k, wire + [Length(|data[n]|)])
  {
    assert (wire + [Length(|data[n]|)])[..|wire| - 1] == wire[..|wire| - 1];
  }

  function Frame(data: seq<Bytes>, n: nat): seq<Item>
    requires n < |data|
  {
    [Head(n), Length(|data[n]|), Body(data[n])]
  }

  lemma WholeNext(data: seq<Bytes>, init: seq<Item>, n: nat)
    requires n < |data| && WholeFrames(data, init)
    ensures WholeFrames(data, init + Frame(data, n))
  {
    var wire := init + Frame(data, n);
    assert wire[..|wire| - 3] == init;
  }

  lemma NoEndInFrame(data: seq<Bytes>, init: seq<Item>, n: nat)
    requires n < |data| && EndSignal !in init
    ensures EndSignal !in init + Frame(data, n)
  {
  }

  lemma FrameBody(data: seq<Bytes>, n: nat, k: nat, init: seq<Item>)
    requires n < |data| && WholeFrames(data, init) && EndSignal !in init
    ensures Framed(data, Supplying(n + 1), k, init + Frame(data, n))
  {
    hide WholeFrames;
    var after := init + Frame(data, n);
    WholeNext(data, init, n);
    NoEndInFrame(data, init, n);
    assert after[..|after|] == after;
  }

  /** The dataset is whole when its payload is sent. */
  lemma BodyEndsFrame(data: seq<Bytes>, n: nat, k: nat, wire: seq<Item>) returns (init: seq<Item>)
    requires n < |data| && Framed(data, SendBody(n, k), k, wire)
    ensures WholeFrames(data, init) && EndSignal !in init && wire + [Body(data[n])] == init + Frame(data, n)
  {
    hide WholeFrames;
    init := wire[..|wire| - 2];
    assert wire == init + [Head(n), Length(|data[n]|)];
  }

  lemma FramedEnd(data: seq<Bytes>, m: Main, client: nat, wire: seq<Item>)
    requires Framed(data, m, client, wire) && !Before(m)
    ensures Framed(data, m, client, wire + [EndSignal])
  {
    assert wire[..|wire|] == wire;
    assert (wire + [EndSignal])[..|wire|] == wire;
    assert (wire + [EndSignal])[..|wire| + 1] == wire + [EndSignal];
  }

  lemma FrameOther(data: seq<Bytes>, m: Main, m': Main, k: nat, wire: seq<Item>)
    requires Framed(data, m, k, wire) && (Before(m') ==> Before(m))
    requires Partial(data, m, k) == [] && Partial(data, m', k) == []
    ensures Framed(data, m', k, wire)
  {
  }

  lemma WiresAfterSend(data: seq<Bytes>, s: State, k: nat, x: Item, m: Main)
    requires Wires(data, s) && k in s.conns && Before(s.main) && Before(m)
    requires m.SendLength? || m.SendBody? ==> m.client == k && m.next < |data|
    requires s.main.SendLength? || s.main.SendBody? ==> s.main.client == k
    requires !m.SendHead?
    requires Framed(data, m, k, s.conns[k].wire + [x])
    ensures Wires(data, Send(s, k, x).(main := m))
  {
    forall j | j in s.conns && j != k ensures Framed(data, m, j, s.conns[j].wire) {
      FrameOther(data, s.main, m, j, s.conns[j].wire);
    }
  }

  lemma MainSendsKeepsWires(data: seq<Bytes>, s: State)
    requires Wires(data, s) && Enabled(data, s, MainSends)
    ensures Wires(data, Apply(data, s, MainSends))
  {
    var n, k := s.main.next, s.main.client;
    var wire := s.conns[k].wire;
    assert Framed(data, s.main, k, wire);
    match s.main {
      case SendHead(_, _) =>
        FrameHead(data, n, k, wire);
        WiresAfterSend(data, s, k, Head(n), SendLength(n, k));
      case SendLength(_, _) =>
        FrameLength(data, n, k, wire);
        WiresAfterSend(data, s, k, Length(|data[n]|), SendBody(n, k));
      case SendBody(_, _) =>
        var init := BodyEndsFrame(data, n, k, wire);
        FrameBody(data, n, k, init);
        WiresAfterSend(data, s, k, Body(data[n]), Supplying(n + 1));
    }
  }

  lemma AcceptKeepsWires(data: seq<Bytes>, s: State, k: nat)
    requires Race(s) && Wires(data, s) && Enabled(data, s, Accept(k))
    ensures Wires(data, Apply(data, s, Accept(k)))
  {
    hide Framed, Race, WholeFrames;
    SenderIsKnown(s, k);
    FramedEmpty(data, s.main, k);
  }

  /** Nobody sends to a client that has just connected. */
  lemma SenderIsKnown(s: State, k: nat)
    requires Race(s) && k !in s.conns
    ensures s.main.SendLength? || s.main.SendBody? ==> s.main.client != k
  {
  }

  lemma FramedEmpty(data: seq<Bytes>, m: Main, k: nat)
    requires m.SendLength? || m.SendBody? ==> m.client != k
    ensures Framed(data, m, k, [])
  {
  }

  lemma CallKeepsWires(data: seq<Bytes>, s: State, k: nat)
    requires Race(s) && Wires(data, s) && Enabled(data, s, HandlerCalls(k))
    ensures Wires(data, Apply(data, s, HandlerCalls(k)))
  {
    FramedEnd(data, s.main, k, s.conns[k].wire);
  }

  lemma HandlerKeepsWires(data: seq<Bytes>, s: State, e: Step)
    requires Race(s) && Wires(data, s) && Enabled(data, s, e)
    requires e.Accept? || e.HandlerTestsStop? || e.HandlerInserts? || e.HandlerTestsCallback? || e.HandlerCalls?
    ensures Wires(data, Apply(data, s, e))
  {
    hide Framed, Race;
    if e.Accept? {
      AcceptKeepsWires(data, s, e.client);
    } else if e.HandlerCalls? {
      CallKeepsWires(data, s, e.client);
    }
  }

  lemma MainKeepsWires(data: seq<Bytes>, s: State, e: Step)
    requires Race(s) && Wires(data, s) && Enabled(data, s, e)
    requires e.Choose? || e.SetCallback? || e.SetStop? || e.Advance?
    ensures Wires(data, Apply(data, s, e))
  {
    forall k | k in s.conns ensures Framed(data, Apply(data, s, e).main, k, s.conns[k].wire) {
      FrameOther(data, s.main, Apply(data, s, e).main, k, s.conns[k].wire);
    }
  }

  lemma SendEndKeepsWires(data: seq<Bytes>, s: State)
    requires Race(s) && Wires(data, s) && Enabled(data, s, SendEnd)
    ensures Wires(data, Apply(data, s, SendEnd))
  {
    FramedEnd(data, s.main, s.main.client, s.conns[s.main.client].wire);
    forall k | k in s.conns && k != s.main.client
      ensures Framed(data, Apply(data, s, SendEnd).main, k, s.conns[k].wire)
    {
      FrameOther(data, s.main, Apply(data, s, SendEnd).main, k, s.conns[k].wire);
    }
    FrameOther(data, s.main, Apply(data, s, SendEnd).main, s.main.client, s.conns[s.main.client].wire + [EndSignal]);
  }

  // ---------- each dataset goes to one client, once ----------

  ghost predicate HeadAt(s: State, client: nat, i: nat, id: nat) {
    client in s.conns && i < |s.conns[client].wire| && s.conns[client].wire[i] == Head(id)
  }

  ghost function Sent(data: seq<Bytes>, m: Main): nat {
    match m
    case Supplying(n) => n
    case SendHead(n, _) => n
    case SendLength(n, _) => n + 1
    case SendBody(n, _) => n + 1
    case _ => |data|
  }

  ghost predicate WasSent(s: State, id: nat) { exists k, i :: HeadAt(s, k, i, id) }

  ghost predicate OnceEach(data: seq<Bytes>, s: State) {
    && Sent(data, s.main) <= |data|
    && (forall k: nat, i: nat, id: nat :: HeadAt(s, k, i, id) ==> id < Sent(data, s.main))
    && (forall id: nat :: id < Sent(data, s.main) ==> WasSent(s, id))
    && (forall k: nat, i: nat, k': nat, i': nat, id: nat ::
          HeadAt(s, k, i, id) && HeadAt(s, k', i', id) ==> k == k' && i == i')
  }

  lemma HeadSentOnce(data: seq<Bytes>, s: State)
    requires OnceEach(data, s) && Enabled(data, s, MainSends) && s.main.SendHead?
    ensures OnceEach(data, Apply(data, s, MainSends))
  {
    var t, c := Apply(data, s, MainSends), s.main.client;
    var at := |s.conns[c].wire|;
    forall k: nat, i: nat, id: nat
      ensures HeadAt(t, k, i, id) <==> HeadAt(s, k, i, id) || (k == c && i == at && id == s.main.next)
    {}
    assert HeadAt(t, c, at, s.main.next);
    forall id: nat | id < s.main.next ensures WasSent(t, id) {
      assert WasSent(s, id);
    }
  }

  lemma OtherStepsOnce(data: seq<Bytes>, s: State, e: Step)
    requires OnceEach(data, s) && Enabled(data, s, e) && !(e.MainSends? && s.main.SendHead?)
    ensures OnceEach(data, Apply(data, s, e))
  {
    var t := Apply(data, s, e);
    forall k: nat, i: nat, id: nat ensures HeadAt(t, k, i, id) <==> HeadAt(s, k, i, id) {}
    forall id: nat | id < Sent(data, t.main) ensures WasSent(t, id) {
      assert WasSent(s, id);
    }
  }

  ghost predicate Inv(data: seq<Bytes>, s: State) {
    Race(s) && Wires(data, s) && OnceEach(data, s)
  }

  lemma {:induction false} RunInv(data: seq<Bytes>, run: seq<Step>)
    requires Exec(data, run).Some?
    ensures Inv(data, Exec(data, run).value)
  {
    if run != [] {
      RunInv(data, run[..|run| - 1]);
      var s, e := Exec(data, run[..|run| - 1]).value, run[|run| - 1];
      match e {
        case Accept(_) | HandlerTestsStop(_) | HandlerInserts(_) | HandlerTestsCallback(_) | HandlerCalls(_) =>
          HandlerKeepsRace(data, s, e);
          HandlerKeepsWires(data, s, e);
        case SendEnd =>
          SendEndKeepsRace(data, s);
          SendEndKeepsWires(data, s);
        case MainSends =>
          MainKeepsRace(data, s, e);
          MainSendsKeepsWires(data, s);
        case _ =>
          MainKeepsRace(data, s, e);
          MainKeepsWires(data, s, e);
      }
      if e.MainSends? && s.main.SendHead? { HeadSentOnce(data, s); } else { OtherStepsOnce(data, s, e); }
    }
  }

  // ---------- main results ----------

  /** Once `PushEndSignal` is over, every client whose handler completes has been sent an end signal. */
  lemma EveryClientIsSignalled(data: seq<Bytes>, run: seq<Step>, client: nat)
    requires Exec(data, run).Some? && Exec(data, run).value.main.Finished?
    requires AtStage(Exec(data, run).value, client, Completed)
    ensures EndSignal in Exec(data, run).value.conns[client].wire
  {
    RunInv(data, run);
  }

  /** At any time, nothing but end signals follows an end signal. */
  lemma NoDatasetAfterEnd(data: seq<Bytes>, run: seq<Step>, client: nat)
    requires Exec(data, run).Some? && client in Exec(data, run).value.conns
    ensures EndsLast(Exec(data, run).value.conns[client].wire)
  {
    RunInv(data, run);
    assert Framed(data, Exec(data, run).value.main, client, Exec(data, run).value.conns[client].wire);
  }

  /** In the end every dataset was sent whole to exactly one client, and every connection carries whole frames. */
  lemma EachDatasetSentOnce(data: seq<Bytes>, run: seq<Step>, id: nat)
    requires Exec(data, run).Some? && Exec(data, run).value.main.Finished? && id < |data|
    ensures WasSent(Exec(data, run).value, id)
    ensures var s := Exec(data, run).value;
      forall k: nat, i: nat, k': nat, i': nat :: HeadAt(s, k, i, id) && HeadAt(s, k', i', id) ==> k == k' && i == i'
    ensures var s := Exec(data, run).value;
      forall k :: k in s.conns ==> WholeFrames(data, s.conns[k].wire)
  {
    RunInv(data, run);
    var s := Exec(data, run).value;
    forall k | k in s.conns ensures WholeFrames(data, s.conns[k].wire) {
      assert Framed(data, s.main, k, s.conns[k].wire);
      assert s.conns[k].wire[..|s.conns[k].wire|] == s.conns[k].wire;
    }
  }

  // ---------- who gets a dataset ----------

  /** In step `n` client k is chosen for dataset `id`, by its place among the clients that are registered then. */
  ghost predicate ChosenAt(data: seq<Bytes>, run: seq<Step>, n: nat, k: nat, id: nat) {
    n < |run| && run[n] == Choose && Exec(data, run[..n]).Some? &&
    var s := Exec(data, run[..n]).value;
    s.main == Supplying(id) && s.sockets != [] && k == s.sockets[id % |s.sockets|]
  }

  /** The main thread is sending dataset `id` to client k. */
  predicate SendsTo(m: Main, k: nat, id: nat) {
    m == SendHead(id, k) || m == SendLength(id, k) || m == SendBody(id, k)
  }

  lemma ChosenLater(data: seq<Bytes>, run: seq<Step>, n: nat, k: nat, id: nat)
    requires run != [] && ChosenAt(data, run[..|run| - 1], n, k, id)
    ensures ChosenAt(data, run, n, k, id)
  {
    assert run[..|run| - 1][..n] == run[..n];
  }

  lemma {:induction false} SenderWasChosen(data: seq<Bytes>, run: seq<Step>, k: nat, id: nat) returns (n: nat)
    requires Exec(data, run).Some? && SendsTo(Exec(data, run).value.main, k, id)
    ensures ChosenAt(data, run, n, k, id)
  {
    var (before, e) := (run[..|run| - 1], run[|run| - 1]);
    if e == Choose {
      n := |before|;
    } else {
      assert SendsTo(Exec(data, before).value.main, k, id);
      n := SenderWasChosen(data, before, k, id);
      ChosenLater(data, run, n, k, id);
    }
  }

  lemma StepKeepsHeads(data: seq<Bytes>, s: State, e: Step, k: nat, i: nat, id: nat)
    requires Enabled(data, s, e) && HeadAt(Apply(data, s, e), k, i, id)
    ensures HeadAt(s, k, i, id) || (e.MainSends? && s.main == SendHead(id, k))
  {
  }

  /** A dataset is only ever sent to the client chosen for it. */
  lemma {:induction false} SentWhereChosen(data: seq<Bytes>, run: seq<Step>, k: nat, i: nat, id: nat) returns (n: nat)
    requires Exec(data, run).Some? && HeadAt(Exec(data, run).value, k, i, id)
    ensures ChosenAt(data, run, n, k, id)
  {
    hide Apply, Enabled, HeadAt, ChosenAt;
    NothingSentAtFirst(k, i, id);
    var (before, e) := (run[..|run| - 1], run[|run| - 1]);
    var s := Exec(data, before).value;
    StepKeepsHeads(data, s, e, k, i, id);
    if HeadAt(s, k, i, id) {
      n := SentWhereChosen(data, before, k, i, id);
    } else {
      n := SenderWasChosen(data, before, k, id);
    }
    ChosenLater(data, run, n, k, id);
  }

  lemma NothingSentAtFirst(k: nat, i: nat, id: nat)
    ensures !HeadAt(Init, k, i, id)
  {
  }
}
