/** The socket aggregator can always go on until it leaves, provided it has a client at all. */
module SocketAggregatorLiveness {
  import opened ExchangeDoc
  import opened Datasets
  import opened SocketFrames
  import opened SocketAggregator
  import opened Wrappers

  // ---------- work left ----------

  ghost function ReaderWork(r: Reader): nat {
    match r
    case TestStop => 8
    case Insert => 7
    case Start => 6
    case AtId => 5
    case AtLength(_) => 14
    case AtPayload(_, _, _) => 13
    case Pushing(_) => 12
    case Stopped => 0
  }

  /** What is left of one client. */
  ghost function ClientWork(plans: Plans, s: State, k: nat): nat {
    if k in s.conns then
      var c := s.conns[k];
      10 * (|c.onWire| + |c.unsent|) + |c.unsent| + ReaderWork(c.reader)
    else if k in plans && ValidFrames(plans[k]) then 11 * |Stream(plans[k])| + 9
    else 0
  }

  /** All clients below `n`. */
  ghost function ClientsWork(plans: Plans, s: State, n: nat): nat {
    if n == 0 then 0 else ClientsWork(plans, s, n - 1) + ClientWork(plans, s, n - 1)
  }

  ghost function AggregatorWork(a: Aggregator): nat {
    match a
    case Pulling => 0
    case Erasing(_) => 3
    case HandlingEnd => 2
    case Stopping(_) => 1
    case Exited(_) => 0
  }

  ghost function Work(plans: Plans, s: State, n: nat): nat {
    ClientsWork(plans, s, n) + 5 * |s.queue| + AggregatorWork(s.aggregator)
  }

  ghost predicate Below(plans: Plans, n: nat) { forall k :: k in plans ==> k < n }

  lemma {:induction false} OtherClientsStay(plans: Plans, s: State, t: State, n: nat)
    requires forall k: nat :: k < n ==> ClientWork(plans, t, k) == ClientWork(plans, s, k)
    ensures ClientsWork(plans, t, n) == ClientsWork(plans, s, n)
  {
    hide ClientWork;
    if n > 0 { OtherClientsStay(plans, s, t, n - 1); }
  }

  lemma {:induction false} OneClientMoves(plans: Plans, s: State, t: State, n: nat, k: nat)
    requires k < n && forall j: nat :: j != k ==> ClientWork(plans, t, j) == ClientWork(plans, s, j)
    ensures ClientsWork(plans, t, n) + ClientWork(plans, s, k) == ClientsWork(plans, s, n) + ClientWork(plans, t, k)
  {
    hide ClientWork;
    if k == n - 1 { OtherClientsStay(plans, s, t, n - 1); } else { OneClientMoves(plans, s, t, n - 1, k); }
  }

  predicate IsIdle(e: Step) { e.ClientSends? && e.n == 0 }

  lemma ReaderUsesWork(plans: Plans, s: State, e: Step, k: nat)
    requires Enabled(plans, s, e) && !IsIdle(e) && !e.Pull? && !e.EraseSocket? && !e.TestEmpty? && !e.StopRegistration?
    requires k == e.k
    ensures var t := Apply(plans, s, e);
      ClientWork(plans, t, k) + 5 * |t.queue| < ClientWork(plans, s, k) + 5 * |s.queue|
  {
    hide Stream, ReadWord;
  }

  lemma OthersStay(plans: Plans, s: State, t: State, k: nat)
    requires forall j :: j != k ==> (j in t.conns <==> j in s.conns) && (j in s.conns ==> t.conns[j] == s.conns[j])
    ensures forall j: nat :: j != k ==> ClientWork(plans, t, j) == ClientWork(plans, s, j)
  {
    hide ReaderWork, Stream;
  }

  lemma ClientUsesWork(plans: Plans, s: State, e: Step, n: nat)
    requires Below(plans, n) && s.conns.Keys <= plans.Keys && Enabled(plans, s, e) && !IsIdle(e)
    requires !e.Pull? && !e.EraseSocket? && !e.TestEmpty? && !e.StopRegistration?
    ensures Work(plans, Apply(plans, s, e), n) < Work(plans, s, n)
  {
    hide ClientWork, ReadWord;
    var t := Apply(plans, s, e);
    OthersStay(plans, s, t, e.k);
    OneClientMoves(plans, s, t, n, e.k);
    ReaderUsesWork(plans, s, e, e.k);
  }

  /** Every step of a reader, of the handler and of the aggregator uses work up, and so does every send of bytes. */
  lemma StepUsesWork(plans: Plans, s: State, e: Step, n: nat)
    requires Below(plans, n) && s.conns.Keys <= plans.Keys && Enabled(plans, s, e) && !IsIdle(e)
    ensures Work(plans, Apply(plans, s, e), n) < Work(plans, s, n)
  {
    match e
    case Pull | EraseSocket | TestEmpty | StopRegistration =>
      hide ReaderWork, Stream, ReadWord;
      OtherClientsStay(plans, s, Apply(plans, s, e), n);
    case _ =>
      hide Work, Apply, Enabled, Below;
      ClientUsesWork(plans, s, e, n);
  }

  // ---------- where it stands ----------

  /** A client is in the map until its end signal is pulled, and while the aggregator pulls the map is not empty. */
  ghost predicate Open(s: State) {
    && (forall k :: k in s.sockets && None in From(s.pulled, k) ==> s.aggregator == Erasing(k))
    && (s.aggregator.Pulling? && s.joined != {} ==> s.sockets != {})
  }

  lemma PullKeepsOpen(plans: Plans, s: State)
    requires Open(s) && Enabled(plans, s, Pull)
    ensures Open(Apply(plans, s, Pull))
  {
    var t, x := Apply(plans, s, Pull), s.queue[0];
    forall k ensures From(t.pulled, k) == From(s.pulled, k) + if x.client == k then [x.frame] else [] {
      assert t.pulled[..|t.pulled| - 1] == s.pulled;
    }
  }

  lemma InsertKeepsOpen(plans: Plans, s: State, k: nat)
    requires ValidPlans(plans) && Merged(plans, s) && Joining(plans, s) && Open(s)
    requires Enabled(plans, s, HandlerInserts(k))
    ensures Open(Apply(plans, s, HandlerInserts(k)))
  {
    hide From;
    assert InOrder(plans[k], From(s.pulled + s.queue, k), s.conns[k]);
    FromConcat(s.pulled, s.queue, k);
  }

  lemma StepKeepsOpen(plans: Plans, s: State, e: Step)
    requires ValidPlans(plans) && Merged(plans, s) && Joining(plans, s) && Open(s) && Enabled(plans, s, e)
    ensures Open(Apply(plans, s, e))
  {
    hide From, Merged, Joining;
    match e
    case Pull => PullKeepsOpen(plans, s);
    case HandlerInserts(k) => InsertKeepsOpen(plans, s, k);
    case _ =>
  }

  lemma {:induction false} RunOpen(plans: Plans, run: seq<Step>)
    requires ValidPlans(plans) && Exec(plans, run).Some?
    ensures Open(Exec(plans, run).value)
  {
    hide Apply, Enabled, Merged, Joining;
    if run != [] {
      RunOpen(plans, run[..|run| - 1]);
      RunInv(plans, run[..|run| - 1]);
      StepKeepsOpen(plans, Exec(plans, run[..|run| - 1]).value, run[|run| - 1]);
    }
  }

  // ---------- the exit is reached ----------

  /** What a connection does next, when its reader has not stopped. */
  function ConnStep(c: Conn, k: nat): Step {
    match c.reader
    case TestStop => HandlerTestsStop(k)
    case Insert => HandlerInserts(k)
    case Start => HandlerStartsThread(k)
    case AtId => if |c.onWire| >= 4 then ReadId(k) else ClientSends(k, |c.unsent|)
    case AtLength(_) => if |c.onWire| >= 4 then ReadLength(k) else ClientSends(k, |c.unsent|)
    case AtPayload(_, length, buffer) =>
      if |buffer| == length then PayloadDone(k)
      else if |c.onWire| > 0 then ReadPayload(k, 1)
      else ClientSends(k, |c.unsent|)
    case _ => PushEntry(k)
  }

  lemma ConnGoesOn(plans: Plans, s: State, k: nat, n: nat)
    requires ValidPlans(plans) && k in plans && k in s.conns && !s.conns[k].reader.Stopped?
    requires ReaderAt(plans[k], n, s.conns[k])
    ensures var e := ConnStep(s.conns[k], k); Enabled(plans, s, e) && !IsIdle(e)
  {
    hide Word, Stream;
    var c := s.conns[k];
    match c.reader
    case AtId => assert |c.onWire + c.unsent| >= 4;
    case AtLength(_) => assert |c.onWire + c.unsent| >= 4;
    case AtPayload(_, length, buffer) =>
      assert |buffer| + |c.onWire| + |c.unsent| >= length;
    case _ =>
  }

  predicate ClientStopped(s: State, k: nat) { k in s.conns && s.conns[k].reader.Stopped? }

  lemma StoppedIsPulled(plans: Plans, s: State, k: nat)
    requires ValidPlans(plans) && Merged(plans, s) && k in plans && ClientStopped(s, k) && s.queue == []
    ensures None in From(s.pulled, k)
  {
    assert s.pulled + s.queue == s.pulled;
    assert InOrder(plans[k], From(s.pulled, k), s.conns[k]);
    assert Pushed(plans[k], |plans[k]| + 1)[|plans[k]|] == None;
  }

  /** While the aggregator waits on an empty queue, some client has not been read to its end. */
  lemma SomeoneIsLeft(plans: Plans, s: State) returns (k: nat)
    requires ValidPlans(plans) && plans != map[] && Merged(plans, s) && Joining(plans, s) && Open(s)
    requires s.aggregator.Pulling? && s.queue == []
    ensures k in plans && !ClientStopped(s, k)
  {
    hide Merged, From;
    k :| k in plans;
    if ClientStopped(s, k) {
      assert k in s.joined;
      k :| k in s.sockets;
      if ClientStopped(s, k) { StoppedIsPulled(plans, s, k); }
    }
  }

  lemma ClientStep(plans: Plans, s: State, k: nat) returns (e: Step)
    requires ValidPlans(plans) && Merged(plans, s) && k in plans && !ClientStopped(s, k)
    ensures Enabled(plans, s, e) && !IsIdle(e)
  {
    hide From, ReaderAt;
    if k in s.conns {
      var n := |From(s.pulled + s.queue, k)|;
      ConnGoesOn(plans, s, k, n);
      e := ConnStep(s.conns[k], k);
    } else {
      e := Accept(k);
    }
  }

  /** Until the aggregator has left, some step can be taken that is not an empty send. */
  lemma NeverStuck(plans: Plans, s: State) returns (e: Step)
    requires ValidPlans(plans) && plans != map[] && Merged(plans, s) && Joining(plans, s) && Open(s)
    requires !s.aggregator.Exited?
    ensures Enabled(plans, s, e) && !IsIdle(e)
  {
    hide Joining, Open, Merged;
    match s.aggregator
    case Erasing(_) => e := EraseSocket;
    case HandlingEnd => e := TestEmpty;
    case Stopping(_) => e := StopRegistration;
    case _ =>
      if s.queue != [] {
        e := Pull;
      } else {
        var k := SomeoneIsLeft(plans, s);
        e := ClientStep(plans, s, k);
      }
  }

  ghost function KeyAbove(keys: set<nat>): (n: nat)
    ensures forall k :: k in keys ==> k < n
  {
    if keys == {} then 0 else
      var k :| k in keys;
      var n := KeyAbove(keys - {k});
      assert forall j :: j in keys <==> j == k || j in keys - {k};
      if k < n then n else k + 1
  }

  /** From every reachable state the run can be continued until the aggregator leaves. */
  lemma {:induction false} ExitAlwaysReachable(plans: Plans, run: seq<Step>) returns (longer: seq<Step>)
    requires ValidPlans(plans) && plans != map[] && Exec(plans, run).Some?
    ensures run <= longer && Exec(plans, longer).Some? && Exec(plans, longer).value.aggregator.Exited?
    decreases Work(plans, Exec(plans, run).value, KeyAbove(plans.Keys))
  {
    hide Merged, Joining, Open, Apply, Enabled, Work;
    var s, n := Exec(plans, run).value, KeyAbove(plans.Keys);
    RunInv(plans, run);
    RunOpen(plans, run);
    if s.aggregator.Exited? {
      longer := run;
    } else {
      var e := NeverStuck(plans, s);
      assert (run + [e])[..|run|] == run;
      assert Exec(plans, run + [e]) == Some(Apply(plans, s, e));
      ConnsArePlanned(plans, s);
      StepUsesWork(plans, s, e, n);
      longer := ExitAlwaysReachable(plans, run + [e]);
    }
  }

  lemma ConnsArePlanned(plans: Plans, s: State)
    requires Joining(plans, s)
    ensures s.conns.Keys <= plans.Keys
  {
  }

  /** Without clients there is no end signal to leave on. */
  lemma NoClientNoExit(run: seq<Step>)
    requires Exec(map[], run).Some?
    ensures !Exec(map[], run).value.aggregator.Exited?
  {
    hide Exec;
    NothingPulled(run);
  }

  lemma {:induction false} NothingPulled(run: seq<Step>)
    requires Exec(map[], run).Some?
    ensures var s := Exec(map[], run).value; s.conns == map[] && s.queue == [] && s.aggregator.Pulling?
  {
    if run != [] { NothingPulled(run[..|run| - 1]); }
  }

  /** The aggregator can leave if and only if there is a client. */
  lemma ExitIffClients(plans: Plans)
    requires ValidPlans(plans)
    ensures (exists run :: Exec(plans, run).Some? && Exec(plans, run).value.aggregator.Exited?) <==> plans != map[]
  {
    hide Exec;
    if plans == map[] {
      forall run | Exec(plans, run).Some? ensures !Exec(plans, run).value.aggregator.Exited? { NoClientNoExit(run); }
    } else {
      assert Exec(plans, []).Some? by { Begins(plans); }
      var run := ExitAlwaysReachable(plans, []);
    }
  }

  lemma Begins(plans: Plans)
    ensures Exec(plans, []) == Some(Init)
  {
  }

  /** No run is longer than what the clients have to send allows, empty sends apart. */
  lemma {:induction false} RunsAreBounded(plans: Plans, run: seq<Step>, n: nat)
    requires Below(plans, n) && Exec(plans, run).Some? && forall i :: 0 <= i < |run| ==> !IsIdle(run[i])
    ensures |run| + Work(plans, Exec(plans, run).value, n) <= Work(plans, Init, n)
    ensures Exec(plans, run).value.conns.Keys <= plans.Keys
  {
    hide Work;
    if run != [] {
      RunsAreBounded(plans, run[..|run| - 1], n);
      StepUsesWork(plans, Exec(plans, run[..|run| - 1]).value, run[|run| - 1], n);
    }
  }

  // ---------- clients that come too late ----------

  /** After it has left, nobody is inserted any more. */
  lemma {:induction false} LateClientStaysOut(plans: Plans, run: seq<Step>, longer: seq<Step>, k: nat)
    requires Exec(plans, run).Some? && Exec(plans, run).value.stop && k !in Exec(plans, run).value.conns
    requires k !in Exec(plans, run).value.sockets
    requires run <= longer && Exec(plans, longer).Some?
    ensures var t := Exec(plans, longer).value;
      t.stop && k !in t.sockets && (k in t.conns ==> !t.conns[k].reader.Insert?)
    decreases |longer|
  {
    if longer != run {
      var before := longer[..|longer| - 1];
      assert run <= before;
      LateClientStaysOut(plans, run, before, k);
    }
  }

  // ---------- everybody can join ----------

  ghost predicate JoinedBy(s: State, clients: set<nat>) {
    clients <= s.joined
    && (s.aggregator.Stopping? || s.aggregator.Exited? ==> clients <= s.aggregator.joined)
  }

  lemma {:induction false} JoinedStays(plans: Plans, run: seq<Step>, longer: seq<Step>, clients: set<nat>)
    requires Exec(plans, run).Some? && Exec(plans, longer).Some? && run <= longer
    requires JoinedBy(Exec(plans, run).value, clients)
    ensures JoinedBy(Exec(plans, longer).value, clients)
    decreases |longer|
  {
    if longer != run {
      var before := longer[..|longer| - 1];
      assert run <= before;
      JoinedStays(plans, run, before, clients);
    }
  }

  ghost predicate Gathered(s: State, clients: set<nat>) {
    !s.stop && s.aggregator.Pulling? && s.joined == clients && s.conns.Keys == clients
  }

  lemma Joins(plans: Plans, run: seq<Step>, clients: set<nat>, k: nat) returns (longer: seq<Step>)
    requires ValidPlans(plans) && Exec(plans, run).Some? && Gathered(Exec(plans, run).value, clients)
    requires k in plans && k !in clients
    ensures Exec(plans, longer).Some? && Gathered(Exec(plans, longer).value, clients + {k})
  {
    var s0 := Exec(plans, run).value;
    var s1 := Apply(plans, s0, Accept(k));
    var run1 := Next(plans, run, s0, Accept(k), s1);
    var s2 := Apply(plans, s1, HandlerTestsStop(k));
    var run2 := Next(plans, run1, s1, HandlerTestsStop(k), s2);
    var s3 := Apply(plans, s2, HandlerInserts(k));
    longer := Next(plans, run2, s2, HandlerInserts(k), s3);
  }

  lemma {:induction false} AllJoin(plans: Plans, clients: set<nat>) returns (run: seq<Step>)
    requires ValidPlans(plans) && clients <= plans.Keys
    ensures Exec(plans, run).Some? && Gathered(Exec(plans, run).value, clients)
  {
    hide Apply, Enabled;
    if clients == {} {
      run := [];
    } else {
      var k :| k in clients;
      run := AllJoin(plans, clients - {k});
      run := Joins(plans, run, clients - {k}, k);
      assert clients - {k} + {k} == clients;
    }
  }

  /** With any clients there is a run in which all of them join in time, and the aggregator leaves with everything. */
  lemma EverythingCanArrive(plans: Plans) returns (run: seq<Step>)
    requires ValidPlans(plans) && plans != map[]
    ensures Exec(plans, run).Some? && Exec(plans, run).value.aggregator.Exited?
    ensures forall k :: k in plans ==> FramesFrom(Exec(plans, run).value.pulled, k) == plans[k]
  {
    hide Exec, FramesFrom;
    var start := AllJoin(plans, plans.Keys);
    run := ExitAlwaysReachable(plans, start);
    JoinedStays(plans, start, run, plans.Keys);
    CompleteIffAllJoined(plans, run);
  }
}
