/**
 The socket aggregator server: an accept handler, one reader thread per client, and the aggregator that
 pulls from the merged queue. A receive may return any part of what was sent; only 4-byte headers arrive whole.
 */
module SocketAggregator {
  import opened ExchangeDoc
  import opened Datasets
  import opened SocketFrames
  import opened Wrappers

  /** What a client will send, before its end signal. */
  type Plans = map<nat, seq<Frame>>

  ghost predicate ValidPlans(plans: Plans) { forall k :: k in plans ==> ValidFrames(plans[k]) }

  /** An entry of the merged queue: a dataset, or None for the end signal of this client. */
  datatype Entry = Entry(client: nat, frame: Option<Frame>)

  datatype Reader =
    | TestStop | Insert | Start                       // still in the accept handler
    | AtId
    | AtLength(id: nat)
    | AtPayload(id: nat, length: nat, buffer: Bytes)
    | Pushing(frame: Option<Frame>)
    | Stopped

  /** `onWire` are bytes sent and not received, `unsent` those the client has not sent yet. */
  datatype Conn = Conn(reader: Reader, onWire: Bytes, unsent: Bytes)

  /** `joined` are the clients inserted by the time the socket map was found empty. */
  datatype Aggregator =
    | Pulling
    | Erasing(client: nat)                            // has popped the end signal of this client
    | HandlingEnd
    | Stopping(joined: set<nat>)                      // has found the socket map empty
    | Exited(joined: set<nat>)

  /**
   `sockets` are the keys of the socket map and `joined` those that were ever inserted; `pulled` is what
   the aggregator took from the queue.
   */
  datatype State = State(conns: map<nat, Conn>, sockets: set<nat>, joined: set<nat>, stop: bool,
                         queue: seq<Entry>, aggregator: Aggregator, pulled: seq<Entry>)

  ghost const Init := State(map[], {}, {}, false, [], Pulling, [])

  datatype Step =
    | Accept(k: nat) | HandlerTestsStop(k: nat) | HandlerInserts(k: nat) | HandlerStartsThread(k: nat)
    | ClientSends(k: nat, n: nat)
    | ReadId(k: nat) | ReadLength(k: nat) | ReadPayload(k: nat, n: nat) | PayloadDone(k: nat) | PushEntry(k: nat)
    | Pull | EraseSocket | TestEmpty | StopRegistration

  ghost predicate Enabled(plans: Plans, s: State, e: Step) {
    match e
    case Accept(k) => ValidPlans(plans) && k in plans && k !in s.conns
    case HandlerTestsStop(k) => k in s.conns && s.conns[k].reader.TestStop?
    case HandlerInserts(k) => k in s.conns && s.conns[k].reader.Insert?
    case HandlerStartsThread(k) => k in s.conns && s.conns[k].reader.Start?
    case ClientSends(k, n) => k in s.conns && n <= |s.conns[k].unsent|
    case ReadId(k) => k in s.conns && s.conns[k].reader.AtId? && |s.conns[k].onWire| >= 4
    case ReadLength(k) => k in s.conns && s.conns[k].reader.AtLength? && |s.conns[k].onWire| >= 4
    case ReadPayload(k, n) =>
      && k in s.conns && s.conns[k].reader.AtPayload? && 0 < n <= |s.conns[k].onWire|
      && |s.conns[k].reader.buffer| + n <= s.conns[k].reader.length
    case PayloadDone(k) =>
      k in s.conns && s.conns[k].reader.AtPayload? && |s.conns[k].reader.buffer| == s.conns[k].reader.length
    case PushEntry(k) => k in s.conns && s.conns[k].reader.Pushing?
    case Pull => s.aggregator.Pulling? && s.queue != []
    case EraseSocket => s.aggregator.Erasing?
    case TestEmpty => s.aggregator.HandlingEnd?
    case StopRegistration => s.aggregator.Stopping?
  }

  ghost function Update(s: State, k: nat, c: Conn): State { s.(conns := s.conns[k := c]) }

  ghost function ReaderStep(s: State, k: nat, reader: Reader, taken: nat): State
    requires k in s.conns && taken <= |s.conns[k].onWire|
  {
    Update(s, k, s.conns[k].(reader := reader, onWire := s.conns[k].onWire[taken..]))
  }

  ghost function Apply(plans: Plans, s: State, e: Step): State
    requires Enabled(plans, s, e)
  {
    match e
    case Accept(k) => Update(s, k, Conn(TestStop, [], Stream(plans[k])))
    case HandlerTestsStop(k) => ReaderStep(s, k, if s.stop then Start else Reader.Insert, 0)
    case HandlerInserts(k) => ReaderStep(s, k, Start, 0).(sockets := s.sockets + {k}, joined := s.joined + {k})
    case HandlerStartsThread(k) => ReaderStep(s, k, AtId, 0)
    case ClientSends(k, n) =>
      var c := s.conns[k];
      Update(s, k, c.(onWire := c.onWire + c.unsent[..n], unsent := c.unsent[n..]))
    case ReadId(k) =>
      var id := ReadWord(s.conns[k].onWire[..4]);
      ReaderStep(s, k, if id == END then Pushing(None) else AtLength(id), 4)
    case ReadLength(k) =>
      ReaderStep(s, k, AtPayload(s.conns[k].reader.id, ReadWord(s.conns[k].onWire[..4]), []), 4)
    case ReadPayload(k, n) =>
      var c := s.conns[k];
      ReaderStep(s, k, c.reader.(buffer := c.reader.buffer + c.onWire[..n]), n)
    case PayloadDone(k) =>
      ReaderStep(s, k, Pushing(Some(Frame(s.conns[k].reader.id, s.conns[k].reader.buffer))), 0)
    case PushEntry(k) =>
      var frame := s.conns[k].reader.frame;
      ReaderStep(s, k, if frame.None? then Stopped else AtId, 0).(queue := s.queue + [Entry(k, frame)])
    case Pull =>
      var x := s.queue[0];
      var t := s.(queue := s.queue[1..], pulled := s.pulled + [x]);
      if x.frame.None? then t.(aggregator := Erasing(x.client)) else t
    case EraseSocket => s.(sockets := s.sockets - {s.aggregator.client}, aggregator := HandlingEnd)
    case TestEmpty => s.(aggregator := if s.sockets == {} then Stopping(s.joined) else Pulling)
    case StopRegistration => s.(stop := true, aggregator := Exited(s.aggregator.joined))
  }

  ghost function Exec(plans: Plans, run: seq<Step>): Option<State> {
    if run == [] then Some(Init) else
      var before := Exec(plans, run[..|run| - 1]);
      var e := run[|run| - 1];
      if before.Some? && Enabled(plans, before.value, e) then Some(Apply(plans, before.value, e)) else None
  }

  // ---------- one client's part of the merged queue ----------

  /** The entries of client `k`, in order. */
  ghost function From(es: seq<Entry>, k: nat): seq<Option<Frame>> {
    if es == [] then [] else
      From(es[..|es| - 1], k) + if es[|es| - 1].client == k then [es[|es| - 1].frame] else []
  }

  ghost function FramesFrom(es: seq<Entry>, k: nat): seq<Frame> {
    if es == [] then [] else
      FramesFrom(es[..|es| - 1], k) +
      if es[|es| - 1].client == k && es[|es| - 1].frame.Some? then [es[|es| - 1].frame.value] else []
  }

  lemma {:induction false} FromConcat(a: seq<Entry>, b: seq<Entry>, k: nat)
    ensures From(a + b, k) == From(a, k) + From(b, k)
  {
    if b == [] {
      assert a + b == a;
    } else {
      assert (a + b)[..|a + b| - 1] == a + b[..|b| - 1];
      FromConcat(a, b[..|b| - 1], k);
    }
  }

  /** The first `n` things a client's reader pushes: its frames, then None. */
  ghost function Pushed(plan: seq<Frame>, n: nat): seq<Option<Frame>>
    requires n <= |plan| + 1
  {
    seq(n, i requires 0 <= i < n => if i < |plan| then Some(plan[i]) else None)
  }

  /** What is still to be received after `n` whole frames, and how far into the next one the reader is. */
  ghost predicate ReaderAt(plan: seq<Frame>, n: nat, c: Conn)
    requires ValidFrames(plan)
  {
    var left := c.onWire + c.unsent;
    match c.reader
    case TestStop => n == 0 && left == Stream(plan)
    case Insert => n == 0 && left == Stream(plan)
    case Start => n == 0 && left == Stream(plan)
    case AtId => n <= |plan| && left == Stream(plan[n..])
    case AtLength(id) =>
      n < |plan| && ValidFrame(plan[n]) && id == plan[n].id
      && left == Word(|plan[n].payload|) + (plan[n].payload + Stream(plan[n + 1..]))
    case AtPayload(id, length, buffer) =>
      && n < |plan| && id == plan[n].id && length == |plan[n].payload|
      && buffer + left == plan[n].payload + Stream(plan[n + 1..]) && |buffer| <= length
    case Pushing(frame) =>
      if n < |plan| then frame == Some(plan[n]) && left == Stream(plan[n + 1..])
      else n == |plan| && frame.None? && left == []
    case Stopped => n == |plan| + 1 && left == []
  }

  ghost predicate InOrder(plan: seq<Frame>, merged: seq<Option<Frame>>, c: Conn)
    requires ValidFrames(plan)
  {
    |merged| <= |plan| + 1 && merged == Pushed(plan, |merged|) && ReaderAt(plan, |merged|, c)
  }

  ghost predicate Merged(plans: Plans, s: State)
    requires ValidPlans(plans)
  {
    forall k :: k in plans ==>
      if k in s.conns then InOrder(plans[k], From(s.pulled + s.queue, k), s.conns[k])
      else From(s.pulled + s.queue, k) == []
  }

  lemma HeaderRead(plan: seq<Frame>, n: nat, c: Conn)
    requires ValidFrames(plan) && ReaderAt(plan, n, c) && (c.reader.AtId? || c.reader.AtLength?) && |c.onWire| >= 4
    ensures c.reader.AtId? ==>
      var id := ReadWord(c.onWire[..4]);
      ReaderAt(plan, n, Conn(if id == END then Pushing(None) else AtLength(id), c.onWire[4..], c.unsent))
    ensures c.reader.AtLength? ==>
      ReaderAt(plan, n, Conn(AtPayload(c.reader.id, ReadWord(c.onWire[..4]), []), c.onWire[4..], c.unsent))
  {
    var left := c.onWire + c.unsent;
    assert left[..4] == c.onWire[..4] && left[4..] == c.onWire[4..] + c.unsent;
    if c.reader.AtId? {
      StreamHead(plan[n..]);
      if n < |plan| { assert plan[n] in plan && plan[n..][0] == plan[n] && plan[n..][1..] == plan[n + 1..]; }
    } else {
      ReadWordOfWord(|plan[n].payload|);
    }
  }

  lemma FragmentRead(plan: seq<Frame>, n: nat, c: Conn, m: nat)
    requires ValidFrames(plan) && ReaderAt(plan, n, c) && c.reader.AtPayload?
    requires m <= |c.onWire| && |c.reader.buffer| + m <= c.reader.length
    ensures ReaderAt(plan, n, Conn(c.reader.(buffer := c.reader.buffer + c.onWire[..m]), c.onWire[m..], c.unsent))
  {
    assert c.onWire == c.onWire[..m] + c.onWire[m..];
    assert c.reader.buffer + c.onWire[..m] + (c.onWire[m..] + c.unsent) == c.reader.buffer + (c.onWire + c.unsent);
  }

  lemma PayloadRead(plan: seq<Frame>, n: nat, c: Conn)
    requires ValidFrames(plan) && ReaderAt(plan, n, c) && c.reader.AtPayload?
    requires |c.reader.buffer| == c.reader.length
    ensures ReaderAt(plan, n, c.(reader := Pushing(Some(Frame(c.reader.id, c.reader.buffer)))))
  {
    var all := c.reader.buffer + (c.onWire + c.unsent);
    assert all[..c.reader.length] == c.reader.buffer && all[..c.reader.length] == plan[n].payload;
    assert all[c.reader.length..] == c.onWire + c.unsent && all[c.reader.length..] == Stream(plan[n + 1..]);
  }

  lemma EntryPushed(plan: seq<Frame>, merged: seq<Option<Frame>>, c: Conn)
    requires ValidFrames(plan) && InOrder(plan, merged, c) && c.reader.Pushing?
    ensures InOrder(plan, merged + [c.reader.frame], c.(reader := if c.reader.frame.None? then Stopped else AtId))
  {
  }

  /** The next state of the only connection a reader step touches. */
  lemma ReaderKeepsOrder(plans: Plans, s: State, e: Step, k: nat)
    requires ValidPlans(plans) && k in plans && k in s.conns && Enabled(plans, s, e)
    requires InOrder(plans[k], From(s.pulled + s.queue, k), s.conns[k])
    requires e == HandlerTestsStop(k) || e == HandlerInserts(k) || e == HandlerStartsThread(k) || e == ReadId(k)
             || e == ReadLength(k) || e == PayloadDone(k)
             || (e.ReadPayload? && e.k == k) || (e.ClientSends? && e.k == k)
    ensures InOrder(plans[k], From(s.pulled + s.queue, k), Apply(plans, s, e).conns[k])
  {
    var c, n := s.conns[k], |From(s.pulled + s.queue, k)|;
    match e {
      case ReadId(_) | ReadLength(_) => HeaderRead(plans[k], n, c);
      case ReadPayload(_, m) => FragmentRead(plans[k], n, c, m);
      case PayloadDone(_) => PayloadRead(plans[k], n, c);
      case ClientSends(_, m) =>
        assert c.onWire + c.unsent[..m] + c.unsent[m..] == c.onWire + c.unsent;
      case _ =>
    }
  }

  lemma FromAppend(s: State, x: Entry, k: nat)
    ensures From(s.pulled + (s.queue + [x]), k) == From(s.pulled + s.queue, k) + if x.client == k then [x.frame] else []
  {
    var es := s.pulled + (s.queue + [x]);
    assert es[..|es| - 1] == s.pulled + s.queue;
  }

  lemma OneConnMerged(plans: Plans, s: State, t: State, k: nat)
    requires ValidPlans(plans) && Merged(plans, s) && k in plans && k in t.conns
    requires t.pulled == s.pulled && t.queue == s.queue && t.conns == s.conns[k := t.conns[k]]
    requires InOrder(plans[k], From(s.pulled + s.queue, k), t.conns[k])
    ensures Merged(plans, t)
  {
    hide InOrder, From;
  }

  lemma AcceptMerged(plans: Plans, s: State, k: nat)
    requires ValidPlans(plans) && Merged(plans, s) && Enabled(plans, s, Accept(k))
    ensures Merged(plans, Apply(plans, s, Accept(k)))
  {
    OneConnMerged(plans, s, Apply(plans, s, Accept(k)), k);
  }

  lemma PushMerged(plans: Plans, s: State, k: nat)
    requires ValidPlans(plans) && Merged(plans, s) && Enabled(plans, s, PushEntry(k)) && k in plans
    ensures Merged(plans, Apply(plans, s, PushEntry(k)))
  {
    hide InOrder, From;
    var t, x := Apply(plans, s, PushEntry(k)), Entry(k, s.conns[k].reader.frame);
    EntryPushed(plans[k], From(s.pulled + s.queue, k), s.conns[k]);
    assert s.conns[k].onWire[0..] == s.conns[k].onWire;
    forall j ensures From(t.pulled + t.queue, j) == From(s.pulled + s.queue, j) + if k == j then [x.frame] else [] {
      FromAppend(s, x, j);
    }
    forall j ensures From(s.pulled + s.queue, j) + [] == From(s.pulled + s.queue, j) {}
  }

  lemma StepMerged(plans: Plans, s: State, e: Step)
    requires ValidPlans(plans) && Merged(plans, s) && Enabled(plans, s, e) && s.conns.Keys <= plans.Keys
    ensures Merged(plans, Apply(plans, s, e))
  {
    hide InOrder, From;
    match e {
      case Accept(k) => AcceptMerged(plans, s, k);
      case Pull => assert s.pulled + [s.queue[0]] + s.queue[1..] == s.pulled + s.queue;
      case EraseSocket | TestEmpty | StopRegistration =>
      case PushEntry(k) => PushMerged(plans, s, k);
      case _ =>
        ReaderKeepsOrder(plans, s, e, e.k);
        OneConnMerged(plans, s, Apply(plans, s, e), e.k);
    }
  }

  // ---------- the socket map and the exit ----------

  predicate InHandler(r: Reader) { r.TestStop? || r.Insert? }

  ghost predicate Joining(plans: Plans, s: State) {
    && s.conns.Keys <= plans.Keys
    && s.sockets <= s.joined && s.joined <= s.conns.Keys
    && (forall k :: k in s.joined ==> !InHandler(s.conns[k].reader))
    && (forall k :: k in s.conns && k !in s.joined && !s.stop ==> InHandler(s.conns[k].reader))
    && (s.stop <==> s.aggregator.Exited?)
    && (forall k :: k in s.joined && None !in From(s.pulled, k) ==> k in s.sockets)
    && (s.aggregator.Erasing? ==> None in From(s.pulled, s.aggregator.client))
    && (s.aggregator.Stopping? || s.aggregator.Exited? ==> forall k :: k in plans ==>
          From(s.pulled, k) == if k in s.aggregator.joined then Pushed(plans[k], |plans[k]| + 1) else [])
  }

  /** Nothing follows a client's end signal, so once it is pulled all of the client's entries are. */
  lemma EndIsLast(plan: seq<Frame>, a: seq<Option<Frame>>, b: seq<Option<Frame>>)
    requires |a + b| <= |plan| + 1 && a + b == Pushed(plan, |a + b|) && None in a
    ensures a == Pushed(plan, |plan| + 1) && b == []
  {
    var i :| 0 <= i < |a| && a[i] == None;
    assert (a + b)[i] == None;
  }

  /** What the aggregator has pulled when it finds the socket map empty. */
  lemma PulledAtExit(plans: Plans, s: State, k: nat)
    requires ValidPlans(plans) && Merged(plans, s) && Joining(plans, s) && k in plans
    requires s.aggregator.HandlingEnd? && s.sockets == {}
    ensures From(s.pulled, k) == if k in s.joined then Pushed(plans[k], |plans[k]| + 1) else []
  {
    FromConcat(s.pulled, s.queue, k);
    if k in s.joined {
      assert InOrder(plans[k], From(s.pulled + s.queue, k), s.conns[k]);
      EndIsLast(plans[k], From(s.pulled, k), From(s.queue, k));
    } else if k in s.conns {
      assert InOrder(plans[k], From(s.pulled + s.queue, k), s.conns[k]);
    }
  }

  lemma PullKeepsJoining(plans: Plans, s: State)
    requires ValidPlans(plans) && Merged(plans, s) && Joining(plans, s) && Enabled(plans, s, Pull)
    ensures Joining(plans, Apply(plans, s, Pull))
  {
    hide Merged;
    var t, x := Apply(plans, s, Pull), s.queue[0];
    forall k ensures From(t.pulled, k) == From(s.pulled, k) + if x.client == k then [x.frame] else [] {
      assert t.pulled[..|t.pulled| - 1] == s.pulled;
    }
  }

  lemma TestKeepsJoining(plans: Plans, s: State)
    requires ValidPlans(plans) && Merged(plans, s) && Joining(plans, s) && Enabled(plans, s, TestEmpty)
    ensures Joining(plans, Apply(plans, s, TestEmpty))
  {
    if s.sockets == {} {
      forall k | k in plans
        ensures From(s.pulled, k) == if k in s.joined then Pushed(plans[k], |plans[k]| + 1) else []
      {
        PulledAtExit(plans, s, k);
      }
    }
  }

  lemma InsertKeepsJoining(plans: Plans, s: State, k: nat)
    requires ValidPlans(plans) && Merged(plans, s) && Joining(plans, s) && Enabled(plans, s, HandlerInserts(k))
    ensures Joining(plans, Apply(plans, s, HandlerInserts(k)))
  {
    hide From;
    assert InOrder(plans[k], From(s.pulled + s.queue, k), s.conns[k]);
    FromConcat(s.pulled, s.queue, k);
  }

  lemma ReaderKeepsJoining(plans: Plans, s: State, e: Step)
    requires Joining(plans, s) && Enabled(plans, s, e) && !e.Pull? && !e.TestEmpty? && !e.HandlerInserts?
    ensures Joining(plans, Apply(plans, s, e))
  {
    hide From, Pushed;
  }

  lemma StepJoining(plans: Plans, s: State, e: Step)
    requires ValidPlans(plans) && Merged(plans, s) && Joining(plans, s) && Enabled(plans, s, e)
    ensures Joining(plans, Apply(plans, s, e))
  {
    match e {
      case Pull => PullKeepsJoining(plans, s);
      case TestEmpty => TestKeepsJoining(plans, s);
      case HandlerInserts(k) => InsertKeepsJoining(plans, s, k);
      case _ => ReaderKeepsJoining(plans, s, e);
    }
  }

  lemma {:induction false} RunInv(plans: Plans, run: seq<Step>)
    requires ValidPlans(plans) && Exec(plans, run).Some?
    ensures Merged(plans, Exec(plans, run).value) && Joining(plans, Exec(plans, run).value)
  {
    if run != [] {
      RunInv(plans, run[..|run| - 1]);
      StepMerged(plans, Exec(plans, run[..|run| - 1]).value, run[|run| - 1]);
      StepJoining(plans, Exec(plans, run[..|run| - 1]).value, run[|run| - 1]);
    }
  }

  // ---------- main results ----------

  /** The merged queue, restricted to one client, is a prefix of its frames followed by its end signal. */
  lemma MergedQueueKeepsEachClient(plans: Plans, run: seq<Step>, k: nat)
    requires ValidPlans(plans) && Exec(plans, run).Some? && k in plans
    ensures var s := Exec(plans, run).value; From(s.pulled + s.queue, k) <= Pushed(plans[k], |plans[k]| + 1)
  {
    RunInv(plans, run);
  }

  /** Only connected clients have entries in the merged queue. */
  ghost predicate FromClients(plans: Plans, s: State) {
    && s.conns.Keys <= plans.Keys
    && (forall x :: x in s.pulled ==> x.client in s.conns) && (forall x :: x in s.queue ==> x.client in s.conns)
  }

  lemma StepFromClients(plans: Plans, s: State, e: Step)
    requires FromClients(plans, s) && Enabled(plans, s, e)
    ensures FromClients(plans, Apply(plans, s, e))
  {
    if e == Pull { assert s.queue[0] in s.queue; }
  }

  lemma {:induction false} RunFromClients(plans: Plans, run: seq<Step>)
    requires Exec(plans, run).Some?
    ensures FromClients(plans, Exec(plans, run).value)
  {
    hide Apply, Enabled;
    if run != [] {
      RunFromClients(plans, run[..|run| - 1]);
      StepFromClients(plans, Exec(plans, run[..|run| - 1]).value, run[|run| - 1]);
    }
  }

  lemma EntriesHaveClients(plans: Plans, run: seq<Step>, i: nat)
    requires Exec(plans, run).Some? && i < |Exec(plans, run).value.pulled|
    ensures Exec(plans, run).value.pulled[i].client in plans
  {
    RunFromClients(plans, run);
    assert Exec(plans, run).value.pulled[i] in Exec(plans, run).value.pulled;
  }

  lemma {:induction false} FramesOfAll(plan: seq<Frame>, es: seq<Entry>, k: nat, n: nat)
    requires n <= |plan| + 1 && From(es, k) == Pushed(plan, n)
    ensures FramesFrom(es, k) == plan[..if n < |plan| then n else |plan|]
    decreases |es|
  {
    if es != [] {
      var init, last := es[..|es| - 1], es[|es| - 1];
      if last.client == k {
        assert n > 0 && From(init, k) == From(es, k)[..n - 1] == Pushed(plan, n - 1);
        assert last.frame == Pushed(plan, n)[n - 1];
        FramesOfAll(plan, init, k, n - 1);
      } else {
        FramesOfAll(plan, init, k, n);
      }
    }
  }

  /** What the aggregator holds when it has left: all frames of the clients that had joined, none of the others. */
  lemma PulledAfterExit(plans: Plans, run: seq<Step>, k: nat)
    requires ValidPlans(plans) && Exec(plans, run).Some? && k in plans
    requires Exec(plans, run).value.aggregator.Exited?
    ensures var s := Exec(plans, run).value;
      FramesFrom(s.pulled, k) == if k in s.aggregator.joined then plans[k] else []
  {
    RunInv(plans, run);
    var s := Exec(plans, run).value;
    FramesOfAll(plans[k], s.pulled, k, if k in s.aggregator.joined then |plans[k]| + 1 else 0);
  }

  /** Every dataset is aggregated exactly when every client that has one joined before the map got empty. */
  lemma CompleteIffAllJoined(plans: Plans, run: seq<Step>)
    requires ValidPlans(plans) && Exec(plans, run).Some? && Exec(plans, run).value.aggregator.Exited?
    ensures var s := Exec(plans, run).value;
      (forall k :: k in plans ==> FramesFrom(s.pulled, k) == plans[k]) <==>
      (forall k :: k in plans && plans[k] != [] ==> k in s.aggregator.joined)
  {
    forall k | k in plans
      ensures var s := Exec(plans, run).value;
        FramesFrom(s.pulled, k) == if k in s.aggregator.joined then plans[k] else []
    {
      PulledAfterExit(plans, run, k);
    }
  }

  // ---------- a run that loses a dataset ----------

  lemma Next(plans: Plans, run: seq<Step>, s: State, e: Step, t: State) returns (longer: seq<Step>)
    requires Exec(plans, run) == Some(s) && Enabled(plans, s, e) && t == Apply(plans, s, e)
    ensures Exec(plans, longer) == Some(t)
  {
    longer := run + [e];
    assert longer[..|longer| - 1] == run;
  }

  ghost const Solo: Plans := map[1 := [], 2 := [Frame(0, [7])]]

  /** Client 1 with this reader, `wire` received and `unsent` to come, and nothing else. */
  ghost function OnlyFirst(r: Reader, wire: Bytes, unsent: Bytes, joined: set<nat>): State {
    State(map[1 := Conn(r, wire, unsent)], joined, joined, false, [], Pulling, [])
  }

  lemma FirstJoins() returns (run: seq<Step>)
    ensures Exec(Solo, run) == Some(OnlyFirst(AtId, [], Word(END), {1}))
  {
    var w := Word(END);
    run := Next(Solo, [], Init, Accept(1), OnlyFirst(TestStop, [], w, {}));
    run := Next(Solo, run, OnlyFirst(TestStop, [], w, {}), HandlerTestsStop(1), OnlyFirst(Reader.Insert, [], w, {}));
    run := Next(Solo, run, OnlyFirst(Reader.Insert, [], w, {}), HandlerInserts(1), OnlyFirst(Start, [], w, {1}));
    run := Next(Solo, run, OnlyFirst(Start, [], w, {1}), HandlerStartsThread(1), OnlyFirst(AtId, [], w, {1}));
  }

  lemma FirstEnds() returns (run: seq<Step>)
    ensures Exec(Solo, run) == Some(OnlyFirst(Pushing(None), [], [], {1}))
  {
    var w := Word(END);
    ReadWordOfWord(END);
    run := FirstJoins();
    assert w[..4] == w && [] + w == w && w[4..] == [];
    run := Next(Solo, run, OnlyFirst(AtId, [], w, {1}), ClientSends(1, 4), OnlyFirst(AtId, w, [], {1}));
    run := Next(Solo, run, OnlyFirst(AtId, w, [], {1}), ReadId(1), OnlyFirst(Pushing(None), [], [], {1}));
  }

  lemma FirstIsPulled() returns (run: seq<Step>, s: State)
    ensures Exec(Solo, run) == Some(s)
    ensures s == OnlyFirst(Stopped, [], [], {1}).(pulled := [Entry(1, None)], aggregator := Erasing(1))
  {
    run := FirstEnds();
    var (before, x) := (OnlyFirst(Pushing(None), [], [], {1}), Entry(1, None));
    var pushed := OnlyFirst(Stopped, [], [], {1}).(queue := [x]);
    run := Next(Solo, run, before, PushEntry(1), pushed);
    assert [x][1..] == [] && [] + [x] == [x];
    s := pushed.(queue := [], pulled := [x], aggregator := Erasing(1));
    run := Next(Solo, run, pushed, Pull, s);
  }

  /**
   It can go wrong: client 1 has nothing to send and is served alone, and the aggregator leaves before
   client 2, which has a dataset, connects.
   */
  lemma LateClientIsLost() returns (run: seq<Step>)
    ensures ValidPlans(Solo) && Exec(Solo, run).Some? && Exec(Solo, run).value.aggregator.Exited?
    ensures 2 in Solo && Solo[2] != [] && FramesFrom(Exec(Solo, run).value.pulled, 2) == []
  {
    var s;
    run, s := FirstIsPulled();
    var s1 := s.(sockets := {}, aggregator := HandlingEnd);
    var s2 := s1.(aggregator := Stopping({1}));
    run := Next(Solo, run, s, EraseSocket, s1);
    run := Next(Solo, run, s1, TestEmpty, s2);
    run := Next(Solo, run, s2, StopRegistration, s2.(stop := true, aggregator := Exited({1})));
    PulledAfterExit(Solo, run, 2);
  }
}
