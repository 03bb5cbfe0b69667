/** The socket supplier always finishes, and a client that comes too late is sent away. */
module SocketSupplierLiveness {
  import opened ExchangeDoc
  import opened Datasets
  import opened SocketSupplier
  import opened Wrappers

  // ---------- work left ----------

  /** The clients whose handler is at this stage. */
  ghost function At(s: State, stage: Stage): set<nat> { set k | k in s.conns && s.conns[k].stage == stage }

  /** What the handlers still do: the last stages count little, and an insertion pays for its end signal. */
  ghost function HandlerWork(s: State): nat {
    7 * |At(s, TestStop)| + 6 * |At(s, Stage.Insert)| + 2 * |At(s, TestCallback)| + |At(s, CallBack)|
  }

  /** How many keys are beyond `from`. */
  function Beyond(keys: seq<nat>, from: nat): nat {
    if keys == [] then 0 else (if from < keys[0] then 1 else 0) + Beyond(keys[1..], from)
  }

  ghost function MainWork(data: seq<Bytes>, s: State): int {
    match s.main
    case Supplying(n) => 4 * (|data| - n) + 2 * |s.sockets| + 4
    case SendHead(n, _) => 4 * (|data| - n) + 2 * |s.sockets| + 3
    case SendLength(n, _) => 4 * (|data| - n) + 2 * |s.sockets| + 2
    case SendBody(n, _) => 4 * (|data| - n) + 2 * |s.sockets| + 1
    case Stopping => 2 * |s.sockets| + 3
    case Advancing(from) => 2 * Beyond(s.sockets, from) + 1
    case AtEntry(k) => 2 * Beyond(s.sockets, k) + 2
    case Finished => 0
  }

  ghost function Work(data: seq<Bytes>, s: State): int { HandlerWork(s) + MainWork(data, s) }

  lemma {:induction false} BeyondNext(keys: seq<nat>, from: nat)
    requires Ascending(keys) && After(keys, from).Some?
    ensures Beyond(keys, from) == Beyond(keys, After(keys, from).value) + 1
  {
    if from < keys[0] {
      BeyondAll(keys[1..], from);
      BeyondAll(keys[1..], keys[0]);
    } else {
      AfterIsFirst(keys[1..], from);
      BeyondNext(keys[1..], from);
    }
  }

  lemma {:induction false} BeyondAll(keys: seq<nat>, from: nat)
    requires forall i :: 0 <= i < |keys| ==> from < keys[i]
    ensures Beyond(keys, from) == |keys|
  {
    if keys != [] { BeyondAll(keys[1..], from); }
  }

  lemma {:induction false} BeyondInsert(keys: seq<nat>, k: nat, from: nat)
    requires Ascending(keys)
    ensures Beyond(ExchangeDoc.Insert(keys, k), from) <= Beyond(keys, from) + 1
    ensures |ExchangeDoc.Insert(keys, k)| <= |keys| + 1
  {
    if keys == [] || k < keys[0] {
      assert ([k] + keys)[1..] == keys;
    } else if k > keys[0] {
      BeyondInsert(keys[1..], k, from);
      var t := ExchangeDoc.Insert(keys[1..], k);
      assert ([keys[0]] + t)[1..] == t;
    }
  }

  lemma {:induction false} BeyondAtMost(keys: seq<nat>, from: nat)
    ensures Beyond(keys, from) <= |keys|
  {
    if keys != [] { BeyondAtMost(keys[1..], from); }
  }

  /** The datasets are counted up to their number and no further. */
  ghost predicate Counted(data: seq<Bytes>, m: Main) {
    && (m.Supplying? ==> m.next <= |data|)
    && (m.SendHead? || m.SendLength? || m.SendBody? ==> m.next < |data|)
  }

  // ---------- every step but a new connection uses work up ----------

  /** One handler goes on from one stage to another. */
  lemma StageMoves(s: State, t: State, k: nat, stage: Stage)
    requires k in s.conns && t.conns.Keys == s.conns.Keys && t.conns[k].stage == stage != s.conns[k].stage
    requires forall j :: j in s.conns && j != k ==> t.conns[j].stage == s.conns[j].stage
    ensures |At(t, stage)| == |At(s, stage)| + 1 && |At(t, s.conns[k].stage)| == |At(s, s.conns[k].stage)| - 1
    ensures forall other :: other != stage && other != s.conns[k].stage ==> At(t, other) == At(s, other)
  {
    assert At(t, stage) == At(s, stage) + {k};
    assert At(s, s.conns[k].stage) == At(t, s.conns[k].stage) + {k};
  }

  lemma StagesStay(s: State, t: State)
    requires t.conns.Keys == s.conns.Keys && forall j :: j in s.conns ==> t.conns[j].stage == s.conns[j].stage
    ensures HandlerWork(t) == HandlerWork(s)
  {
    forall stage ensures At(t, stage) == At(s, stage) {}
  }

  lemma HandlerUsesWork(data: seq<Bytes>, s: State, e: Step)
    requires Race(s) && Enabled(data, s, e)
    requires e.HandlerTestsStop? || e.HandlerInserts? || e.HandlerTestsCallback? || e.HandlerCalls?
    ensures Work(data, Apply(data, s, e)) < Work(data, s)
  {
    hide Race, Beyond;
    var t, k := Apply(data, s, e), e.client;
    StageMoves(s, t, k, t.conns[k].stage);
    if e.HandlerInserts? { InsertCostsTwo(data, s, k); }
  }

  lemma InsertCostsTwo(data: seq<Bytes>, s: State, k: nat)
    requires Race(s) && Enabled(data, s, HandlerInserts(k))
    ensures MainWork(data, Apply(data, s, HandlerInserts(k))) <= MainWork(data, s) + 2
  {
    AscendingUnique(SetOf(s.sockets), s.sockets);
    BeyondInsert(s.sockets, k, if s.main.Advancing? then s.main.from else if s.main.AtEntry? then s.main.client else 0);
  }

  lemma MainUsesWork(data: seq<Bytes>, s: State, e: Step)
    requires Race(s) && Counted(data, s.main) && Enabled(data, s, e)
    requires e.Choose? || e.MainSends? || e.SetCallback? || e.SetStop? || e.Advance? || e.SendEnd?
    ensures Work(data, Apply(data, s, e)) < Work(data, s)
  {
    hide HandlerWork, Beyond, After;
    var t := Apply(data, s, e);
    StagesStay(s, t);
    BeyondAtMost(s.sockets, 0);
    assert t.sockets == s.sockets;
    if e.Advance? && After(s.sockets, s.main.from).Some? { BeyondNext(s.sockets, s.main.from); }
  }

  lemma StepUsesWork(data: seq<Bytes>, s: State, e: Step)
    requires Race(s) && Counted(data, s.main) && Enabled(data, s, e) && !e.Accept?
    ensures Work(data, Apply(data, s, e)) < Work(data, s)
  {
    hide Race, Work, Apply, Enabled, Counted;
    match e
    case HandlerTestsStop(_) | HandlerInserts(_) | HandlerTestsCallback(_) | HandlerCalls(_) =>
      HandlerUsesWork(data, s, e);
    case _ => MainUsesWork(data, s, e);
  }

  lemma AcceptAddsSeven(data: seq<Bytes>, s: State, k: nat)
    requires Enabled(data, s, Accept(k))
    ensures Work(data, Apply(data, s, Accept(k))) == Work(data, s) + 7
  {
    var t := Apply(data, s, Accept(k));
    assert At(t, TestStop) == At(s, TestStop) + {k};
    forall stage | stage != TestStop ensures At(t, stage) == At(s, stage) {}
  }

  lemma WorkIsNat(data: seq<Bytes>, s: State)
    requires Counted(data, s.main)
    ensures Work(data, s) >= 0
  {
  }

  lemma {:induction false} RunCounted(data: seq<Bytes>, run: seq<Step>)
    requires Exec(data, run).Some?
    ensures Counted(data, Exec(data, run).value.main)
  {
    if run != [] { RunCounted(data, run[..|run| - 1]); }
  }

  function Accepts(run: seq<Step>): nat {
    if run == [] then 0 else Accepts(run[..|run| - 1]) + if run[|run| - 1].Accept? then 1 else 0
  }

  lemma {:induction false} WorkBounds(data: seq<Bytes>, run: seq<Step>)
    requires Exec(data, run).Some?
    ensures |run| + Work(data, Exec(data, run).value) <= 4 * |data| + 4 + 8 * Accepts(run)
  {
    hide Work, Apply, Race, Enabled, Counted;
    if run == [] {
      WorkAtFirst(data);
    } else {
      var (before, e) := (run[..|run| - 1], run[|run| - 1]);
      var s := Exec(data, before).value;
      WorkBounds(data, before);
      RunInv(data, before);
      RunCounted(data, before);
      if e.Accept? { AcceptAddsSeven(data, s, e.client); } else { StepUsesWork(data, s, e); }
    }
  }

  lemma WorkAtFirst(data: seq<Bytes>)
    ensures Work(data, Init) == 4 * |data| + 4
  {
    forall stage ensures At(Init, stage) == {} {}
  }

  /** A run is no longer than its datasets and its clients allow. */
  lemma RunsAreBounded(data: seq<Bytes>, run: seq<Step>)
    requires Exec(data, run).Some?
    ensures |run| <= 4 * |data| + 4 + 8 * Accepts(run)
  {
    hide Exec, Work;
    WorkBounds(data, run);
    RunCounted(data, run);
    WorkIsNat(data, Exec(data, run).value);
  }

  // ---------- the end is reached ----------

  predicate Over(s: State) { s.main.Finished? && forall k :: k in s.conns ==> s.conns[k].stage == Completed }

  /** A client is still to come: there are datasets, and nobody to send them to. */
  ghost predicate Lonely(data: seq<Bytes>, s: State) {
    && s.main.Supplying? && s.main.next < |data| && s.sockets == []
    && forall k :: k in s.conns ==> AtStage(s, k, Completed)
  }

  /** The step a handler that has not completed takes next. */
  function HandlerStep(s: State, k: nat): Step
    requires k in s.conns
  {
    match s.conns[k].stage
    case TestStop => HandlerTestsStop(k)
    case Insert => HandlerInserts(k)
    case TestCallback => HandlerTestsCallback(k)
    case _ => HandlerCalls(k)
  }

  function MainStep(data: seq<Bytes>, s: State): Step {
    match s.main
    case Supplying(n) => if n < |data| then Choose else SetCallback
    case SendHead(_, _) | SendLength(_, _) | SendBody(_, _) => MainSends
    case Stopping => SetStop
    case Advancing(_) => Advance
    case _ => SendEnd
  }

  /** Until it is over, some step can be taken; a new client is needed only when there is none at all. */
  lemma NeverStuck(data: seq<Bytes>, s: State) returns (e: Step)
    requires Race(s) && Counted(data, s.main) && !Over(s)
    ensures Enabled(data, s, e) && (e.Accept? ==> Lonely(data, s))
  {
    if k :| k in s.conns && s.conns[k].stage != Completed {
      e := HandlerStep(s, k);
    } else if Lonely(data, s) {
      e := Accept(KeyAbove(s.conns.Keys));
    } else {
      e := MainStep(data, s);
    }
  }

  /** A key that is not zero and beyond all these. */
  ghost function KeyAbove(keys: set<nat>): (n: nat)
    ensures n > 0 && forall k :: k in keys ==> k < n
  {
    if keys == {} then 1 else
      var k :| k in keys;
      var n := KeyAbove(keys - {k});
      assert forall j :: j in keys <==> j == k || j in keys - {k};
      if k < n then n else k + 1
  }

  /** Accepting the first client is paid for in advance. */
  ghost function Left(data: seq<Bytes>, s: State): int {
    Work(data, s) + if Before(s.main) && s.sockets == [] && HandlerWork(s) == 0 then 8 else 0
  }

  lemma IdleMeansCompleted(s: State)
    ensures HandlerWork(s) == 0 <==> forall k :: k in s.conns ==> s.conns[k].stage == Completed
  {
    if HandlerWork(s) == 0 {
      forall k | k in s.conns ensures s.conns[k].stage == Completed {
        assert k in At(s, s.conns[k].stage);
      }
    } else if forall k :: k in s.conns ==> s.conns[k].stage == Completed {
      forall stage | stage != Completed ensures At(s, stage) == {} {}
    }
  }

  /** While datasets are being sent, a client whose handler completes is in the map. */
  lemma StaysSociable(data: seq<Bytes>, s: State, e: Step)
    requires Race(s) && Enabled(data, s, e) && !e.Accept?
    requires !(Before(s.main) && s.sockets == [] && HandlerWork(s) == 0)
    ensures var t := Apply(data, s, e); !(Before(t.main) && t.sockets == [] && HandlerWork(t) == 0)
  {
    var t := Apply(data, s, e);
    IdleMeansCompleted(s);
    IdleMeansCompleted(t);
    if Before(s.main) && s.sockets == [] {
      var k :| k in s.conns && s.conns[k].stage != Completed;
      assert s.conns[k].stage == TestStop || s.conns[k].stage == Stage.Insert;
      assert t.sockets != [] || t.conns[k].stage != Completed;
    }
  }

  lemma StepUsesLeft(data: seq<Bytes>, s: State, e: Step)
    requires Race(s) && Counted(data, s.main) && Enabled(data, s, e) && (e.Accept? ==> Lonely(data, s))
    ensures Left(data, Apply(data, s, e)) < Left(data, s)
  {
    hide Work, HandlerWork, Race;
    IdleMeansCompleted(s);
    if e.Accept? {
      AcceptAddsSeven(data, s, e.client);
      IdleMeansCompleted(Apply(data, s, e));
      assert e.client in Apply(data, s, e).conns;
    } else {
      StepUsesWork(data, s, e);
      if !(Before(s.main) && s.sockets == [] && HandlerWork(s) == 0) { StaysSociable(data, s, e); }
    }
  }

  /**
   From every reachable state the run can be continued until the main thread has left its traversal and all handlers
   have completed: `PushEndSignal` always returns.
   */
  lemma {:induction false} FinishAlwaysReachable(data: seq<Bytes>, run: seq<Step>) returns (longer: seq<Step>)
    requires Exec(data, run).Some?
    ensures run <= longer && Exec(data, longer).Some? && Over(Exec(data, longer).value)
    decreases Left(data, Exec(data, run).value)
  {
    hide Race, Apply, Enabled, Left, Over, Counted;
    var s := Exec(data, run).value;
    RunInv(data, run);
    RunCounted(data, run);
    if Over(s) {
      longer := run;
    } else {
      var e := NeverStuck(data, s);
      assert (run + [e])[..|run|] == run;
      assert Exec(data, run + [e]) == Some(Apply(data, s, e));
      StepUsesLeft(data, s, e);
      RunCounted(data, run + [e]);
      LeftIsNat(data, Apply(data, s, e));
      longer := FinishAlwaysReachable(data, run + [e]);
    }
  }

  lemma LeftIsNat(data: seq<Bytes>, s: State)
    requires Counted(data, s.main)
    ensures Left(data, s) >= 0
  {
    WorkIsNat(data, s);
  }

  // ---------- clients that come too late ----------

  /** Client k gets nothing but an end signal. */
  ghost predicate SentAway(s: State, k: nat) {
    && s.stop && k !in s.sockets
    && (k in s.conns ==> s.conns[k].stage != Stage.Insert)
    && (k in s.conns ==> s.conns[k].wire == if s.conns[k].stage == Completed then [EndSignal] else [])
  }

  lemma StepSendsAway(data: seq<Bytes>, s: State, e: Step, k: nat)
    requires Race(s) && SentAway(s, k) && Enabled(data, s, e)
    ensures SentAway(Apply(data, s, e), k)
  {
    if e.HandlerInserts? { AscendingUnique(SetOf(s.sockets), s.sockets); }
  }

  /** After registration has been stopped, a new client is not served: all it ever gets is one end signal. */
  lemma {:induction false} LateClientIsSentAway(data: seq<Bytes>, run: seq<Step>, longer: seq<Step>, k: nat)
    requires Exec(data, run).Some? && Exec(data, run).value.stop && k !in Exec(data, run).value.conns
    requires run <= longer && Exec(data, longer).Some?
    ensures SentAway(Exec(data, longer).value, k)
    decreases |longer|
  {
    hide Apply, Enabled;
    RunInv(data, run);
    if longer == run {
      NotRegistered(Exec(data, run).value, k);
    } else {
      var before := longer[..|longer| - 1];
      assert run <= before;
      LateClientIsSentAway(data, run, before, k);
      RunInv(data, before);
      StepSendsAway(data, Exec(data, before).value, longer[|longer| - 1], k);
    }
  }

  lemma NotRegistered(s: State, k: nat)
    requires Race(s) && k !in s.conns
    ensures k !in s.sockets
  {
  }
}
