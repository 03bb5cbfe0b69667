/** What holds in every run of the push/pull server: the handshake, conservation, contents, and progress. */
module HandshakeRuns {
  import opened Datasets
  import opened Counting
  import opened Handshake

  // ---------- the handshake ----------

  ghost predicate AllSound(s: State) { forall w :: w in s.workers ==> Sound(w) }

  lemma FetchKeepsSound(w: Worker, job: Message)
    requires Sound(w) && w.push.Fetching?
    ensures job.Job? ==> Sound(w.(push := Loaded(job)))
    ensures Sound(w.(push := PushEnded, down := w.down + [End]))
  {
    IdsAppend(w.down, End);
    if End !in w.down { EndedByAppend(w.down); }
  }

  lemma StepKeepsSound(f: Bytes -> Bytes, blocks: seq<Bytes>, s: State, e: Step)
    requires AllSound(s) && Enabled(s, e)
    ensures AllSound(Apply(f, blocks, s, e))
  {
    hide Sound, Move;
    match e
    case Register => assert Sound(NEW_WORKER) by { NewWorkerSound(); }
    case Act(k, a) =>
      var w := s.workers[k];
      assert w in s.workers;
      if a == Fetch {
        FetchKeepsSound(w, if s.available == [] then End else Job(s.available[0], Block(blocks, s.available[0])));
      } else {
        MoveIsSound(f, w, a);
      }
  }

  lemma NewWorkerSound()
    ensures Sound(NEW_WORKER)
  {
  }

  lemma MoveIsSound(f: Bytes -> Bytes, w: Worker, a: Action)
    requires Sound(w) && CanAct(w, a) && a != Fetch
    ensures Sound(Move(f, w, a))
  {
    MoveKeepsMarker(f, w, a);
    MoveKeepsPaired(f, w, a);
  }

  lemma {:induction false} RunsAreSound(f: Bytes -> Bytes, blocks: seq<Bytes>, run: seq<Step>)
    requires Exec(f, blocks, run).Some?
    ensures AllSound(Exec(f, blocks, run).value)
  {
    hide AllSound, Apply, Enabled;
    if run == [] {
      assert AllSound(Init(blocks)) by { InitIsSound(blocks); }
    } else {
      RunsAreSound(f, blocks, run[..|run| - 1]);
      StepKeepsSound(f, blocks, Exec(f, blocks, run[..|run| - 1]).value, run[|run| - 1]);
    }
  }

  lemma InitIsSound(blocks: seq<Bytes>)
    ensures AllSound(Init(blocks))
  {
  }

  /** The dataset between send and receipt is on its way down, being computed, on its way up, or being received. */
  predicate Underway(w: Worker) {
    |Ids(w.down)| == 1 || w.client.Working? || |Ids(w.up)| == 1 || w.pull.Received? || w.pull.Holding?
  }

  lemma SoundMeans(f: Bytes -> Bytes, w: Worker)
    requires Sound(w)
    ensures Outstanding(w) <= 1 && (w.busy <==> Outstanding(w) == 1)
    ensures w.push.Sending? || w.pull.Received? || w.pull.Holding? ==> w.busy
    ensures !w.pull.PullBlocked? && !w.pull.PullWoken?
    ensures w.push.Blocked? ==> Outstanding(w) == 1 && Underway(w)
    ensures w.pull.Holding? ==> !Move(f, w, PullFinish).push.Blocked?
  {
    hide Ids, Marker;
  }

  /**
   In every reachable state each worker has at most one dataset between send and receipt, and the flag says whether
   it has one; the pull thread never waits; and while the push thread waits, the dataset whose receipt will wake it
   has left and is somewhere between the two threads.
   */
  lemma HandshakeHolds(f: Bytes -> Bytes, blocks: seq<Bytes>, run: seq<Step>, k: nat)
    requires Exec(f, blocks, run).Some? && k < |Exec(f, blocks, run).value.workers|
    ensures var w := Exec(f, blocks, run).value.workers[k];
      && Outstanding(w) <= 1
      && (w.busy <==> Outstanding(w) == 1)
      && (w.push.Sending? || w.pull.Received? || w.pull.Holding? ==> w.busy)
      && !w.pull.PullBlocked? && !w.pull.PullWoken?
      && (w.push.Blocked? ==> Outstanding(w) == 1 && Underway(w))
      && (w.pull.Holding? ==> !Move(f, w, PullFinish).push.Blocked?)
  {
    hide Exec, Sound, Outstanding, Underway, Move;
    RunsAreSound(f, blocks, run);
    var w := Exec(f, blocks, run).value.workers[k];
    assert w in Exec(f, blocks, run).value.workers && Sound(w);
    SoundMeans(f, w);
  }

  // ---------- conservation ----------

  ghost function HeldCount(ws: seq<Worker>, id: nat): nat {
    if ws == [] then 0 else Count(Held(ws[0]), id) + HeldCount(ws[1..], id)
  }

  ghost function HeldTotal(ws: seq<Worker>): nat {
    if ws == [] then 0 else |Held(ws[0])| + HeldTotal(ws[1..])
  }

  /** Where dataset `id` is, and how many datasets there are in all. */
  ghost function Places(s: State, id: nat): nat {
    Count(s.available, id) + HeldCount(s.workers, id) + Count(s.processed, id)
  }

  ghost function Total(s: State): nat { |s.available| + HeldTotal(s.workers) + |s.processed| }

  ghost predicate Conserved(n: nat, s: State) {
    Total(s) == n && forall id: nat :: Places(s, id) == if id < n then 1 else 0
  }

  lemma {:induction false} HeldUpdate(ws: seq<Worker>, k: nat, x: Worker, id: nat)
    requires k < |ws|
    ensures HeldCount(ws[k := x], id) + Count(Held(ws[k]), id) == HeldCount(ws, id) + Count(Held(x), id)
    ensures HeldTotal(ws[k := x]) + |Held(ws[k])| == HeldTotal(ws) + |Held(x)|
  {
    hide Held, Count;
    if k == 0 {
      assert ws[k := x][1..] == ws[1..];
    } else {
      HeldUpdate(ws[1..], k - 1, x, id);
      assert ws[k := x][1..] == ws[1..][k - 1 := x];
    }
  }

  lemma {:induction false} HeldAppend(ws: seq<Worker>, x: Worker, id: nat)
    ensures HeldCount(ws + [x], id) == HeldCount(ws, id) + Count(Held(x), id)
    ensures HeldTotal(ws + [x]) == HeldTotal(ws) + |Held(x)|
  {
    hide Held, Count;
    if ws == [] {
      assert ws + [x] == [x];
    } else {
      assert (ws + [x])[0] == ws[0] && (ws + [x])[1..] == ws[1..] + [x];
      HeldAppend(ws[1..], x, id);
    }
  }

  lemma {:induction false} TotalBoundsCount(ws: seq<Worker>, id: nat)
    ensures HeldCount(ws, id) <= HeldTotal(ws)
  {
    hide Held;
    if ws != [] { TotalBoundsCount(ws[1..], id); }
  }

  /** The worker after a step of its own, and what the step moves in or out of it. */
  lemma FetchKeepsHeld(w: Worker, job: Message)
    requires w.push.Fetching?
    ensures Held(w.(push := Loaded(job))) == Held(w) + IdOf(job)
    ensures Held(w.(push := PushEnded, down := w.down + [End])) == Held(w)
  {
    hide Ids;
    IdsAppend(w.down, End);
    AppendFive(PullIds(w.pull), Ids(w.up), ClientIds(w.client), Ids(w.down), IdOf(job));
  }

  lemma AppendFive(a: seq<nat>, b: seq<nat>, c: seq<nat>, d: seq<nat>, x: seq<nat>)
    ensures (a + (b + (c + (d + [])))) + x == a + (b + (c + (d + x))) && d + [] == d
  {
  }

  lemma MoveHeld(f: Bytes -> Bytes, w: Worker, a: Action)
    requires Sound(w) && CanAct(w, a) && a != Fetch
    ensures Held(w) == (if a == PullWrite then [w.pull.job.id] else []) + Held(Move(f, w, a))
  {
    hide Held, Move;
    if a == ClientPost { PostKeepsHeld(f, w); } else { MoveKeepsHeld(f, w, a); }
  }

  lemma StepKeepsPlaces(f: Bytes -> Bytes, blocks: seq<Bytes>, s: State, e: Step, id: nat)
    requires AllSound(s) && Enabled(s, e)
    ensures Places(Apply(f, blocks, s, e), id) == Places(s, id) && Total(Apply(f, blocks, s, e)) == Total(s)
  {
    hide Held, Move, Sound;
    match e
    case Register =>
      HeldAppend(s.workers, NEW_WORKER, id);
      assert Held(NEW_WORKER) == [] by { NewWorkerHoldsNothing(); }
    case Act(k, a) =>
      assert s.workers[k] in s.workers;
      HeldUpdate(s.workers, k, Apply(f, blocks, s, e).workers[k], id);
      if a == Fetch { FetchKeepsPlaces(f, blocks, s, k, id); } else { MoveKeepsPlaces(f, blocks, s, k, a, id); }
  }

  lemma FetchKeepsPlaces(f: Bytes -> Bytes, blocks: seq<Bytes>, s: State, k: nat, id: nat)
    requires Enabled(s, Act(k, Fetch))
    ensures var (w, t) := (s.workers[k], Apply(f, blocks, s, Act(k, Fetch)));
      && Count(t.available, id) + Count(Held(t.workers[k]), id) == Count(s.available, id) + Count(Held(w), id)
      && |t.available| + |Held(t.workers[k])| == |s.available| + |Held(w)|
  {
    hide Held;
    var w := s.workers[k];
    if s.available == [] {
      FetchKeepsHeld(w, End);
    } else {
      var job := Job(s.available[0], Block(blocks, s.available[0]));
      FetchKeepsHeld(w, job);
      CountConcat(Held(w), [job.id], id);
      assert s.available == [job.id] + s.available[1..];
      CountConcat([job.id], s.available[1..], id);
    }
  }

  lemma MoveKeepsPlaces(f: Bytes -> Bytes, blocks: seq<Bytes>, s: State, k: nat, a: Action, id: nat)
    requires Enabled(s, Act(k, a)) && a != Fetch && Sound(s.workers[k])
    ensures var (w, t) := (s.workers[k], Apply(f, blocks, s, Act(k, a)));
      && Count(Held(t.workers[k]), id) + Count(t.processed, id) == Count(Held(w), id) + Count(s.processed, id)
      && |Held(t.workers[k])| + |t.processed| == |Held(w)| + |s.processed|
  {
    hide Held, Move, Sound;
    var w := s.workers[k];
    MoveHeld(f, w, a);
    if a == PullWrite {
      CountConcat([w.pull.job.id], Held(Move(f, w, a)), id);
      CountConcat(s.processed, [w.pull.job.id], id);
    } else {
      assert Held(w) == Held(Move(f, w, a));
    }
  }

  lemma NewWorkerHoldsNothing()
    ensures Held(NEW_WORKER) == []
  {
  }

  lemma {:induction false} RunsConserve(f: Bytes -> Bytes, blocks: seq<Bytes>, run: seq<Step>)
    requires Exec(f, blocks, run).Some?
    ensures Conserved(|blocks|, Exec(f, blocks, run).value)
  {
    hide Apply, Enabled, Places, Total;
    if run == [] {
      InitConserved(blocks);
    } else {
      var before := Exec(f, blocks, run[..|run| - 1]).value;
      RunsConserve(f, blocks, run[..|run| - 1]);
      RunsAreSound(f, blocks, run[..|run| - 1]);
      var after := Apply(f, blocks, before, run[|run| - 1]);
      forall id: nat ensures Places(after, id) == Places(before, id) && Total(after) == Total(before) {
        StepKeepsPlaces(f, blocks, before, run[|run| - 1], id);
      }
      assert Places(after, 0) == Places(before, 0);
    }
  }

  lemma InitConserved(blocks: seq<Bytes>)
    ensures Conserved(|blocks|, Init(blocks))
  {
    forall id: nat ensures Places(Init(blocks), id) == if id < |blocks| then 1 else 0 {
      RangeCount(|blocks|, 0, id);
      assert Range(|blocks|) == seq(|blocks| - 0, (i: nat) => 0 + i);
    }
  }

  // ---------- contents ----------

  ghost predicate Raw(blocks: seq<Bytes>, m: Message) { m.Job? ==> m.data == Block(blocks, m.id) }

  ghost predicate Computed(f: Bytes -> Bytes, blocks: seq<Bytes>, m: Message) {
    m.Job? ==> m.data == f(Block(blocks, m.id))
  }

  /** On the way down datasets carry their input block, and on the way up the result. */
  ghost predicate Carries(f: Bytes -> Bytes, blocks: seq<Bytes>, w: Worker) {
    && (!w.push.Fetching? && !w.push.PushEnded? ==> Raw(blocks, w.push.job))
    && (forall m :: m in w.down ==> Raw(blocks, m))
    && (w.client.Working? ==> Raw(blocks, w.client.job))
    && (forall m :: m in w.up ==> Computed(f, blocks, m))
    && (!w.pull.Receiving? && !w.pull.PullEnded? ==> Computed(f, blocks, w.pull.job))
  }

  /** The output file holds the results in the order of completion. */
  ghost predicate Contents(f: Bytes -> Bytes, blocks: seq<Bytes>, s: State) {
    && (forall w :: w in s.workers ==> Carries(f, blocks, w))
    && |s.output| == |s.processed|
    && (forall i :: 0 <= i < |s.output| ==> s.output[i] == f(Block(blocks, s.processed[i])))
  }

  lemma MoveCarries(f: Bytes -> Bytes, blocks: seq<Bytes>, w: Worker, a: Action)
    requires Carries(f, blocks, w) && CanAct(w, a) && a != Fetch
    ensures Carries(f, blocks, Move(f, w, a))
  {
    var v := Move(f, w, a);
    assert forall m :: m in v.down ==> m in w.down || (a == Send && m == w.push.job);
    assert forall m :: m in v.up ==> m in w.up || m == End || (a == ClientPost && m == v.up[|w.up|]);
  }

  lemma StepKeepsContents(f: Bytes -> Bytes, blocks: seq<Bytes>, s: State, e: Step)
    requires Contents(f, blocks, s) && Enabled(s, e)
    ensures Contents(f, blocks, Apply(f, blocks, s, e))
  {
    hide Move;
    match e
    case Register =>
    case Act(k, a) =>
      assert s.workers[k] in s.workers;
      if a != Fetch { MoveCarries(f, blocks, s.workers[k], a); }
  }

  lemma {:induction false} RunsKeepContents(f: Bytes -> Bytes, blocks: seq<Bytes>, run: seq<Step>)
    requires Exec(f, blocks, run).Some?
    ensures Contents(f, blocks, Exec(f, blocks, run).value)
  {
    hide Apply, Enabled;
    if run != [] {
      RunsKeepContents(f, blocks, run[..|run| - 1]);
      StepKeepsContents(f, blocks, Exec(f, blocks, run[..|run| - 1]).value, run[|run| - 1]);
    }
  }

  lemma AllProcessedIffEachOnce(n: nat, s: State)
    requires Conserved(n, s)
    ensures |s.processed| <= n && (|s.processed| == n <==> EachOnce(s.processed, n))
  {
    if |s.processed| == n {
      forall id: nat ensures Count(s.processed, id) == if id < n then 1 else 0 {
        TotalBoundsCount(s.workers, id);
        assert Places(s, id) == if id < n then 1 else 0;
      }
    }
    if EachOnce(s.processed, n) { CoversRange(s.processed, n); }
  }

  lemma ProcessedInRange(n: nat, s: State, i: nat)
    requires Conserved(n, s) && i < |s.processed|
    ensures s.processed[i] < n
  {
    MemberCounts(s.processed, i);
    assert Places(s, s.processed[i]) >= 1;
  }

  /**
   The main thread leaves its loop when as many datasets are processed as there are. That is so exactly when each was
   processed once; and the output file always holds the results, in the order of completion.
   */
  lemma CompletionIsPermutation(f: Bytes -> Bytes, blocks: seq<Bytes>, run: seq<Step>)
    requires Exec(f, blocks, run).Some?
    ensures var s := Exec(f, blocks, run).value;
      && |s.processed| <= |blocks|
      && (|s.processed| == |blocks| <==> EachOnce(s.processed, |blocks|))
      && |s.output| == |s.processed|
      && (forall i :: 0 <= i < |s.output| ==>
            s.processed[i] < |blocks| && s.output[i] == f(blocks[s.processed[i]]))
  {
    hide Conserved, EachOnce, Exec;
    var s := Exec(f, blocks, run).value;
    RunsConserve(f, blocks, run);
    RunsKeepContents(f, blocks, run);
    AllProcessedIffEachOnce(|blocks|, s);
    forall i | 0 <= i < |s.processed| ensures s.processed[i] < |blocks| { ProcessedInRange(|blocks|, s, i); }
  }

  // ---------- progress ----------

  function DownWork(m: seq<Message>): nat { if m == [] then 0 else (if m[0].Job? then 8 else 2) + DownWork(m[1..]) }

  function UpWork(m: seq<Message>): nat { if m == [] then 0 else (if m[0].Job? then 6 else 1) + UpWork(m[1..]) }

  function PushWork(p: Push): nat {
    match p
    case Fetching => 3
    case Loaded(_) => 15
    case Blocked(_) => 14
    case Woken(_) => 13
    case Sending(_) => 12
    case PushEnded => 0
  }

  function PullWork(p: Pull): nat {
    match p
    case Received(_) => 5
    case PullBlocked(_) => 4
    case PullWoken(_) => 3
    case Holding(_) => 2
    case Writing(_) => 1
    case _ => 0
  }

  /** How many steps the threads and the client of a worker can still take with what they hold. */
  function WorkerWork(w: Worker): nat {
    PushWork(w.push) + DownWork(w.down) + (if w.client.Working? then 7 else 0) + UpWork(w.up) + PullWork(w.pull)
  }

  function WorkersWork(ws: seq<Worker>): nat {
    if ws == [] then 0 else WorkerWork(ws[0]) + WorkersWork(ws[1..])
  }

  function Work(s: State): nat { 13 * |s.available| + WorkersWork(s.workers) }

  lemma {:induction false} DownWorkAppend(a: seq<Message>, m: Message)
    ensures DownWork(a + [m]) == DownWork(a) + if m.Job? then 8 else 2
  {
    if a == [] {
      assert a + [m] == [m];
    } else {
      assert (a + [m])[0] == a[0] && (a + [m])[1..] == a[1..] + [m];
      DownWorkAppend(a[1..], m);
    }
  }

  lemma {:induction false} UpWorkAppend(a: seq<Message>, m: Message)
    ensures UpWork(a + [m]) == UpWork(a) + if m.Job? then 6 else 1
  {
    if a == [] {
      assert a + [m] == [m];
    } else {
      assert (a + [m])[0] == a[0] && (a + [m])[1..] == a[1..] + [m];
      UpWorkAppend(a[1..], m);
    }
  }

  lemma MoveUsesWork(f: Bytes -> Bytes, w: Worker, a: Action)
    requires JobsOnly(w) && CanAct(w, a) && a != Fetch
    ensures WorkerWork(Move(f, w, a)) < WorkerWork(w)
  {
    match a
    case Send => DownWorkAppend(w.down, w.push.job);
    case ClientReceive => UpWorkAppend(w.up, End);
    case ClientPost => UpWorkAppend(w.up, Move(f, w, a).up[|w.up|]);
    case _ =>
  }

  lemma FetchUsesWork(w: Worker, job: Message)
    requires w.push.Fetching?
    ensures WorkerWork(w.(push := Loaded(job))) < 13 + WorkerWork(w)
    ensures WorkerWork(w.(push := PushEnded, down := w.down + [End])) < WorkerWork(w)
  {
    DownWorkAppend(w.down, End);
  }

  lemma {:induction false} WorkUpdate(ws: seq<Worker>, k: nat, x: Worker)
    requires k < |ws|
    ensures WorkersWork(ws[k := x]) + WorkerWork(ws[k]) == WorkersWork(ws) + WorkerWork(x)
  {
    hide WorkerWork;
    if k == 0 {
      assert ws[k := x][1..] == ws[1..];
    } else {
      WorkUpdate(ws[1..], k - 1, x);
      assert ws[k := x][1..] == ws[1..][k - 1 := x];
    }
  }

  lemma {:induction false} WorkAppend(ws: seq<Worker>)
    ensures WorkersWork(ws + [NEW_WORKER]) == WorkersWork(ws) + 3
  {
    if ws == [] {
      assert ws + [NEW_WORKER] == [NEW_WORKER];
    } else {
      assert (ws + [NEW_WORKER])[0] == ws[0] && (ws + [NEW_WORKER])[1..] == ws[1..] + [NEW_WORKER];
      WorkAppend(ws[1..]);
    }
  }

  /** Every step but a registration uses up work, also the waits and the wakeups. */
  lemma StepUsesWork(f: Bytes -> Bytes, blocks: seq<Bytes>, s: State, e: Step)
    requires AllSound(s) && Enabled(s, e)
    ensures Work(Apply(f, blocks, s, e)) + 1 <= Work(s) + if e.Register? then 4 else 0
  {
    hide WorkerWork, Move;
    match e
    case Register => WorkAppend(s.workers);
    case Act(k, a) =>
      var w := s.workers[k];
      assert w in s.workers && Sound(w);
      WorkUpdate(s.workers, k, Apply(f, blocks, s, e).workers[k]);
      if a == Fetch {
        FetchUsesWork(w, if s.available == [] then End else Job(s.available[0], Block(blocks, s.available[0])));
      } else {
        MoveUsesWork(f, w, a);
      }
  }

  /** With n datasets no run is longer than 13 n steps and 4 for each worker. */
  lemma {:induction false} RunsAreBounded(f: Bytes -> Bytes, blocks: seq<Bytes>, run: seq<Step>)
    requires Exec(f, blocks, run).Some?
    ensures var s := Exec(f, blocks, run).value;
      Work(s) + |run| <= 13 * |blocks| + 4 * |s.workers|
  {
    hide Apply, Enabled, Work;
    if run == [] {
      assert Work(Init(blocks)) == 13 * |blocks| by { InitWork(blocks); }
    } else {
      var before := Exec(f, blocks, run[..|run| - 1]).value;
      RunsAreBounded(f, blocks, run[..|run| - 1]);
      RunsAreSound(f, blocks, run[..|run| - 1]);
      StepUsesWork(f, blocks, before, run[|run| - 1]);
      StepWorkers(f, blocks, before, run[|run| - 1]);
    }
  }

  lemma InitWork(blocks: seq<Bytes>)
    ensures Work(Init(blocks)) == 13 * |blocks|
  {
  }

  lemma StepWorkers(f: Bytes -> Bytes, blocks: seq<Bytes>, s: State, e: Step)
    requires Enabled(s, e)
    ensures |Apply(f, blocks, s, e).workers| == |s.workers| + if e.Register? then 1 else 0
  {
    hide Move;
  }

  /** Both threads and the client have ended. */
  predicate Done(w: Worker) { w.push.PushEnded? && w.client.Exited? && w.pull.PullEnded? }

  /** What a worker can do next, its pull thread first. */
  function NextAction(w: Worker): Action {
    if w.pull.Holding? then PullFinish
    else if w.pull.Received? then PullLock
    else if w.pull.Writing? then PullWrite
    else if w.pull.Receiving? && w.up != [] then PullReceive
    else if w.client.Working? then ClientPost
    else if w.client.Idle? && w.down != [] then ClientReceive
    else if w.push.Sending? then Send
    else if w.push.Loaded? then Lock
    else if w.push.Woken? then Wake
    else Fetch
  }

  /** No wakeup is lost: a worker that has not ended can always act. */
  lemma WorkersAreLive(w: Worker)
    requires Sound(w)
    ensures Done(w) ==> Held(w) == [] && forall a :: !CanAct(w, a)
    ensures !Done(w) ==> CanAct(w, NextAction(w))
  {
  }

  ghost predicate EndedOnlyWhenDrained(s: State) {
    forall w :: w in s.workers && w.push.PushEnded? ==> s.available == []
  }

  lemma {:induction false} RunsEndWhenDrained(f: Bytes -> Bytes, blocks: seq<Bytes>, run: seq<Step>)
    requires Exec(f, blocks, run).Some?
    ensures EndedOnlyWhenDrained(Exec(f, blocks, run).value)
  {
    hide Apply, Enabled;
    if run != [] {
      RunsEndWhenDrained(f, blocks, run[..|run| - 1]);
      StepEndsWhenDrained(f, blocks, Exec(f, blocks, run[..|run| - 1]).value, run[|run| - 1]);
    }
  }

  lemma StepEndsWhenDrained(f: Bytes -> Bytes, blocks: seq<Bytes>, s: State, e: Step)
    requires EndedOnlyWhenDrained(s) && Enabled(s, e)
    ensures EndedOnlyWhenDrained(Apply(f, blocks, s, e))
  {
    if e.Act? { assert s.workers[e.worker] in s.workers; }
  }

  ghost predicate Stuck(s: State) {
    forall k, a :: 0 <= k < |s.workers| ==> !CanAct(s.workers[k], a)
  }

  /**
   Once a worker has registered, nothing is left to do exactly when all threads and clients have ended, and then every
   dataset is processed.
   */
  lemma StuckMeansComplete(f: Bytes -> Bytes, blocks: seq<Bytes>, run: seq<Step>)
    requires Exec(f, blocks, run).Some?
    ensures var s := Exec(f, blocks, run).value;
      && (Stuck(s) <==> forall w :: w in s.workers ==> Done(w))
      && (Stuck(s) && s.workers != [] ==> |s.processed| == |blocks|)
  {
    hide Sound, CanAct, Done, NextAction, Exec, Held;
    var s := Exec(f, blocks, run).value;
    RunsAreSound(f, blocks, run);
    forall w | w in s.workers
      ensures Done(w) ==> Held(w) == [] && forall a :: !CanAct(w, a)
      ensures !Done(w) ==> CanAct(w, NextAction(w))
    {
      WorkersAreLive(w);
    }
    forall w | Stuck(s) && w in s.workers ensures Done(w) {
      var k :| 0 <= k < |s.workers| && s.workers[k] == w;
      assert !CanAct(s.workers[k], NextAction(w));
    }
    forall k, a | 0 <= k < |s.workers| && CanAct(s.workers[k], a) ensures !Done(s.workers[k]) {
      assert s.workers[k] in s.workers;
    }
    if Stuck(s) && s.workers != [] {
      RunsConserve(f, blocks, run);
      RunsEndWhenDrained(f, blocks, run);
      assert s.workers[0] in s.workers;
      DoneEnded(s.workers[0]);
      NothingHeld(s.workers);
    }
  }

  lemma DoneEnded(w: Worker)
    ensures Done(w) ==> w.push.PushEnded?
  {
  }

  lemma {:induction false} NothingHeld(ws: seq<Worker>)
    requires forall w :: w in ws ==> Held(w) == []
    ensures HeldTotal(ws) == 0
  {
    hide Held;
    if ws != [] { NothingHeld(ws[1..]); }
  }

  /** From every reachable state with a worker the server can go on until every dataset is processed. */
  lemma {:induction false} CompletionAlwaysReachable(f: Bytes -> Bytes, blocks: seq<Bytes>, run: seq<Step>)
    returns (longer: seq<Step>)
    requires Exec(f, blocks, run).Some? && Exec(f, blocks, run).value.workers != []
    ensures run <= longer && Exec(f, blocks, longer).Some?
    ensures |Exec(f, blocks, longer).value.processed| == |blocks|
    decreases Work(Exec(f, blocks, run).value)
  {
    hide Apply, CanAct, Work;
    var s := Exec(f, blocks, run).value;
    if Stuck(s) {
      StuckMeansComplete(f, blocks, run);
      longer := run;
    } else {
      var k, a :| 0 <= k < |s.workers| && CanAct(s.workers[k], a);
      var e := Act(k, a);
      assert (run + [e])[..|run|] == run;
      RunsAreSound(f, blocks, run);
      StepUsesWork(f, blocks, s, e);
      StepWorkers(f, blocks, s, e);
      longer := CompletionAlwaysReachable(f, blocks, run + [e]);
    }
  }

  /** Datasets are fetched in the order of their numbers. */
  lemma {:induction false} FetchedInOrder(f: Bytes -> Bytes, blocks: seq<Bytes>, run: seq<Step>)
    requires Exec(f, blocks, run).Some?
    ensures var left := Exec(f, blocks, run).value.available;
      |left| <= |blocks| && left == Range(|blocks|)[|blocks| - |left|..]
  {
    hide Move, CanAct;
    if run != [] { FetchedInOrder(f, blocks, run[..|run| - 1]); }
  }
}
