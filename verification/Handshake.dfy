/**
 The ZeroMQ push/pull server: for each worker a push thread and a pull thread share a mutex, a condition variable
 and the flag `is_processing`. The waits are guarded by `if`; a wait ends only when it is notified.
 */
module Handshake {
  import opened Datasets
  import opened Wrappers

  /** A message: a dataset with its bytes, or -1. */
  datatype Message = Job(id: nat, data: Bytes) | End

  datatype Push = Fetching | Loaded(job: Message) | Blocked(job: Message) | Woken(job: Message) | Sending(job: Message)
    | PushEnded

  datatype Client = Idle | Working(job: Message) | Exited

  datatype Pull = Receiving | Received(job: Message) | PullBlocked(job: Message) | PullWoken(job: Message)
    | Holding(job: Message) | Writing(job: Message) | PullEnded

  /** `busy` is the flag `is_processing`; `down` and `up` are the two connections. */
  datatype Worker = Worker(push: Push, down: seq<Message>, client: Client, up: seq<Message>, pull: Pull, busy: bool)

  const NEW_WORKER := Worker(Fetching, [], Idle, [], Receiving, false)

  datatype State = State(available: seq<nat>, workers: seq<Worker>, processed: seq<nat>, output: seq<Bytes>)

  datatype Action = Fetch | Lock | Wake | Send | ClientReceive | ClientPost
    | PullReceive | PullLock | PullWake | PullFinish | PullWrite

  datatype Step = Register | Act(worker: nat, action: Action)

  /** Only the pull thread keeps the mutex from one step to the next, while it receives the result. */
  predicate Locked(w: Worker) { w.pull.Holding? }

  predicate CanAct(w: Worker, a: Action) {
    match a
    case Fetch => w.push.Fetching?
    case Lock => w.push.Loaded? && !Locked(w)
    case Wake => w.push.Woken? && !Locked(w)
    case Send => w.push.Sending?
    case ClientReceive => w.client.Idle? && w.down != []
    case ClientPost => w.client.Working? && w.client.job.Job?
    case PullReceive => w.pull.Receiving? && w.up != []
    case PullLock => w.pull.Received?
    case PullWake => w.pull.PullWoken?
    case PullFinish => w.pull.Holding?
    case PullWrite => w.pull.Writing? && w.pull.job.Job?
  }

  /** `notify_all` by the push thread, and by the pull thread. */
  function NotifyPull(p: Pull): Pull { if p.PullBlocked? then PullWoken(p.job) else p }

  function NotifyPush(p: Push): Push { if p.Blocked? then Woken(p.job) else p }

  /** The actions of a worker's threads and client, apart from the shared queues; `f` is the computation. */
  ghost function Move(f: Bytes -> Bytes, w: Worker, a: Action): Worker
    requires CanAct(w, a) && a != Fetch
  {
    match a
    case Lock =>
      if w.busy then w.(push := Blocked(w.push.job))
      else w.(push := Sending(w.push.job), busy := true, pull := NotifyPull(w.pull))
    case Wake => w.(push := Sending(w.push.job), busy := true, pull := NotifyPull(w.pull))
    case Send => w.(push := Fetching, down := w.down + [w.push.job])
    case ClientReceive =>
      if w.down[0] == End then w.(client := Exited, down := w.down[1..], up := w.up + [End])
      else w.(client := Working(w.down[0]), down := w.down[1..])
    case ClientPost => w.(client := Idle, up := w.up + [Job(w.client.job.id, f(w.client.job.data))])
    case PullReceive =>
      if w.up[0] == End then w.(pull := PullEnded, up := w.up[1..])
      else w.(pull := Received(w.up[0]), up := w.up[1..])
    case PullLock => w.(pull := if w.busy then Holding(w.pull.job) else PullBlocked(w.pull.job))
    case PullWake => w.(pull := Holding(w.pull.job))
    case PullFinish => w.(pull := Writing(w.pull.job), busy := false, push := NotifyPush(w.push))
    case PullWrite => w.(pull := Receiving)
  }

  /** A block of the input file. */
  ghost function Block(blocks: seq<Bytes>, id: nat): Bytes { if id < |blocks| then blocks[id] else [] }

  ghost predicate Enabled(s: State, e: Step) {
    e.Act? ==> e.worker < |s.workers| && CanAct(s.workers[e.worker], e.action)
  }

  ghost function Apply(f: Bytes -> Bytes, blocks: seq<Bytes>, s: State, e: Step): State
    requires Enabled(s, e)
  {
    match e
    case Register => s.(workers := s.workers + [NEW_WORKER])
    case Act(k, a) =>
      var w := s.workers[k];
      if a == Fetch && s.available == [] then
        s.(workers := s.workers[k := w.(push := PushEnded, down := w.down + [End])])
      else if a == Fetch then
        var id := s.available[0];
        s.(available := s.available[1..], workers := s.workers[k := w.(push := Loaded(Job(id, Block(blocks, id))))])
      else
        var moved := s.(workers := s.workers[k := Move(f, w, a)]);
        if a == PullWrite then
          moved.(processed := s.processed + [w.pull.job.id], output := s.output + [w.pull.job.data])
        else moved
  }

  ghost function Init(blocks: seq<Bytes>): State {
    State(Range(|blocks|), [], [], [])
  }

  ghost function Exec(f: Bytes -> Bytes, blocks: seq<Bytes>, run: seq<Step>): Option<State> {
    if run == [] then Some(Init(blocks)) else
      var before := Exec(f, blocks, run[..|run| - 1]);
      var e := run[|run| - 1];
      if before.Some? && Enabled(before.value, e) then Some(Apply(f, blocks, before.value, e)) else None
  }

  // ---------- what each worker's handshake keeps ----------

  function IdOf(m: Message): seq<nat> { if m.Job? then [m.id] else [] }

  function Ids(messages: seq<Message>): seq<nat> {
    if messages == [] then [] else IdOf(messages[0]) + Ids(messages[1..])
  }

  function PushIds(p: Push): seq<nat> {
    if p.Fetching? || p.PushEnded? then [] else IdOf(p.job)
  }

  function PullIds(p: Pull): seq<nat> {
    if p.Receiving? || p.PullEnded? then [] else IdOf(p.job)
  }

  function ClientIds(c: Client): seq<nat> {
    if c.Working? then IdOf(c.job) else []
  }

  /** All datasets that a worker's threads and client hold, the oldest first. */
  function Held(w: Worker): seq<nat> {
    PullIds(w.pull) + (Ids(w.up) + (ClientIds(w.client) + (Ids(w.down) + PushIds(w.push))))
  }

  /** How many datasets are between the moment just before their send and the receipt of their result. */
  function Outstanding(w: Worker): nat {
    (if w.pull.Writing? then 0 else |PullIds(w.pull)|) + |Ids(w.up)| + |ClientIds(w.client)| + |Ids(w.down)|
    + if w.push.Sending? then 1 else 0
  }

  predicate JobsOnly(w: Worker) {
    && (!w.push.Fetching? && !w.push.PushEnded? ==> w.push.job.Job?)
    && (w.client.Working? ==> w.client.job.Job?)
    && (!w.pull.Receiving? && !w.pull.PullEnded? ==> w.pull.job.Job?)
  }

  predicate EndedBy(messages: seq<Message>) {
    messages != [] && messages[|messages| - 1] == End && End !in messages[..|messages| - 1]
  }

  /** The marker -1 follows the datasets, and each party ends when it has passed it on. */
  predicate Marker(w: Worker) {
    && (w.client.Exited? ==> w.push.PushEnded? && w.down == [])
    && (!w.client.Exited? ==>
          End !in w.up && !w.pull.PullEnded? && if w.push.PushEnded? then EndedBy(w.down) else End !in w.down)
    && (w.client.Exited? ==> if w.pull.PullEnded? then w.up == [] else EndedBy(w.up))
  }

  /** One dataset at a time, and no wait that nobody will end. */
  predicate Paired(w: Worker) {
    && Outstanding(w) == (if w.busy then 1 else 0)
    && !w.pull.PullBlocked? && !w.pull.PullWoken?
    && (w.push.Blocked? ==> w.busy)
    && (w.push.Woken? ==> !w.busy)
  }

  predicate Sound(w: Worker) { JobsOnly(w) && Marker(w) && Paired(w) }

  lemma {:induction false} IdsAppend(a: seq<Message>, m: Message)
    ensures Ids(a + [m]) == Ids(a) + IdOf(m)
  {
    if a == [] {
      assert a + [m] == [m];
    } else {
      assert (a + [m])[0] == a[0] && (a + [m])[1..] == a[1..] + [m];
      IdsAppend(a[1..], m);
    }
  }

  lemma IdsHead(messages: seq<Message>)
    requires messages != []
    ensures Ids(messages) == IdOf(messages[0]) + Ids(messages[1..])
  {
  }

  lemma AssocFive(a: seq<nat>, b: seq<nat>, c: seq<nat>, d: seq<nat>, e: seq<nat>)
    ensures a + (b + (c + (d + e))) == (a + b) + (c + (d + e))
    ensures b + (c + (d + e)) == (b + c) + (d + e) && a + (b + ((c + d) + e)) == a + ((b + c) + (d + e))
    ensures a + ((b + c) + (d + e)) == (a + b) + (c + (d + e))
  {
  }

  lemma EndedByHead(messages: seq<Message>)
    requires EndedBy(messages)
    ensures messages[0] == End ==> messages == [End]
    ensures messages[0] != End ==> EndedBy(messages[1..])
  {
    assert |messages| > 1 ==> messages[0] in messages[..|messages| - 1];
    if messages[0] != End {
      var tail := messages[1..];
      assert tail[..|tail| - 1] == messages[..|messages| - 1][1..];
    }
  }

  lemma EndedByAppend(messages: seq<Message>)
    requires End !in messages
    ensures EndedBy(messages + [End])
  {
    assert (messages + [End])[..|messages|] == messages;
  }

  /** What a worker holds moves along in order; only the output step takes something out, the oldest. */
  lemma MoveKeepsHeld(f: Bytes -> Bytes, w: Worker, a: Action)
    requires JobsOnly(w) && CanAct(w, a) && a != Fetch && a != ClientPost
    ensures Held(w) == (if a == PullWrite then [w.pull.job.id] else []) + Held(Move(f, w, a))
  {
    hide Ids;
    var v := Move(f, w, a);
    match a
    case Send =>
      IdsAppend(w.down, w.push.job);
      assert (Ids(w.down) + IdOf(w.push.job)) + [] == Ids(w.down) + IdOf(w.push.job);
    case ClientReceive =>
      IdsHead(w.down);
      AssocFive(Ids(w.up), [], IdOf(w.down[0]), Ids(w.down[1..]), PushIds(w.push));
      if w.down[0] == End { IdsAppend(w.up, End); }
    case PullReceive =>
      IdsHead(w.up);
      AssocFive([], IdOf(w.up[0]), Ids(w.up[1..]), ClientIds(w.client), Ids(w.down) + PushIds(w.push));
    case _ =>
  }

  lemma PostKeepsHeld(f: Bytes -> Bytes, w: Worker)
    requires JobsOnly(w) && CanAct(w, ClientPost)
    ensures Held(Move(f, w, ClientPost)) == Held(w)
  {
    hide Ids;
    var v := Move(f, w, ClientPost);
    IdsAppend(w.up, v.up[|w.up|]);
    AssocFive(Ids(w.up), IdOf(w.client.job), [], Ids(w.down), PushIds(w.push));
  }

  lemma MoveKeepsMarker(f: Bytes -> Bytes, w: Worker, a: Action)
    requires JobsOnly(w) && Marker(w) && CanAct(w, a) && a != Fetch
    ensures JobsOnly(Move(f, w, a)) && Marker(Move(f, w, a))
  {
    match a
    case ClientReceive =>
      if EndedBy(w.down) { EndedByHead(w.down); }
      EndedByAppend(w.up);
    case PullReceive =>
      if EndedBy(w.up) { EndedByHead(w.up); }
    case _ =>
  }

  lemma MoveKeepsPaired(f: Bytes -> Bytes, w: Worker, a: Action)
    requires Sound(w) && CanAct(w, a) && a != Fetch
    ensures Paired(Move(f, w, a))
  {
    hide Marker, Ids;
    match a
    case Send => IdsAppend(w.down, w.push.job);
    case ClientReceive =>
      IdsHead(w.down);
      IdsAppend(w.up, End);
    case ClientPost => IdsAppend(w.up, Move(f, w, a).up[|w.up|]);
    case PullReceive => IdsHead(w.up);
    case _ =>
  }
}
