/**
 The upload pipeline: every web worker has a priority queue and one sender; the senders feed the priority queue of
 the process that writes the files. A post puts its attributes item and then its body item.
 */
module Upload {
  import opened StoredFiles
  import opened Wrappers

  /** A well-formed post to some file, handled by one of the web workers; `size` is that of each group's part. */
  datatype Post = Post(worker: nat, file: nat, groups: seq<nat>, size: nat)

  /** `slices[f]` is the number of groups of file `f`. */
  datatype Config = Config(workers: nat, slices: seq<nat>, posts: seq<Post>) {
    ghost predicate Valid() {
      forall p :: 0 <= p < |posts| ==> ValidPost(posts[p])
    }

    ghost predicate ValidPost(p: Post) {
      p.worker < workers && p.file < |slices| && p.groups != [] && GroupsIn(p.groups, slices[p.file])
    }
  }

  datatype Item = Attributes(post: nat) | Body(post: nat)

  datatype Sender = Idle | Sending(item: Item) | Answered

  /** `put[p]` counts the items that post `p` has put. */
  datatype State = State(put: seq<nat>, first: seq<set<Item>>, senders: seq<Sender>, second: set<Item>,
                         writer: Option<Item>, written: set<Item>, files: seq<File>)

  datatype Step = Put(post: nat) | Get(worker: nat, item: Item) | Deliver(worker: nat) | Reply(worker: nat)
    | Take(item: Item) | Write

  function Priority(c: Config, item: Item): nat {
    match item
    case Attributes(_) => 1
    case Body(p) => 10 + if p < |c.posts| && c.posts[p].groups != [] then c.posts[p].groups[0] else 0
  }

  /** A priority queue gives one of the items of least priority. */
  ghost predicate Least(c: Config, q: set<Item>, item: Item) {
    item in q && forall other :: other in q ==> Priority(c, item) <= Priority(c, other)
  }

  ghost predicate Enabled(c: Config, s: State, e: Step) {
    match e
    case Put(p) => p < |c.posts| && p < |s.put| && s.put[p] < 2 && c.posts[p].worker < |s.first|
    case Get(k, item) => k < |s.first| && k < |s.senders| && s.senders[k] == Idle && Least(c, s.first[k], item)
    case Deliver(k) => k < |s.senders| && s.senders[k].Sending?
    case Reply(k) => k < |s.senders| && s.senders[k] == Answered
    case Take(item) => s.writer == None && Least(c, s.second, item)
    case Write => s.writer.Some? && Writable(c, s, s.writer.value)
  }

  ghost predicate Writable(c: Config, s: State, item: Item) {
    item.post < |c.posts| && c.posts[item.post].file < |s.files|
    && var f := s.files[c.posts[item.post].file];
       f.groups != [] && GroupsIn(c.posts[item.post].groups, |f.groups|)
  }

  ghost function Written(c: Config, s: State, item: Item): File
    requires Writable(c, s, item)
  {
    var p := c.posts[item.post];
    var f := s.files[p.file];
    match item
    case Attributes(_) =>
      PostAttributesIn(p.groups, p.size, |f.groups|);
      AfterAttributes(f, PostAttributes(p.groups, p.size))
    case Body(_) => AfterBody(f, p.groups, p.size)
  }

  ghost function Apply(c: Config, s: State, e: Step): State
    requires Enabled(c, s, e)
  {
    match e
    case Put(p) =>
      var k := c.posts[p].worker;
      var item := if s.put[p] == 0 then Attributes(p) else Body(p);
      s.(put := s.put[p := s.put[p] + 1], first := s.first[k := s.first[k] + {item}])
    case Get(k, item) => s.(first := s.first[k := s.first[k] - {item}], senders := s.senders[k := Sending(item)])
    case Deliver(k) => s.(senders := s.senders[k := Answered], second := s.second + {s.senders[k].item})
    case Reply(k) => s.(senders := s.senders[k := Idle])
    case Take(item) => s.(second := s.second - {item}, writer := Some(item))
    case Write =>
      var item := s.writer.value;
      s.(writer := None, written := s.written + {item},
         files := s.files[c.posts[item.post].file := Written(c, s, item)])
  }

  ghost function Init(c: Config): State {
    State(seq(|c.posts|, _ => 0), seq(c.workers, _ => {}), seq(c.workers, _ => Idle), {}, None, {},
          seq(|c.slices|, i requires 0 <= i < |c.slices| => NewFile(c.slices[i])))
  }

  ghost function Exec(c: Config, run: seq<Step>): Option<State> {
    if run == [] then Some(Init(c)) else
      var before := Exec(c, run[..|run| - 1]);
      var e := run[|run| - 1];
      if before.Some? && Enabled(c, before.value, e) then Some(Apply(c, before.value, e)) else None
  }

  // ---------- the attributes item stays ahead ----------

  ghost predicate Sized(c: Config, s: State) {
    && |s.put| == |c.posts| && |s.first| == |s.senders| == c.workers && |s.files| == |c.slices|
    && (forall f :: 0 <= f < |s.files| ==> |s.files[f].groups| == c.slices[f])
    && (forall p :: 0 <= p < |s.put| ==> s.put[p] <= 2)
  }

  predicate AtSender(s: State, k: nat, item: Item) { k < |s.senders| && s.senders[k] == Sending(item) }

  /** The item has left its web worker. */
  predicate Beyond(s: State, item: Item) { item in s.second || s.writer == Some(item) || item in s.written }

  predicate Somewhere(s: State, k: nat, item: Item) {
    k < |s.first| && (item in s.first[k] || AtSender(s, k, item) || Beyond(s, item))
  }

  /** An item that was put is not lost. */
  ghost predicate NothingLost(c: Config, s: State) {
    forall p :: 0 <= p < |c.posts| && p < |s.put| ==>
      && (s.put[p] >= 1 ==> Somewhere(s, c.posts[p].worker, Attributes(p)))
      && (s.put[p] == 2 ==> Somewhere(s, c.posts[p].worker, Body(p)))
  }

  predicate WasPut(c: Config, s: State, item: Item) {
    item.post < |c.posts| && item.post < |s.put| && s.put[item.post] >= if item.Body? then 2 else 1
  }

  /** Items are where their post's worker has brought them. */
  ghost predicate InPlace(c: Config, s: State) {
    && (forall k, item :: 0 <= k < |s.first| && item in s.first[k] ==>
          WasPut(c, s, item) && c.posts[item.post].worker == k)
    && (forall k, item :: AtSender(s, k, item) ==> WasPut(c, s, item) && c.posts[item.post].worker == k)
    && (forall item :: Beyond(s, item) ==> WasPut(c, s, item))
  }

  /** A body item past a queue has its attributes item past that queue. */
  ghost predicate Ahead(s: State) {
    && (forall k, p :: AtSender(s, k, Body(p)) ==> Beyond(s, Attributes(p)))
    && (forall p :: Beyond(s, Body(p)) ==> Beyond(s, Attributes(p)))
    && (forall p :: s.writer == Some(Body(p)) || Body(p) in s.written ==> Attributes(p) in s.written)
  }

  ghost predicate Ordered(c: Config, s: State) {
    Sized(c, s) && NothingLost(c, s) && InPlace(c, s) && Ahead(s)
  }

  lemma InitOrdered(c: Config)
    requires c.Valid()
    ensures Ordered(c, Init(c))
  {
  }

  lemma WrittenKeepsSize(c: Config, s: State, item: Item)
    requires Writable(c, s, item)
    ensures |Written(c, s, item).groups| == |s.files[c.posts[item.post].file].groups|
  {
  }

  lemma StepKeepsSized(c: Config, s: State, e: Step)
    requires c.Valid() && Sized(c, s) && Enabled(c, s, e)
    ensures Sized(c, Apply(c, s, e))
  {
    hide Written;
    if e == Write { WrittenKeepsSize(c, s, s.writer.value); }
  }

  lemma StepLosesNothing(c: Config, s: State, e: Step)
    requires c.Valid() && Sized(c, s) && NothingLost(c, s) && InPlace(c, s) && Enabled(c, s, e)
    ensures NothingLost(c, Apply(c, s, e))
  {
    hide Written, Writable, Least;
    var t := Apply(c, s, e);
    forall p | 0 <= p < |c.posts| && p < |t.put|
      ensures t.put[p] >= 1 ==> Somewhere(t, c.posts[p].worker, Attributes(p))
      ensures t.put[p] == 2 ==> Somewhere(t, c.posts[p].worker, Body(p))
    {
      ItemStaysSomewhere(c, s, e, Attributes(p));
      ItemStaysSomewhere(c, s, e, Body(p));
    }
  }

  lemma ItemStaysSomewhere(c: Config, s: State, e: Step, item: Item)
    requires c.Valid() && Sized(c, s) && InPlace(c, s) && Enabled(c, s, e) && item.post < |c.posts|
    ensures var k := c.posts[item.post].worker;
      Somewhere(s, k, item) || (e == Put(item.post) && s.put[item.post] == if item.Body? then 1 else 0)
      ==> Somewhere(Apply(c, s, e), k, item)
  {
    hide Written, Writable, Least;
    assert c.ValidPost(c.posts[item.post]);
  }

  /** Where an item is after a step, it was put there or at the place before. */
  ghost predicate Came(c: Config, s: State, e: Step, item: Item)
    requires Enabled(c, s, e)
  {
    var t := Apply(c, s, e);
    && (WasPut(c, s, item) ==> WasPut(c, t, item))
    && (Beyond(s, item) ==> Beyond(t, item))
    && (Beyond(t, item) ==> Beyond(s, item) || (e.Deliver? && AtSender(s, e.worker, item)))
    && (forall k: nat :: AtSender(t, k, item) ==> AtSender(s, k, item) || (k < |s.first| && item in s.first[k]))
    && (forall k :: 0 <= k < |t.first| && item in t.first[k] ==>
          k < |s.first| && (item in s.first[k] || (e.Put? && WasPut(c, t, item) && c.posts[item.post].worker == k)))
  }

  lemma ItemCame(c: Config, s: State, e: Step, item: Item)
    requires Sized(c, s) && Enabled(c, s, e)
    ensures Came(c, s, e, item)
  {
    hide Written;
  }

  lemma StepKeepsPlaces(c: Config, s: State, e: Step)
    requires c.Valid() && Sized(c, s) && InPlace(c, s) && Enabled(c, s, e)
    ensures InPlace(c, Apply(c, s, e))
  {
    hide Written;
    var t := Apply(c, s, e);
    forall item ensures Came(c, s, e, item) { ItemCame(c, s, e, item); }
    forall k, item | 0 <= k < |t.first| && item in t.first[k]
      ensures WasPut(c, t, item) && c.posts[item.post].worker == k
    {
      assert Came(c, s, e, item);
    }
    forall k: nat, item | AtSender(t, k, item) ensures WasPut(c, t, item) && c.posts[item.post].worker == k {
      assert Came(c, s, e, item);
    }
    forall item | Beyond(t, item) ensures WasPut(c, t, item) { assert Came(c, s, e, item); }
  }

  /** The one step that takes an item from a queue takes the attributes item of a post before its body item. */
  lemma LeastIsAttributes(c: Config, q: set<Item>, p: nat)
    requires Least(c, q, Body(p))
    ensures Attributes(p) !in q
  {
    assert Priority(c, Attributes(p)) < Priority(c, Body(p));
  }

  /** Among body items, the one whose post begins with the lowest group is taken first. */
  lemma LeastHasLowestGroup(c: Config, q: set<Item>, p: nat, other: nat)
    requires c.Valid() && p < |c.posts| && other < |c.posts| && Least(c, q, Body(p)) && Body(other) in q
    ensures c.ValidPost(c.posts[p]) && c.ValidPost(c.posts[other])
    ensures c.posts[p].groups[0] <= c.posts[other].groups[0]
  {
    assert Priority(c, Body(p)) <= Priority(c, Body(other));
  }

  /** Attributes items of all posts are taken before any body item. */
  lemma AttributesBeforeBodies(c: Config, q: set<Item>, p: nat, other: nat)
    requires Least(c, q, Body(p))
    ensures Attributes(other) !in q
  {
    assert Priority(c, Attributes(other)) < Priority(c, Body(p));
  }

  lemma StepKeepsAhead(c: Config, s: State, e: Step)
    requires c.Valid() && Ordered(c, s) && Enabled(c, s, e)
    ensures Ahead(Apply(c, s, e))
  {
    hide Written;
    var t := Apply(c, s, e);
    forall item ensures Came(c, s, e, item) { ItemCame(c, s, e, item); }
    forall k: nat, p | AtSender(t, k, Body(p)) ensures Beyond(t, Attributes(p)) {
      assert Came(c, s, e, Body(p)) && Came(c, s, e, Attributes(p));
      if !AtSender(s, k, Body(p)) {
        LeastIsAttributes(c, s.first[k], p);
        assert WasPut(c, s, Body(p)) && Somewhere(s, k, Attributes(p));
      }
    }
    forall p | Beyond(t, Body(p)) ensures Beyond(t, Attributes(p)) {
      assert Came(c, s, e, Body(p)) && Came(c, s, e, Attributes(p));
    }
    forall p | t.writer == Some(Body(p)) || Body(p) in t.written ensures Attributes(p) in t.written {
      if e == Take(Body(p)) {
        LeastIsAttributes(c, s.second, p);
        assert Beyond(s, Body(p));
      }
    }
  }

  lemma StepKeepsOrdered(c: Config, s: State, e: Step)
    requires c.Valid() && Ordered(c, s) && Enabled(c, s, e)
    ensures Ordered(c, Apply(c, s, e))
  {
    hide Sized, NothingLost, InPlace, Ahead, Apply, Enabled;
    StepKeepsSized(c, s, e);
    StepLosesNothing(c, s, e);
    StepKeepsPlaces(c, s, e);
    StepKeepsAhead(c, s, e);
  }
}
