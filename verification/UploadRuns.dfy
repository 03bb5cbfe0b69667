/** Every run of the upload pipeline: nothing is stored before it is marked as uploaded, and everything arrives. */
module UploadRuns {
  import opened StoredFiles
  import opened Upload
  import opened Wrappers

  // ---------- files ----------

  /** The flags and the accounts of a file follow from its groups, and its stored groups are uploaded. */
  ghost predicate Accounted(f: File) {
    && f.groups != []
    && (forall g :: 0 <= g < |f.groups| && f.groups[g].stored ==> f.groups[g].uploaded)
    && (f.uploaded <==> AllUploaded(f.groups))
    && (f.stored <==> AllStored(f.groups))
    && f.uploadedBytes == SumUploaded(f.groups) && f.uploadProgress == Percent(CountUploaded(f.groups), |f.groups|)
    && f.storedBytes == SumStored(f.groups) && f.storeProgress == Percent(CountStored(f.groups), |f.groups|)
  }

  /** Groups that were uploaded or stored stay so. */
  ghost predicate Grown(f: File, g: File) {
    && |f.groups| == |g.groups|
    && forall i :: 0 <= i < |f.groups| ==>
         (f.groups[i].uploaded ==> g.groups[i].uploaded) && (f.groups[i].stored ==> g.groups[i].stored)
  }

  lemma {:induction false} NewGroupsCount(n: nat)
    ensures var gs := seq(n, _ => NEW_GROUP);
      CountUploaded(gs) == 0 && SumUploaded(gs) == 0 && CountStored(gs) == 0 && SumStored(gs) == 0
  {
    if n > 0 {
      NewGroupsCount(n - 1);
      assert seq(n, _ => NEW_GROUP)[..n - 1] == seq(n - 1, _ => NEW_GROUP);
    }
  }

  lemma NewFileAccounted(n: nat)
    requires n > 0
    ensures Accounted(NewFile(n))
  {
    NewGroupsCount(n);
    var gs := NewFile(n).groups;
    assert !gs[0].uploaded && !gs[0].stored;
  }

  ghost predicate GroupsUploaded(f: File, ids: seq<nat>) {
    forall i :: 0 <= i < |ids| && ids[i] < |f.groups| ==> f.groups[ids[i]].uploaded
  }

  ghost predicate GroupsStored(f: File, ids: seq<nat>) {
    forall i :: 0 <= i < |ids| && ids[i] < |f.groups| ==> f.groups[ids[i]].stored
  }

  lemma AttributesKeepAccounts(f: File, ids: seq<nat>, size: nat)
    requires Accounted(f) && GroupsIn(ids, |f.groups|)
    ensures AttributesIn(PostAttributes(ids, size), |f.groups|)
    ensures var g := AfterAttributes(f, PostAttributes(ids, size));
      Accounted(g) && Grown(f, g) && GroupsUploaded(g, ids)
  {
    hide SumUploaded, SumStored, CountStored, CountUploaded, Percent, SetAttributes, PostAttributes;
    PostAttributesMark(f.groups, ids, size);
    StoredUnchanged(f.groups, AfterAttributes(f, PostAttributes(ids, size)).groups);
  }

  lemma {:induction false} StoredUnchanged(a: seq<Group>, b: seq<Group>)
    requires |a| == |b|
    requires forall i :: 0 <= i < |a| ==> a[i].stored == b[i].stored && a[i].storedBytes == b[i].storedBytes
    ensures CountStored(a) == CountStored(b) && SumStored(a) == SumStored(b)
  {
    if a != [] { StoredUnchanged(a[..|a| - 1], b[..|b| - 1]); }
  }

  lemma {:induction false} UploadedUnchanged(a: seq<Group>, b: seq<Group>)
    requires |a| == |b|
    requires forall i :: 0 <= i < |a| ==> a[i].uploaded == b[i].uploaded && a[i].uploadedBytes == b[i].uploadedBytes
    ensures CountUploaded(a) == CountUploaded(b) && SumUploaded(a) == SumUploaded(b)
  {
    if a != [] { UploadedUnchanged(a[..|a| - 1], b[..|b| - 1]); }
  }

  lemma BodyKeepsAccounts(f: File, ids: seq<nat>, size: nat)
    requires Accounted(f) && GroupsIn(ids, |f.groups|) && GroupsUploaded(f, ids)
    ensures var g := AfterBody(f, ids, size);
      Accounted(g) && Grown(f, g) && GroupsStored(g, ids)
  {
    hide SumUploaded, SumStored, CountStored, CountUploaded, Percent;
    UploadedUnchanged(f.groups, AfterBody(f, ids, size).groups);
  }

  /** The invariant of the files: what was written is in them. */
  ghost predicate Kept(c: Config, s: State) {
    && (forall f :: 0 <= f < |s.files| ==> Accounted(s.files[f]))
    && (forall item :: item in s.written && item.post < |c.posts| && c.posts[item.post].file < |s.files| ==>
          InItsFile(c, s, item))
  }

  ghost predicate InItsFile(c: Config, s: State, item: Item)
    requires item.post < |c.posts| && c.posts[item.post].file < |s.files|
  {
    var p := c.posts[item.post];
    match item
    case Attributes(_) => GroupsUploaded(s.files[p.file], p.groups)
    case Body(_) => GroupsStored(s.files[p.file], p.groups)
  }

  lemma WriteKeepsAccounts(c: Config, s: State, item: Item)
    requires Kept(c, s) && Writable(c, s, item)
    requires item.Body? ==> Attributes(item.post) in s.written
    ensures var (p, g) := (c.posts[item.post], Written(c, s, item));
      && Accounted(g) && Grown(s.files[p.file], g)
      && match item { case Attributes(_) => GroupsUploaded(g, p.groups) case Body(_) => GroupsStored(g, p.groups) }
  {
    hide Accounted, Grown, GroupsStored, GroupsUploaded;
    var p := c.posts[item.post];
    match item
    case Attributes(_) => AttributesKeepAccounts(s.files[p.file], p.groups, p.size);
    case Body(_) =>
      assert InItsFile(c, s, Attributes(item.post));
      BodyKeepsAccounts(s.files[p.file], p.groups, p.size);
  }

  lemma GrownKeeps(f: File, g: File, ids: seq<nat>)
    requires Grown(f, g)
    ensures (GroupsUploaded(f, ids) ==> GroupsUploaded(g, ids)) && (GroupsStored(f, ids) ==> GroupsStored(g, ids))
  {
  }

  lemma StepKeepsFiles(c: Config, s: State, e: Step)
    requires c.Valid() && Ordered(c, s) && Kept(c, s) && Enabled(c, s, e)
    ensures Kept(c, Apply(c, s, e))
  {
    hide Accounted, GroupsStored, GroupsUploaded, Grown, Written;
    var t := Apply(c, s, e);
    if e == Write {
      var item := s.writer.value;
      WriteKeepsAccounts(c, s, item);
      forall other | other in t.written && other.post < |c.posts| && c.posts[other.post].file < |t.files|
        ensures InItsFile(c, t, other)
      {
        var p := c.posts[other.post];
        if p.file == c.posts[item.post].file { GrownKeeps(s.files[p.file], t.files[p.file], p.groups); }
        if other in s.written { assert InItsFile(c, s, other); }
      }
    } else {
      forall other | other in t.written && other.post < |c.posts| && c.posts[other.post].file < |t.files|
        ensures InItsFile(c, t, other)
      {
        assert InItsFile(c, s, other);
      }
    }
  }

  ghost predicate HasGroups(c: Config) { forall f :: 0 <= f < |c.slices| ==> c.slices[f] > 0 }

  lemma {:induction false} RunsKeep(c: Config, run: seq<Step>)
    requires c.Valid() && HasGroups(c) && Exec(c, run).Some?
    ensures Ordered(c, Exec(c, run).value) && Kept(c, Exec(c, run).value)
  {
    hide Ordered, Kept, Enabled, Apply;
    if run == [] {
      InitOrdered(c);
      InitKept(c);
    } else {
      var before := Exec(c, run[..|run| - 1]).value;
      RunsKeep(c, run[..|run| - 1]);
      StepKeepsOrdered(c, before, run[|run| - 1]);
      StepKeepsFiles(c, before, run[|run| - 1]);
    }
  }

  lemma InitKept(c: Config)
    requires HasGroups(c)
    ensures Kept(c, Init(c))
  {
    hide Accounted;
    forall f | 0 <= f < |c.slices| ensures Accounted(NewFile(c.slices[f])) { NewFileAccounted(c.slices[f]); }
  }

  /** A body item is taken by the writer only when its post's attributes item has been written. */
  lemma AttributesWrittenFirst(c: Config, run: seq<Step>, p: nat)
    requires c.Valid() && HasGroups(c) && Exec(c, run).Some?
    ensures var s := Exec(c, run).value;
      && (s.writer == Some(Body(p)) || Body(p) in s.written ==> Attributes(p) in s.written)
      && (Enabled(c, s, Take(Body(p))) ==> Attributes(p) in s.written)
  {
    RunsKeep(c, run);
    var s := Exec(c, run).value;
    if Enabled(c, s, Take(Body(p))) {
      StepKeepsAhead(c, s, Take(Body(p)));
      assert Apply(c, s, Take(Body(p))).writer == Some(Body(p));
    }
  }

  /** In every reachable state, for every file: stored groups are marked as uploaded, and so is a stored file. */
  lemma StoredImpliesUploaded(c: Config, run: seq<Step>, f: nat)
    requires c.Valid() && HasGroups(c) && Exec(c, run).Some? && f < |c.slices|
    ensures f < |Exec(c, run).value.files|
    ensures var file := Exec(c, run).value.files[f];
      && (forall g :: 0 <= g < |file.groups| && file.groups[g].stored ==> file.groups[g].uploaded)
      && (file.stored ==> file.uploaded)
      && (file.stored <==> AllStored(file.groups)) && (file.uploaded <==> AllUploaded(file.groups))
      && file.storedBytes == SumStored(file.groups) && file.uploadedBytes == SumUploaded(file.groups)
      && (file.storeProgress == 100 <==> file.stored) && (file.uploadProgress == 100 <==> file.uploaded)
  {
    RunsKeep(c, run);
    var file := Exec(c, run).value.files[f];
    assert Accounted(file);
    CountsBounded(file.groups);
    PercentIsFull(CountStored(file.groups), |file.groups|);
    PercentIsFull(CountUploaded(file.groups), |file.groups|);
  }

  // ---------- the sizes ----------

  /** Post p is for group g of file f, and has this size. */
  predicate Names(c: Config, p: nat, f: nat, g: nat, size: nat) {
    p < |c.posts| && c.posts[p].file == f && g in c.posts[p].groups && c.posts[p].size == size
  }

  /** A group has the sizes of posts for it whose items were written, or none. */
  ghost predicate SizedByPosts(c: Config, s: State, f: nat, g: nat, x: Group) {
    && (if x.stored then exists p :: Body(p) in s.written && Names(c, p, f, g, x.storedBytes) else x.storedBytes == 0)
    && (if x.uploaded then exists p :: Attributes(p) in s.written && Names(c, p, f, g, x.uploadedBytes)
        else x.uploadedBytes == 0)
  }

  ghost predicate FileSized(c: Config, s: State, f: nat, gs: seq<Group>) {
    forall g: nat :: g < |gs| ==> SizedByPosts(c, s, f, g, gs[g])
  }

  ghost predicate AllSized(c: Config, s: State) {
    forall f: nat :: f < |s.files| ==> FileSized(c, s, f, s.files[f].groups)
  }

  lemma MoreWritten(c: Config, s: State, t: State, f: nat, g: nat, x: Group)
    requires SizedByPosts(c, s, f, g, x) && s.written <= t.written
    ensures SizedByPosts(c, t, f, g, x)
  {
    if x.stored {
      var p :| Body(p) in s.written && Names(c, p, f, g, x.storedBytes);
      assert Body(p) in t.written;
    }
    if x.uploaded {
      var p :| Attributes(p) in s.written && Names(c, p, f, g, x.uploadedBytes);
      assert Attributes(p) in t.written;
    }
  }

  lemma WriteSizes(c: Config, s: State, t: State, item: Item)
    requires Writable(c, s, item) && t.written == s.written + {item}
    requires FileSized(c, s, c.posts[item.post].file, s.files[c.posts[item.post].file].groups)
    ensures FileSized(c, t, c.posts[item.post].file, Written(c, s, item).groups)
  {
    hide SetAttributes, PostAttributes, SizedByPosts;
    var p := c.posts[item.post];
    var before, after := s.files[p.file].groups, Written(c, s, item).groups;
    if item.Attributes? { PostAttributesMark(before, p.groups, p.size); }
    forall g: nat | g < |after| ensures SizedByPosts(c, t, p.file, g, after[g]) {
      MoreWritten(c, s, t, p.file, g, before[g]);
      if g in p.groups { ItemSizes(c, t, item, g, before[g], after[g]); }
    }
  }

  lemma ItemSizes(c: Config, t: State, item: Item, g: nat, x: Group, y: Group)
    requires item in t.written && item.post < |c.posts| && g in c.posts[item.post].groups
    requires SizedByPosts(c, t, c.posts[item.post].file, g, x)
    requires item.Attributes? ==> y == x.(uploaded := true, uploadedBytes := c.posts[item.post].size)
    requires item.Body? ==> y == x.(stored := true, storedBytes := c.posts[item.post].size)
    ensures SizedByPosts(c, t, c.posts[item.post].file, g, y)
  {
    assert Names(c, item.post, c.posts[item.post].file, g, c.posts[item.post].size);
  }

  lemma StepKeepsSizes(c: Config, s: State, e: Step)
    requires AllSized(c, s) && Enabled(c, s, e)
    ensures AllSized(c, Apply(c, s, e))
  {
    hide SizedByPosts, Written;
    var t := Apply(c, s, e);
    forall f: nat | f < |t.files| ensures FileSized(c, t, f, t.files[f].groups) {
      if e == Write && f == c.posts[s.writer.value.post].file {
        WriteSizes(c, s, t, s.writer.value);
      } else {
        forall g: nat | g < |t.files[f].groups| ensures SizedByPosts(c, t, f, g, t.files[f].groups[g]) {
          MoreWritten(c, s, t, f, g, s.files[f].groups[g]);
        }
      }
    }
  }

  lemma {:induction false} RunsKeepSizes(c: Config, run: seq<Step>)
    requires Exec(c, run).Some?
    ensures AllSized(c, Exec(c, run).value)
  {
    hide AllSized, Enabled, Apply;
    if run == [] {
      InitSized(c);
    } else {
      RunsKeepSizes(c, run[..|run| - 1]);
      StepKeepsSizes(c, Exec(c, run[..|run| - 1]).value, run[|run| - 1]);
    }
  }

  lemma InitSized(c: Config)
    ensures AllSized(c, Init(c))
  {
  }

  /**
   In every reachable state a group that is stored has the size of a post for it whose body was written, one that is
   uploaded the size of a post for it whose attributes were written, and the others have none.
   */
  lemma SizesAreOfPosts(c: Config, run: seq<Step>, f: nat, g: nat)
    requires Exec(c, run).Some? && f < |Exec(c, run).value.files| && g < |Exec(c, run).value.files[f].groups|
    ensures SizedByPosts(c, Exec(c, run).value, f, g, Exec(c, run).value.files[f].groups[g])
  {
    hide SizedByPosts;
    RunsKeepSizes(c, run);
    assert FileSized(c, Exec(c, run).value, f, Exec(c, run).value.files[f].groups);
  }

  // ---------- progress ----------

  function ToPut(put: seq<nat>): int { if put == [] then 0 else 6 * (2 - put[0]) + ToPut(put[1..]) }

  function InQueues(qs: seq<set<Item>>): nat { if qs == [] then 0 else 5 * |qs[0]| + InQueues(qs[1..]) }

  function InSenders(ss: seq<Sender>): nat {
    if ss == [] then 0
    else (if ss[0].Sending? then 4 else if ss[0] == Answered then 1 else 0) + InSenders(ss[1..])
  }

  /** How many steps are left for what is in the pipeline and what can still be put into it. */
  function Work(s: State): int {
    ToPut(s.put) + InQueues(s.first) + InSenders(s.senders) + 2 * |s.second| + if s.writer.Some? then 1 else 0
  }

  lemma {:induction false} ToPutUpdate(put: seq<nat>, p: nat)
    requires p < |put|
    ensures ToPut(put[p := put[p] + 1]) == ToPut(put) - 6
  {
    if p == 0 {
      assert put[p := put[p] + 1][1..] == put[1..];
    } else {
      ToPutUpdate(put[1..], p - 1);
      assert put[p := put[p] + 1][1..] == put[1..][p - 1 := put[p] + 1];
    }
  }

  lemma {:induction false} QueuesUpdate(qs: seq<set<Item>>, k: nat, q: set<Item>)
    requires k < |qs|
    ensures InQueues(qs[k := q]) == InQueues(qs) - 5 * |qs[k]| + 5 * |q|
  {
    if k == 0 {
      assert qs[k := q][1..] == qs[1..];
    } else {
      QueuesUpdate(qs[1..], k - 1, q);
      assert qs[k := q][1..] == qs[1..][k - 1 := q];
    }
  }

  lemma {:induction false} SendersUpdate(ss: seq<Sender>, k: nat, x: Sender)
    requires k < |ss|
    ensures InSenders(ss[k := x]) == InSenders(ss) - InSenders([ss[k]]) + InSenders([x])
  {
    if k == 0 {
      assert ss[k := x][1..] == ss[1..];
    } else {
      SendersUpdate(ss[1..], k - 1, x);
      assert ss[k := x][1..] == ss[1..][k - 1 := x];
    }
  }

  lemma {:induction false} ToPutBounded(put: seq<nat>)
    requires forall p :: 0 <= p < |put| ==> put[p] <= 2
    ensures 0 <= ToPut(put)
  {
    if put != [] { ToPutBounded(put[1..]); }
  }

  lemma StepUsesWork(c: Config, s: State, e: Step)
    requires Enabled(c, s, e)
    ensures Work(Apply(c, s, e)) < Work(s)
  {
    hide Written;
    var t := Apply(c, s, e);
    match e
    case Put(p) =>
      ToPutUpdate(s.put, p);
      QueuesUpdate(s.first, c.posts[p].worker, t.first[c.posts[p].worker]);
    case Get(k, item) =>
      QueuesUpdate(s.first, k, t.first[k]);
      SendersUpdate(s.senders, k, Sending(item));
    case Deliver(k) => SendersUpdate(s.senders, k, Answered);
    case Reply(k) => SendersUpdate(s.senders, k, Idle);
    case _ =>
  }

  lemma {:induction false} InitWork(c: Config)
    ensures Work(Init(c)) == 12 * |c.posts|
  {
    NothingPut(|c.posts|);
    NothingQueued(c.workers);
  }

  lemma {:induction false} NothingPut(n: nat)
    ensures ToPut(seq(n, _ => 0)) == 12 * n
  {
    if n > 0 {
      NothingPut(n - 1);
      assert seq(n, _ => 0)[1..] == seq(n - 1, _ => 0);
    }
  }

  function NoItems(n: nat): seq<set<Item>> { seq(n, _ => {}) }

  lemma {:induction false} NothingQueued(n: nat)
    ensures InQueues(NoItems(n)) == 0 && InSenders(seq(n, _ => Idle)) == 0
  {
    if n > 0 {
      NothingQueued(n - 1);
      assert NoItems(n)[1..] == NoItems(n - 1);
      assert seq(n, _ => Idle)[1..] == seq(n - 1, _ => Idle);
    }
  }

  /** No run is longer than 12 steps for each post. */
  lemma {:induction false} RunsAreBounded(c: Config, run: seq<Step>)
    requires c.Valid() && HasGroups(c) && Exec(c, run).Some?
    ensures 0 <= Work(Exec(c, run).value) <= 12 * |c.posts| - |run|
  {
    hide Apply, Enabled, Work, Ordered, Kept, Init;
    if run == [] {
      InitWork(c);
    } else {
      RunsAreBounded(c, run[..|run| - 1]);
      StepUsesWork(c, Exec(c, run[..|run| - 1]).value, run[|run| - 1]);
    }
    RunsKeep(c, run);
    WorkIsNat(c, Exec(c, run).value);
  }

  lemma WorkIsNat(c: Config, s: State)
    requires Ordered(c, s)
    ensures 0 <= Work(s)
  {
    ToPutBounded(s.put);
  }

  lemma {:induction false} LeastExists(c: Config, q: set<Item>) returns (least: Item)
    requires q != {}
    ensures Least(c, q, least)
    decreases |q|
  {
    var item :| item in q;
    if q == {item} { return item; }
    var rest := q - {item};
    assert q == rest + {item} && rest != {};
    var other := LeastExists(c, rest);
    least := if Priority(c, item) <= Priority(c, other) then item else other;
  }

  /** Nothing can happen but that a new post begins. */
  ghost predicate Quiet(c: Config, s: State) {
    forall e :: Enabled(c, s, e) ==> e.Put? && s.put[e.post] == 0
  }

  lemma QuietIsEmpty(c: Config, s: State)
    requires c.Valid() && Ordered(c, s) && Quiet(c, s)
    ensures s.second == {} && s.writer == None
    ensures forall k :: 0 <= k < c.workers ==> s.first[k] == {} && s.senders[k] == Idle
    ensures forall p :: 0 <= p < |c.posts| ==> s.put[p] != 1
  {
    if s.writer.Some? {
      assert Beyond(s, s.writer.value) && WasPut(c, s, s.writer.value);
      var p := c.posts[s.writer.value.post];
      assert c.ValidPost(p) && p.groups[0] < |s.files[p.file].groups|;
      assert Enabled(c, s, Write);
    } else if s.second != {} {
      var item := LeastExists(c, s.second);
      assert Enabled(c, s, Take(item));
    }
    forall k | 0 <= k < c.workers ensures s.first[k] == {} && s.senders[k] == Idle {
      assert !Enabled(c, s, Deliver(k)) && !Enabled(c, s, Reply(k));
      if s.first[k] != {} {
        var item := LeastExists(c, s.first[k]);
        assert Enabled(c, s, Get(k, item));
      }
    }
    forall p | 0 <= p < |c.posts| ensures s.put[p] != 1 {
      assert c.ValidPost(c.posts[p]) && (Enabled(c, s, Put(p)) <==> s.put[p] < 2);
    }
  }

  /** When the pipeline comes to rest, all groups of every post that was begun are uploaded and stored. */
  lemma QuietMeansWritten(c: Config, run: seq<Step>, p: nat)
    requires c.Valid() && HasGroups(c) && Exec(c, run).Some? && Quiet(c, Exec(c, run).value)
    requires p < |c.posts| && p < |Exec(c, run).value.put| && Exec(c, run).value.put[p] > 0
    ensures c.posts[p].file < |Exec(c, run).value.files|
    ensures var file := Exec(c, run).value.files[c.posts[p].file];
      GroupsUploaded(file, c.posts[p].groups) && GroupsStored(file, c.posts[p].groups)
  {
    hide Quiet, Accounted, GroupsStored, GroupsUploaded;
    RunsKeep(c, run);
    var s := Exec(c, run).value;
    QuietIsEmpty(c, s);
    assert c.ValidPost(c.posts[p]);
    assert Somewhere(s, c.posts[p].worker, Attributes(p)) && Somewhere(s, c.posts[p].worker, Body(p));
    assert InItsFile(c, s, Attributes(p)) && InItsFile(c, s, Body(p));
  }
}
