/** The data file that the writer keeps: flags and byte counts for each group and for the whole file. */
module StoredFiles {

  datatype Group = Group(uploaded: bool, uploadedBytes: nat, stored: bool, storedBytes: nat)

  datatype File = File(groups: seq<Group>, uploaded: bool, uploadedBytes: nat, uploadProgress: nat,
                       stored: bool, storedBytes: nat, storeProgress: nat)

  const NEW_GROUP := Group(false, 0, false, 0)

  function NewFile(slices: nat): File {
    File(seq(slices, _ => NEW_GROUP), false, 0, 0, false, 0, 0)
  }

  /** An attribute of a group, as a post sends it. */
  datatype Attribute = Uploaded(group: nat) | UploadedBytes(group: nat, bytes: nat)

  // ---------- totals ----------

  function CountUploaded(gs: seq<Group>): nat {
    if gs == [] then 0 else CountUploaded(gs[..|gs| - 1]) + if gs[|gs| - 1].uploaded then 1 else 0
  }

  function SumUploaded(gs: seq<Group>): nat {
    if gs == [] then 0 else SumUploaded(gs[..|gs| - 1]) + gs[|gs| - 1].uploadedBytes
  }

  function CountStored(gs: seq<Group>): nat {
    if gs == [] then 0 else CountStored(gs[..|gs| - 1]) + if gs[|gs| - 1].stored then 1 else 0
  }

  function SumStored(gs: seq<Group>): nat {
    if gs == [] then 0 else SumStored(gs[..|gs| - 1]) + gs[|gs| - 1].storedBytes
  }

  predicate AllUploaded(gs: seq<Group>) { forall i :: 0 <= i < |gs| ==> gs[i].uploaded }

  predicate AllStored(gs: seq<Group>) { forall i :: 0 <= i < |gs| ==> gs[i].stored }

  function Percent(part: nat, whole: nat): nat
    requires whole > 0
  {
    part * 100 / whole
  }

  lemma {:induction false} CountsBounded(gs: seq<Group>)
    ensures CountStored(gs) <= |gs| && (CountStored(gs) == |gs| <==> AllStored(gs))
    ensures CountUploaded(gs) <= |gs| && (CountUploaded(gs) == |gs| <==> AllUploaded(gs))
  {
    if gs != [] {
      var n := |gs| - 1;
      CountsBounded(gs[..n]);
      assert forall i :: 0 <= i < n ==> gs[..n][i] == gs[i];
      assert AllStored(gs) <==> AllStored(gs[..n]) && gs[n].stored;
      assert AllUploaded(gs) <==> AllUploaded(gs[..n]) && gs[n].uploaded;
    }
  }

  lemma Quotient(x: nat, y: nat)
    requires y > 0
    ensures x / y * y <= x < x / y * y + y
  {
  }

  lemma Cancel(a: nat, b: nat, y: nat)
    requires a * y < b * y
    ensures a < b
  {
    assert b <= a ==> b * y <= a * y;
  }

  lemma PercentIsFull(part: nat, whole: nat)
    requires part <= whole && whole > 0
    ensures Percent(part, whole) <= 100 && (Percent(part, whole) == 100 <==> part == whole)
    ensures Percent(part, whole) * whole <= 100 * part < (Percent(part, whole) + 1) * whole
  {
    var q := Percent(part, whole);
    Quotient(part * 100, whole);
    assert q * whole <= 100 * part < q * whole + whole;
    hide Percent;
    assert (q + 1) * whole == q * whole + whole;
    if part < whole {
      Cancel(q, 100, whole);
    } else {
      Cancel(q, 101, whole);
      Cancel(100, q + 1, whole);
    }
  }

  /** The byte counts are sums: a group that changes changes them by its own count, and new groups count nothing. */
  lemma {:induction false} SumsFollow(gs: seq<Group>, i: nat, g: Group)
    requires i < |gs|
    ensures SumStored(gs[i := g]) + gs[i].storedBytes == SumStored(gs) + g.storedBytes
    ensures SumUploaded(gs[i := g]) + gs[i].uploadedBytes == SumUploaded(gs) + g.uploadedBytes
    ensures CountStored(gs[i := g]) + (if gs[i].stored then 1 else 0) == CountStored(gs) + if g.stored then 1 else 0
    ensures CountUploaded(gs[i := g]) + (if gs[i].uploaded then 1 else 0)
            == CountUploaded(gs) + if g.uploaded then 1 else 0
  {
    var n := |gs| - 1;
    if i == n {
      assert gs[i := g][..n] == gs[..n];
    } else {
      SumsFollow(gs[..n], i, g);
      assert gs[i := g][..n] == gs[..n][i := g];
    }
  }

  lemma {:induction false} NewFileCountsNothing(slices: nat)
    ensures var gs := NewFile(slices).groups;
      |gs| == slices && SumStored(gs) == 0 && SumUploaded(gs) == 0 && CountStored(gs) == 0 && CountUploaded(gs) == 0
  {
    if slices > 0 {
      NewFileCountsNothing(slices - 1);
      assert NewFile(slices).groups[..slices - 1] == NewFile(slices - 1).groups;
    }
  }

  /** The totals of a file whose groups have all been stored by parts of one size. */
  lemma {:induction false} FullFileTotals(gs: seq<Group>, size: nat)
    requires forall i :: 0 <= i < |gs| ==> gs[i].storedBytes == size && gs[i].uploadedBytes == size
    ensures SumStored(gs) == SumUploaded(gs) == |gs| * size
  {
    if gs != [] {
      FullFileTotals(gs[..|gs| - 1], size);
      assert (|gs| - 1) * size + size == |gs| * size;
    }
  }

  // ---------- what the two kinds of item do ----------

  predicate AttributesIn(attributes: seq<Attribute>, groups: nat) {
    forall i :: 0 <= i < |attributes| ==> attributes[i].group < groups
  }

  predicate GroupsIn(ids: seq<nat>, groups: nat) { forall i :: 0 <= i < |ids| ==> ids[i] < groups }

  function SetAttribute(gs: seq<Group>, a: Attribute): (r: seq<Group>)
    requires a.group < |gs|
    ensures |r| == |gs|
  {
    match a
    case Uploaded(g) => gs[g := gs[g].(uploaded := true)]
    case UploadedBytes(g, n) => gs[g := gs[g].(uploadedBytes := n)]
  }

  function SetAttributes(gs: seq<Group>, attributes: seq<Attribute>): (r: seq<Group>)
    requires AttributesIn(attributes, |gs|)
    ensures |r| == |gs|
  {
    if attributes == [] then gs
    else
      var n := |attributes| - 1;
      SetAttribute(SetAttributes(gs, attributes[..n]), attributes[n])
  }

  function AfterAttributes(f: File, attributes: seq<Attribute>): File
    requires f.groups != [] && AttributesIn(attributes, |f.groups|)
  {
    var gs := SetAttributes(f.groups, attributes);
    f.(groups := gs, uploaded := f.uploaded || AllUploaded(gs), uploadedBytes := SumUploaded(gs),
       uploadProgress := Percent(CountUploaded(gs), |gs|))
  }

  function StoreGroups(gs: seq<Group>, ids: seq<nat>, size: nat): (r: seq<Group>)
    requires GroupsIn(ids, |gs|)
    ensures |r| == |gs|
  {
    seq(|gs|, i requires 0 <= i < |gs| => if i in ids then gs[i].(stored := true, storedBytes := size) else gs[i])
  }

  function AfterBody(f: File, ids: seq<nat>, size: nat): File
    requires f.groups != [] && GroupsIn(ids, |f.groups|)
  {
    var gs := StoreGroups(f.groups, ids, size);
    f.(groups := gs, stored := f.stored || AllStored(gs), storedBytes := SumStored(gs),
       storeProgress := Percent(CountStored(gs), |gs|))
  }

  /** What a post puts into its attributes item. */
  function PostAttributes(ids: seq<nat>, size: nat): seq<Attribute> {
    if ids == [] then []
    else PostAttributes(ids[..|ids| - 1], size) + [Uploaded(ids[|ids| - 1]), UploadedBytes(ids[|ids| - 1], size)]
  }

  lemma {:induction false} PostAttributesIn(ids: seq<nat>, size: nat, groups: nat)
    requires GroupsIn(ids, groups)
    ensures AttributesIn(PostAttributes(ids, size), groups)
  {
    if ids != [] { PostAttributesIn(ids[..|ids| - 1], size, groups); }
  }

  lemma SetTwo(gs: seq<Group>, before: seq<Attribute>, g: nat, size: nat)
    requires AttributesIn(before, |gs|) && g < |gs|
    ensures var all := before + [Uploaded(g), UploadedBytes(g, size)];
      && AttributesIn(all, |gs|)
      && var r := SetAttributes(gs, before);
         SetAttributes(gs, all) == r[g := r[g].(uploaded := true, uploadedBytes := size)]
  {
    var one := before + [Uploaded(g)];
    var all := before + [Uploaded(g), UploadedBytes(g, size)];
    assert one[..|before|] == before && all[..|all| - 1] == one;
    assert SetAttributes(gs, one) == SetAttribute(SetAttributes(gs, before), Uploaded(g));
  }

  /** A post's attributes item marks its groups as uploaded, and leaves all else alone. */
  lemma {:induction false} PostAttributesMark(gs: seq<Group>, ids: seq<nat>, size: nat)
    requires GroupsIn(ids, |gs|)
    ensures AttributesIn(PostAttributes(ids, size), |gs|)
    ensures var r := SetAttributes(gs, PostAttributes(ids, size));
      forall i :: 0 <= i < |gs| ==>
        r[i] == if i in ids then gs[i].(uploaded := true, uploadedBytes := size) else gs[i]
  {
    hide SetAttributes;
    PostAttributesIn(ids, size, |gs|);
    if ids == [] {
      assert SetAttributes(gs, []) == gs by { SetNothing(gs); }
    } else {
      var n := |ids| - 1;
      PostAttributesMark(gs, ids[..n], size);
      SetTwo(gs, PostAttributes(ids[..n], size), ids[n], size);
      assert ids == ids[..n] + [ids[n]];
    }
  }

  lemma SetNothing(gs: seq<Group>)
    ensures SetAttributes(gs, []) == gs
  {
  }

  // ---------- the writer's loops ----------

  class StoredFile {
    var groups: seq<Group>
    var uploaded: bool
    var uploadedBytes: nat
    var uploadProgress: nat
    var stored: bool
    var storedBytes: nat
    var storeProgress: nat

    constructor (slices: nat)
      ensures Contents() == NewFile(slices)
    {
      groups := seq(slices, _ => NEW_GROUP);
      uploaded, uploadedBytes, uploadProgress := false, 0, 0;
      stored, storedBytes, storeProgress := false, 0, 0;
    }

    ghost function Contents(): File
      reads this
    {
      File(groups, uploaded, uploadedBytes, uploadProgress, stored, storedBytes, storeProgress)
    }

    method SetGroupAttributes(attributes: seq<Attribute>)
      requires AttributesIn(attributes, |groups|)
      modifies `groups
      ensures groups == SetAttributes(old(groups), attributes)
    {
      var i := 0;
      while i < |attributes|
        invariant i <= |attributes| && |groups| == |old(groups)|
        invariant groups == SetAttributes(old(groups), attributes[..i])
      {
        assert attributes[..i + 1][..i] == attributes[..i];
        match attributes[i] {
          case Uploaded(g) => groups := groups[g := groups[g].(uploaded := true)];
          case UploadedBytes(g, n) => groups := groups[g := groups[g].(uploadedBytes := n)];
        }
        i := i + 1;
      }
      assert attributes[..i] == attributes;
    }

    method WriteAttributesItem(attributes: seq<Attribute>)
      requires groups != [] && AttributesIn(attributes, |groups|)
      modifies this
      ensures Contents() == AfterAttributes(old(Contents()), attributes)
    {
      hide SetAttributes;
      SetGroupAttributes(attributes);
      var all, bytes, progress, count := true, 0, 0, 0;
      while count < |groups|
        invariant count <= |groups| && all == AllUploaded(groups[..count])
        invariant bytes == SumUploaded(groups[..count]) && progress == CountUploaded(groups[..count])
      {
        assert groups[..count + 1][..count] == groups[..count];
        count := count + 1;
        progress := progress + if groups[count - 1].uploaded then 1 else 0;
        all := all && groups[count - 1].uploaded;
        bytes := bytes + groups[count - 1].uploadedBytes;
      }
      assert groups[..count] == groups;
      uploadedBytes := bytes;
      uploadProgress := Percent(progress, count);
      if all && !uploaded { uploaded := true; }
    }

    method StoreAll(ids: seq<nat>, size: nat)
      requires GroupsIn(ids, |groups|)
      modifies `groups
      ensures groups == StoreGroups(old(groups), ids, size)
    {
      var i := 0;
      while i < |ids|
        invariant i <= |ids| && |groups| == |old(groups)|
        invariant forall j :: 0 <= j < |groups| ==>
          groups[j] == if j in ids[..i] then old(groups)[j].(stored := true, storedBytes := size) else old(groups)[j]
      {
        var g := ids[i];
        assert ids[..i + 1] == ids[..i] + [g];
        groups := groups[g := groups[g].(stored := true, storedBytes := size)];
        i := i + 1;
      }
      assert ids[..i] == ids;
    }

    method WriteBodyItem(ids: seq<nat>, size: nat)
      requires groups != [] && GroupsIn(ids, |groups|)
      modifies this
      ensures Contents() == AfterBody(old(Contents()), ids, size)
    {
      hide StoreGroups;
      StoreAll(ids, size);
      var all, bytes, progress, count := true, 0, 0, 0;
      while count < |groups|
        invariant count <= |groups| && all == AllStored(groups[..count])
        invariant bytes == SumStored(groups[..count]) && progress == CountStored(groups[..count])
      {
        assert groups[..count + 1][..count] == groups[..count];
        count := count + 1;
        progress := progress + if groups[count - 1].stored then 1 else 0;
        all := all && groups[count - 1].stored;
        bytes := bytes + groups[count - 1].storedBytes;
      }
      assert groups[..count] == groups;
      storedBytes := bytes;
      storeProgress := Percent(progress, count);
      if all { stored := true; }
    }
  }

  /** The list that `post_value` builds. */
  method BuildAttributes(ids: seq<nat>, size: nat) returns (attributes: seq<Attribute>)
    ensures attributes == PostAttributes(ids, size)
  {
    attributes := [];
    var i := 0;
    while i < |ids|
      invariant i <= |ids| && attributes == PostAttributes(ids[..i], size)
    {
      assert ids[..i + 1][..i] == ids[..i];
      attributes := attributes + [Uploaded(ids[i]), UploadedBytes(ids[i], size)];
      i := i + 1;
    }
    assert ids[..i] == ids;
  }
}
