/** Request bodies and the three-dimensional arrays that they are stored in. */
module Bodies {
  import opened Datasets

  // ---------- positions ----------

  /** The sample at row r, column c of image e, when images of h rows and w columns follow each other. */
  function Position(h: nat, w: nat, e: nat, r: nat, c: nat): nat { (e * h + r) * w + c }

  lemma PositionInRange(h: nat, w: nat, n: nat, e: nat, r: nat, c: nat)
    requires e < n && r < h && c < w
    ensures Position(h, w, e, r, c) < n * h * w
  {
    Below(e, h, r, n);
    Below(e * h + r, w, c, n * h);
  }

  lemma Below(a: nat, b: nat, x: nat, n: nat)
    requires a < n && x < b
    ensures a * b + x < n * b
  {
    assert (a + 1) * b <= n * b;
  }

  /** The image, row and column at a position. */
  function Place(h: nat, w: nat, k: nat): (nat, nat, nat)
    requires h > 0 && w > 0
  {
    (k / w / h, k / w % h, k % w)
  }

  /** Every position belongs to exactly one image, row and column: `Place` and `Position` are inverse. */
  lemma PositionsCover(h: nat, w: nat, n: nat, k: nat)
    requires k < n * h * w && h > 0 && w > 0
    ensures var (e, r, c) := Place(h, w, k);
      c < w && r < h && e < n && Position(h, w, e, r, c) == k
  {
    var q := k / w;
    assert k == q * w + k % w;
    assert q == q / h * h + q % h;
    if q / h >= n {
      Scale(n, q / h, h);
      Scale(n * h, q, w);
      assert false;
    }
  }

  lemma Scale(a: nat, b: nat, x: nat)
    requires a <= b
    ensures a * x <= b * x
  {
  }

  lemma PositionsDiffer(h: nat, w: nat, e: nat, r: nat, c: nat)
    requires r < h && c < w
    ensures Place(h, w, Position(h, w, e, r, c)) == (e, r, c)
  {
    Divide(e * h + r, w, c);
    Divide(e, h, r);
  }

  lemma Divide(a: nat, b: nat, x: nat)
    requires x < b
    ensures (a * b + x) / b == a && (a * b + x) % b == x
  {
    var q, m := (a * b + x) / b, (a * b + x) % b;
    assert q * b + m == a * b + x;
    if q < a { Scale(q + 1, a, b); }
    if a < q { Scale(a + 1, q, b); }
  }

  /** The place of row r, column c in one image. */
  function Index(w: nat, r: nat, c: nat): nat { r * w + c }

  lemma IndexInRange(h: nat, w: nat, r: nat, c: nat)
    requires r < h && c < w
    ensures Index(w, r, c) < h * w
  {
    Below(r, w, c, h);
  }

  lemma Flatten(h: nat, w: nat, e: nat, r: nat, c: nat)
    ensures e * (h * w) + Index(w, r, c) == Position(h, w, e, r, c)
  {
    assert e * (h * w) == (e * h) * w;
    assert (e * h + r) * w == (e * h) * w + r * w;
  }

  // ---------- samples ----------

  /** Sample k of a body whose samples have `size` bytes, if the body is long enough. */
  function Sample(body: Bytes, size: nat, k: nat): Bytes {
    if k * size + size <= |body| then body[k * size..k * size + size] else []
  }

  lemma SampleInRange(size: nat, n: nat, k: nat)
    requires k < n
    ensures k * size + size <= n * size
  {
    Scale(k + 1, n, size);
  }

  lemma SliceOfSlice(s: Bytes, a: nat, b: nat, x: nat, y: nat)
    requires a <= b <= |s| && x <= y <= b - a
    ensures s[a..b][x..y] == s[a + x..a + y]
  {
    assert |s[a..b][x..y]| == |s[a + x..a + y]|;
    assert forall i :: 0 <= i < y - x ==> s[a..b][x..y][i] == s[a + x + i] == s[a + x..a + y][i];
  }

  /** A sample of part p, of `count` samples, is a sample of the whole. */
  lemma SampleOfPart(body: Bytes, size: nat, p: nat, count: nat, k: nat)
    requires k < count && (p + 1) * (count * size) <= |body|
    ensures p * (count * size) <= (p + 1) * (count * size)
    ensures Sample(body[p * (count * size)..(p + 1) * (count * size)], size, k) == Sample(body, size, p * count + k)
  {
    var a, b, x, q := p * (count * size), (p + 1) * (count * size), k * size, p * count + k;
    assert b == a + count * size;
    Scale(0, k, size);
    SampleInRange(size, count, k);
    SliceOfSlice(body, a, b, x, x + size);
    assert a == (p * count) * size;
    assert q * size == a + x;
  }

  /** `np.frombuffer`. */
  method FromBuffer(part: Bytes, size: nat, count: nat) returns (vector: array<Bytes>)
    requires count * size <= |part|
    ensures fresh(vector) && vector.Length == count
    ensures forall k: nat :: k < count ==> vector[k] == Sample(part, size, k)
  {
    vector := new Bytes[count];
    var i := 0;
    while i < count
      invariant i <= count
      invariant forall k: nat :: k < i ==> vector[k] == Sample(part, size, k)
    {
      SampleInRange(size, count, i);
      vector[i] := part[i * size..i * size + size];
      i := i + 1;
    }
  }

  // ---------- groups ----------

  /** The images of a body that begin at image `first`, as a slice array of rows, columns and echos. */
  ghost predicate HoldsFrom(slice: array3<Bytes>, body: Bytes, size: nat, first: nat)
    reads slice
  {
    forall r: nat, c: nat, e: nat :: r < slice.Length0 && c < slice.Length1 && e < slice.Length2 ==>
      slice[r, c, e] == Sample(body, size, Position(slice.Length0, slice.Length1, first + e, r, c))
  }

  /** The samples of one image. */
  method ReadImage(body: Bytes, size: nat, h: nat, w: nat, p: nat, partSize: nat) returns (vector: array<Bytes>)
    requires partSize == h * w * size && (p + 1) * partSize <= |body|
    ensures fresh(vector) && vector.Length == h * w
    ensures forall r: nat, c: nat :: r < h && c < w ==>
      Index(w, r, c) < h * w && vector[Index(w, r, c)] == Sample(body, size, Position(h, w, p, r, c))
  {
    var n := h * w;
    assert p * partSize <= (p + 1) * partSize && (p + 1) * partSize - p * partSize == n * size;
    var part := body[p * partSize..(p + 1) * partSize];
    vector := FromBuffer(part, size, n);
    hide Sample, Position, Index;
    forall r: nat, c: nat | r < h && c < w
      ensures Index(w, r, c) < h * w && vector[Index(w, r, c)] == Sample(body, size, Position(h, w, p, r, c))
    {
      IndexInRange(h, w, r, c);
      SampleOfPart(body, size, p, n, Index(w, r, c));
      Flatten(h, w, p, r, c);
    }
  }

  method FillImage(slice: array3<Bytes>, body: Bytes, size: nat, first: nat, e: nat, partSize: nat)
    requires partSize == slice.Length0 * slice.Length1 * size
    requires e < slice.Length2 && (first + e + 1) * partSize <= |body|
    modifies slice
    ensures forall r: nat, c: nat :: r < slice.Length0 && c < slice.Length1 ==>
      slice[r, c, e] == Sample(body, size, Position(slice.Length0, slice.Length1, first + e, r, c))
    ensures forall r: nat, c: nat, i: nat :: r < slice.Length0 && c < slice.Length1 && i < slice.Length2 && i != e ==>
      slice[r, c, i] == old(slice[r, c, i])
  {
    hide Sample, Position, Index;
    var w := slice.Length1;
    var vector := ReadImage(body, size, slice.Length0, w, first + e, partSize);
    forall r: nat, c: nat | r < slice.Length0 && c < slice.Length1 {
      slice[r, c, e] := vector[Index(w, r, c)];
    }
  }

  method FillSlice(slice: array3<Bytes>, body: Bytes, size: nat, first: nat, partSize: nat)
    requires partSize == slice.Length0 * slice.Length1 * size
    requires (first + slice.Length2) * partSize <= |body|
    modifies slice
    ensures HoldsFrom(slice, body, size, first)
  {
    var e: nat := 0;
    while e < slice.Length2
      invariant e <= slice.Length2
      invariant forall r: nat, c: nat, i: nat :: r < slice.Length0 && c < slice.Length1 && i < e ==>
        slice[r, c, i] == Sample(body, size, Position(slice.Length0, slice.Length1, first + i, r, c))
    {
      hide Sample, Position;
      Scale(first + e + 1, first + slice.Length2, partSize);
      FillImage(slice, body, size, first, e, partSize);
      e := e + 1;
    }
  }

  /** A group of the file: its two datasets, of one shape, and what says that they are there. */
  class Group {
    const itemSize: nat
    const magnitude: array3<Bytes>
    const phase: array3<Bytes>
    var stored: bool
    var storedBytes: nat

    predicate Valid() {
      && itemSize > 0 && magnitude != phase
      && magnitude.Length0 == phase.Length0 && magnitude.Length1 == phase.Length1 && magnitude.Length2 == phase.Length2
    }

    function Rows(): nat { magnitude.Length0 }

    function Columns(): nat { magnitude.Length1 }

    function Echos(): nat { magnitude.Length2 }

    function ExpectedSize(): nat { Rows() * Columns() * Echos() * itemSize * 2 }

    /** The body is stored: the first half as magnitudes, the second half as phases. */
    ghost predicate Holds(body: Bytes)
      reads this, magnitude, phase
    {
      && HoldsFrom(magnitude, body, itemSize, 0) && HoldsFrom(phase, body, itemSize, Echos())
      && stored && storedBytes == |body|
    }
  }

  /** `group['...'][:] = slice_array` */
  method Assign(dataset: array3<Bytes>, slice: array3<Bytes>, ghost body: Bytes, ghost size: nat, ghost first: nat)
    requires dataset != slice && HoldsFrom(slice, body, size, first)
    requires dataset.Length0 == slice.Length0 && dataset.Length1 == slice.Length1 && dataset.Length2 == slice.Length2
    modifies dataset
    ensures HoldsFrom(dataset, body, size, first)
  {
    hide Sample, Position;
    forall r, c, e | 0 <= r < slice.Length0 && 0 <= c < slice.Length1 && 0 <= e < slice.Length2 {
      dataset[r, c, e] := slice[r, c, e];
    }
  }

  /** False, with nothing changed, when the body has the wrong size; the division fails when there is no echo. */
  method WriteBodyToGroup(group: Group, body: Bytes) returns (ok: bool)
    requires group.Valid()
    modifies group, group.magnitude, group.phase
    ensures ok <==> |body| == group.ExpectedSize() && group.Echos() > 0
    ensures ok ==> group.Holds(body)
    ensures !ok ==> unchanged(group, group.magnitude, group.phase)
  {
    var (h, w, echos, size) := (group.Rows(), group.Columns(), group.Echos(), group.itemSize);
    if |body| != group.ExpectedSize() { return false; }
    if echos == 0 { return false; }
    var partSize := |body| / (2 * echos);
    PartSize(h, w, echos, size, |body|);
    var slice := new Bytes[h, w, echos];
    FillSlice(slice, body, size, 0, partSize);
    Assign(group.magnitude, slice, body, size, 0);
    FillSlice(slice, body, size, echos, partSize);
    Assign(group.phase, slice, body, size, echos);
    group.stored := true;
    group.storedBytes := |body|;
    return true;
  }

  lemma PartSize(h: nat, w: nat, echos: nat, size: nat, n: nat)
    requires n == h * w * echos * size * 2 && echos > 0
    ensures n / (2 * echos) == h * w * size
    ensures (0 + echos) * (h * w * size) <= n && (echos + echos) * (h * w * size) <= n
  {
    var p := h * w * size;
    assert n == p * (2 * echos) + 0 by {
      assert h * w * echos * size == (h * w * size) * echos;
    }
    Divide(p, 2 * echos, 0);
    assert (echos + echos) * p == n;
    Scale(echos, echos + echos, p);
  }

  /** Images follow each other, row by row. */
  lemma PositionInFull(h: nat, w: nat, e: nat, r: nat, c: nat)
    ensures Position(h, w, e, r, c) == e * h * w + r * w + c
  {
  }

  /** Where the bytes of row r, column c of image e begin. */
  function FirstByte(h: nat, w: nat, size: nat, e: nat, r: nat, c: nat): nat { (e * h * w + r * w + c) * size }

  /** These bytes are in the body from byte m on. */
  predicate IsAt(bytes: Bytes, body: Bytes, m: nat) { m + |bytes| <= |body| && body[m..m + |bytes|] == bytes }

  /**
   Where the bytes of a stored body are: those of the magnitude at row r, column c of echo e are in image e, and those
   of the phase in image e behind all magnitudes.
   */
  lemma StoredInFull(group: Group, body: Bytes, r: nat, c: nat, e: nat)
    requires group.Valid() && |body| == group.ExpectedSize() && group.Holds(body)
    requires r < group.Rows() && c < group.Columns() && e < group.Echos()
    ensures var (h, w, n, size) := (group.Rows(), group.Columns(), group.Echos(), group.itemSize);
      && IsAt(group.magnitude[r, c, e], body, FirstByte(h, w, size, e, r, c))
      && IsAt(group.phase[r, c, e], body, FirstByte(h, w, size, n + e, r, c))
      && |group.magnitude[r, c, e]| == |group.phase[r, c, e]| == size
    ensures |body| == group.Rows() * group.Columns() * group.Echos() * group.itemSize * 2
    ensures group.stored && group.storedBytes == |body|
  {
    hide Position, Sample, IsAt, FirstByte;
    var (h, w, n, size) := (group.Rows(), group.Columns(), group.Echos(), group.itemSize);
    SameProduct(h, w, n, size);
    assert group.magnitude[r, c, e] == Sample(body, size, Position(h, w, 0 + e, r, c));
    assert group.phase[r, c, e] == Sample(body, size, Position(h, w, n + e, r, c));
    SampleAt(body, size, h, w, 2 * n, e, r, c);
    SampleAt(body, size, h, w, 2 * n, n + e, r, c);
  }

  lemma SampleAt(body: Bytes, size: nat, h: nat, w: nat, n: nat, e: nat, r: nat, c: nat)
    requires |body| == n * h * w * size && e < n && r < h && c < w
    ensures var bytes := Sample(body, size, Position(h, w, e, r, c));
      |bytes| == size && IsAt(bytes, body, FirstByte(h, w, size, e, r, c))
  {
    hide Position, FirstByte;
    var k := Position(h, w, e, r, c);
    FirstByteOfSample(h, w, size, e, r, c);
    PositionInRange(h, w, n, e, r, c);
    SampleInRange(size, n * h * w, k);
  }

  lemma FirstByteOfSample(h: nat, w: nat, size: nat, e: nat, r: nat, c: nat)
    ensures FirstByte(h, w, size, e, r, c) == Position(h, w, e, r, c) * size
  {
    hide Position;
    PositionInFull(h, w, e, r, c);
  }

  // ---------- packing again ----------

  /** Sample k of a group packed in the order of a body. */
  ghost function PackedAt(group: Group, k: nat): Bytes
    requires group.Valid() && group.Rows() > 0 && group.Columns() > 0
    reads group.magnitude, group.phase
  {
    var (e, r, c) := Place(group.Rows(), group.Columns(), k);
    if r >= group.Rows() || c >= group.Columns() || e >= 2 * group.Echos() then []
    else if e < group.Echos() then group.magnitude[r, c, e]
    else group.phase[r, c, e - group.Echos()]
  }

  ghost function Packed(group: Group, n: nat): Bytes
    requires group.Valid() && n <= 2 * group.Echos() * group.Rows() * group.Columns()
    requires n > 0 ==> group.Rows() > 0 && group.Columns() > 0
    reads group.magnitude, group.phase
  {
    if n == 0 then [] else Packed(group, n - 1) + PackedAt(group, n - 1)
  }

  lemma PackedAtIsSample(group: Group, body: Bytes, k: nat)
    requires group.Valid() && group.Holds(body) && k < 2 * group.Echos() * group.Rows() * group.Columns()
    requires group.Rows() > 0 && group.Columns() > 0
    ensures PackedAt(group, k) == Sample(body, group.itemSize, k)
  {
    hide Sample, Position, Place;
    var (h, w, echos) := (group.Rows(), group.Columns(), group.Echos());
    PositionsCover(h, w, 2 * echos, k);
    var (e, r, c) := Place(h, w, k);
    if e < echos {
      assert group.magnitude[r, c, e] == Sample(body, group.itemSize, Position(h, w, 0 + e, r, c));
    } else {
      var i: nat := e - echos;
      assert group.phase[r, c, i] == Sample(body, group.itemSize, Position(h, w, echos + i, r, c));
    }
  }

  lemma {:induction false} PackedIsPrefix(group: Group, body: Bytes, n: nat)
    requires group.Valid() && group.Holds(body) && n <= 2 * group.Echos() * group.Rows() * group.Columns()
    requires n > 0 ==> group.Rows() > 0 && group.Columns() > 0
    requires n * group.itemSize <= |body|
    ensures Packed(group, n) == body[..n * group.itemSize]
  {
    hide PackedAt;
    if n > 0 {
      var size := group.itemSize;
      var m := (n - 1) * size;
      assert n * size == m + size;
      PackedIsPrefix(group, body, n - 1);
      PackedAtIsSample(group, body, n - 1);
      assert body[..m] + body[m..m + size] == body[..m + size];
    }
  }

  /** Packing the images of a group in the order magnitudes, phases, rows and columns gives the body back. */
  lemma PackingUndoesStoring(group: Group, body: Bytes)
    requires group.Valid() && |body| == group.ExpectedSize() && group.Holds(body)
    ensures var n := 2 * group.Echos() * group.Rows() * group.Columns();
      (n > 0 ==> group.Rows() > 0 && group.Columns() > 0) && Packed(group, n) == body
  {
    var (h, w, echos, size) := (group.Rows(), group.Columns(), group.Echos(), group.itemSize);
    var n := 2 * echos * h * w;
    SameProduct(h, w, echos, size);
    PackedIsPrefix(group, body, n);
  }

  lemma SameProduct(h: nat, w: nat, echos: nat, size: nat)
    ensures h * w * echos * size * 2 == 2 * echos * h * w * size
    ensures 2 * echos * h * w > 0 ==> h > 0 && w > 0
  {
    assert h * w * echos == echos * h * w;
    assert h * w * echos * size * 2 == (echos * h * w) * size * 2 == 2 * (echos * h * w) * size;
    assert 2 * (echos * h * w) == 2 * echos * h * w;
  }

  // ---------- a post for several groups ----------

  /** The groups of a file are different objects with different datasets. */
  ghost predicate Separate(groups: seq<Group>) {
    && (forall i :: 0 <= i < |groups| ==> groups[i].Valid())
    && forall i, j :: 0 <= i < j < |groups| ==> Apart(groups[i], groups[j])
  }

  ghost predicate Apart(g: Group, h: Group) {
    && g != h && g.magnitude != h.magnitude && g.magnitude != h.phase && g.phase != h.magnitude && g.phase != h.phase
  }

  ghost function Footprint(groups: seq<Group>): set<object> {
    (set g: Group | g in groups :: g as object) + (set g: Group | g in groups :: g.magnitude as object)
    + (set g: Group | g in groups :: g.phase as object)
  }

  /** The last place at which the list names group k. */
  function LastFor(ids: seq<nat>, k: nat): (i: nat)
    requires k in ids
    ensures i < |ids| && ids[i] == k && forall j :: i < j < |ids| ==> ids[j] != k
  {
    if ids[|ids| - 1] == k then |ids| - 1 else LastFor(ids[..|ids| - 1], k)
  }

  lemma LastForNext(ids: seq<nat>, i: nat, k: nat)
    requires i < |ids| && k in ids[..i + 1]
    ensures k != ids[i] ==> k in ids[..i] && LastFor(ids[..i + 1], k) == LastFor(ids[..i], k)
    ensures k == ids[i] ==> LastFor(ids[..i + 1], k) == i
  {
    assert ids[..i + 1][..i] == ids[..i] && ids[..i + 1][i] == ids[i];
  }

  ghost predicate Fits(groups: seq<Group>, id: nat, body: Bytes) {
    id < |groups| && |body| == groups[id].ExpectedSize() && groups[id].Echos() > 0
  }

  /** Everything but one group is as it was. */
  twostate predicate OthersUnchanged(groups: seq<Group>, id: nat)
    reads Footprint(groups)
  {
    forall k: nat :: k < |groups| && k != id ==> unchanged(groups[k], groups[k].magnitude, groups[k].phase)
  }

  /** One group of the list; false when it does not exist or its body has the wrong size. */
  method WriteOne(groups: seq<Group>, id: nat, body: Bytes) returns (ok: bool)
    requires Separate(groups)
    modifies Footprint(groups)
    ensures ok <==> Fits(groups, id, body)
    ensures ok ==> groups[id].Holds(body)
    ensures OthersUnchanged(groups, id)
    ensures !ok && id < |groups| ==> unchanged(groups[id], groups[id].magnitude, groups[id].phase)
  {
    hide HoldsFrom;
    if id >= |groups| { return false; }
    var group := groups[id];
    assert group in groups;
    forall k: nat | k < |groups| && k != id ensures Apart(groups[k], group) {}
    ok := WriteBodyToGroup(group, body);
  }

  /** Group k holds the last of these bodies for it. */
  ghost predicate HoldsLast(groups: seq<Group>, ids: seq<nat>, bodies: seq<Bytes>, k: nat)
    requires |ids| <= |bodies| && k in ids && k < |groups|
    reads groups[k], groups[k].magnitude, groups[k].phase
  {
    groups[k].Holds(bodies[LastFor(ids, k)])
  }

  /** Each of these groups holds the last body for it. */
  ghost predicate AllLast(groups: seq<Group>, ids: seq<nat>, bodies: seq<Bytes>)
    requires |ids| <= |bodies|
    reads Footprint(groups)
  {
    forall k: nat :: k in ids ==> k < |groups| && groups[k] in groups && HoldsLast(groups, ids, bodies, k)
  }

  /** The next body of the list. */
  method WriteNext(groups: seq<Group>, ids: seq<nat>, bodies: seq<Bytes>, i: nat) returns (stored: bool)
    requires Separate(groups) && i < |ids| == |bodies|
    requires AllLast(groups, ids[..i], bodies)
    modifies Footprint(groups)
    ensures stored <==> Fits(groups, ids[i], bodies[i])
    ensures OthersUnchanged(groups, ids[i])
    ensures !stored && ids[i] < |groups| ==>
      unchanged(groups[ids[i]], groups[ids[i]].magnitude, groups[ids[i]].phase)
    ensures AllLast(groups, if stored then ids[..i + 1] else ids[..i], bodies)
  {
    hide HoldsFrom, LastFor, Separate;
    var (id, body) := (ids[i], bodies[i]);
    stored := WriteOne(groups, id, body);
    if stored {
      var (before, after) := (ids[..i], ids[..i + 1]);
      forall k: nat | k in after ensures k < |groups| && HoldsLast(groups, after, bodies, k) {
        LastForNext(ids, i, k);
      }
    }
  }

  lemma NoneNamed(groups: seq<Group>, bodies: seq<Bytes>)
    ensures AllLast(groups, [], bodies)
  {
  }

  /**
   Writes the first `written` bodies, and stops with false at the first group that does not exist or whose body has
   the wrong size. The last body written for a group stays.
   */
  method WriteBodiesToFile(groups: seq<Group>, ids: seq<nat>, bodies: seq<Bytes>) returns (ok: bool, ghost written: nat)
    requires Separate(groups) && |ids| == |bodies|
    modifies Footprint(groups)
    ensures written <= |ids| && (ok <==> written == |ids|)
    ensures forall i :: 0 <= i < written ==> Fits(groups, ids[i], bodies[i])
    ensures written < |ids| ==> !Fits(groups, ids[written], bodies[written])
    ensures AllLast(groups, ids[..written], bodies)
    ensures forall k: nat :: k < |groups| && k !in ids[..written] ==>
      unchanged(groups[k], groups[k].magnitude, groups[k].phase)
  {
    hide AllLast, Separate, Fits;
    NoneNamed(groups, bodies);
    var i := 0;
    while i < |ids|
      invariant i <= |ids|
      invariant forall j :: 0 <= j < i ==> Fits(groups, ids[j], bodies[j])
      invariant AllLast(groups, ids[..i], bodies)
      invariant forall k: nat :: k < |groups| && k !in ids[..i] ==>
        unchanged(groups[k], groups[k].magnitude, groups[k].phase)
    {
      var stored := WriteNext(groups, ids, bodies, i);
      if !stored {
        return false, i;
      }
      assert ids[..i + 1] == ids[..i] + [ids[i]];
      i := i + 1;
    }
    return true, i;
  }

  /** The i-th of the parts of a body is stored, seen from the whole body. */
  ghost predicate HoldsPart(group: Group, body: Bytes, i: nat)
    reads group, group.magnitude, group.phase
  {
    && HoldsFrom(group.magnitude, body, group.itemSize, i * (2 * group.Echos()))
    && HoldsFrom(group.phase, body, group.itemSize, i * (2 * group.Echos()) + group.Echos())
    && group.stored
  }

  predicate IsPart(part: Bytes, body: Bytes, i: nat, partSize: nat) {
    i * partSize <= (i + 1) * partSize <= |body| && part == body[i * partSize..(i + 1) * partSize]
  }

  lemma PartOfWhole(slice: array3<Bytes>, part: Bytes, body: Bytes, size: nat, i: nat, echos: nat, first: nat)
    requires IsPart(part, body, i, slice.Length0 * slice.Length1 * echos * size * 2)
    requires first + slice.Length2 <= 2 * echos && HoldsFrom(slice, part, size, first)
    ensures HoldsFrom(slice, body, size, i * (2 * echos) + first)
  {
    hide IsPart, Sample, Position;
    var (h, w) := (slice.Length0, slice.Length1);
    forall r: nat, c: nat, e: nat | r < h && c < w && e < slice.Length2
      ensures slice[r, c, e] == Sample(body, size, Position(h, w, i * (2 * echos) + first + e, r, c))
    {
      PartSample(h, w, part, body, size, i, echos, first + e, r, c);
      assert i * (2 * echos) + (first + e) == i * (2 * echos) + first + e;
    }
  }

  lemma PartSample(h: nat, w: nat, part: Bytes, body: Bytes, size: nat, i: nat, echos: nat, e: nat, r: nat, c: nat)
    requires IsPart(part, body, i, h * w * echos * size * 2) && r < h && c < w && e < 2 * echos
    ensures Sample(part, size, Position(h, w, e, r, c))
            == Sample(body, size, Position(h, w, i * (2 * echos) + e, r, c))
  {
    hide Sample;
    var count, k := 2 * echos * h * w, Position(h, w, e, r, c);
    SameProduct(h, w, echos, size);
    PositionInRange(h, w, 2 * echos, e, r, c);
    SampleOfPart(body, size, i, count, k);
    PositionOfPart(h, w, i, 2 * echos, e, r, c);
  }

  lemma PositionOfPart(h: nat, w: nat, i: nat, n: nat, e: nat, r: nat, c: nat)
    ensures Position(h, w, i * n + e, r, c) == i * (n * h * w) + Position(h, w, e, r, c)
  {
    var a, b := i * n * h, e * h + r;
    assert (i * n + e) * h + r == a + b;
    assert (a + b) * w == a * w + b * w;
    assert a * w == i * (n * h * w);
  }

  method SplitBody(body: Bytes, count: nat, partSize: nat) returns (bodies: seq<Bytes>)
    requires count * partSize <= |body|
    ensures |bodies| == count
    ensures forall i :: 0 <= i < count ==> IsPart(bodies[i], body, i, partSize)
  {
    bodies := [];
    var i: nat := 0;
    while i < count
      invariant i == |bodies| <= count
      invariant forall j :: 0 <= j < i ==> IsPart(bodies[j], body, j, partSize)
    {
      Scale(i + 1, count, partSize);
      Scale(i, i + 1, partSize);
      var part := body[i * partSize..(i + 1) * partSize];
      assert IsPart(part, body, i, partSize);
      hide IsPart;
      bodies := bodies + [part];
      i := i + 1;
    }
  }

  /** Group `id` takes a part of this size. */
  ghost predicate Takes(groups: seq<Group>, id: nat, partSize: nat) {
    id < |groups| && groups[id].ExpectedSize() == partSize && groups[id].Echos() > 0
  }

  /**
   A body for several groups: image e of the i-th group is image i * 2 * echos + e of the body, and its phases follow
   its magnitudes; a group that is named again gets its last part. False when a group does not exist or does not take
   its share of the body.
   */
  method WriteBodyItem(groups: seq<Group>, ids: seq<nat>, body: Bytes) returns (ok: bool)
    requires Separate(groups)
    modifies Footprint(groups)
    ensures ok <==> ids != [] && forall i :: 0 <= i < |ids| ==> Takes(groups, ids[i], |body| / |ids|)
    ensures ok ==> forall k: nat :: k in ids ==> k < |groups| && HoldsPart(groups[k], body, LastFor(ids, k))
    ensures forall k: nat :: k < |groups| && k !in ids ==>
      unchanged(groups[k], groups[k].magnitude, groups[k].phase)
  {
    hide IsPart, HoldsFrom, LastFor;
    if ids == [] { return false; }
    var partSize := |body| / |ids|;
    assert |ids| * partSize <= |body|;
    var bodies := SplitBody(body, |ids|, partSize);
    forall i: nat | i < |ids| ensures |bodies[i]| == partSize { PartLength(bodies[i], body, i, partSize); }
    ghost var written;
    ok, written := WriteBodiesToFile(groups, ids, bodies);
    forall i | 0 <= i < |ids| ensures Fits(groups, ids[i], bodies[i]) <==> Takes(groups, ids[i], partSize) {}
    if ok {
      assert ids[..written] == ids;
      forall k: nat | k in ids ensures k < |groups| && HoldsPart(groups[k], body, LastFor(ids, k)) {
        var i := LastFor(ids, k);
        assert Fits(groups, ids[i], bodies[i]) && HoldsLast(groups, ids, bodies, k);
        GroupHoldsPart(groups[k], bodies[i], body, i);
      }
    }
  }

  lemma PartLength(part: Bytes, body: Bytes, i: nat, partSize: nat)
    requires IsPart(part, body, i, partSize)
    ensures |part| == partSize
  {
    assert (i + 1) * partSize - i * partSize == partSize;
  }

  lemma GroupHoldsPart(group: Group, part: Bytes, body: Bytes, i: nat)
    requires group.Valid() && group.Holds(part) && IsPart(part, body, i, group.ExpectedSize())
    ensures HoldsPart(group, body, i)
  {
    hide IsPart, HoldsFrom;
    PartOfWhole(group.magnitude, part, body, group.itemSize, i, group.Echos(), 0);
    PartOfWhole(group.phase, part, body, group.itemSize, i, group.Echos(), group.Echos());
  }
}
