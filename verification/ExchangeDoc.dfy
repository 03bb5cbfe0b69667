/**
 The JSON document shared through an exchange file, as a value, and what each operation of
 `DatasetExchangeFile` does to it.
 */
module ExchangeDoc {
  import opened Wrappers

  const UINT32: nat := 0x1_0000_0000

  /** `uint32_t(-1)`: the id of an end marker, and the client id of a dataset that has none. */
  const END: nat := 0xFFFF_FFFF

  /** A JSON array. An absent key, and a key initialised with `{}`, both read back as null. */
  datatype List<+T> = Null | Arr(items: seq<T>)

  /** The struct exchanged by callers. */
  datatype Dataset = Dataset(id: nat, filename: string, clientId: nat)

  /** The JSON object stored for it: the `client_id` key is left out when it is -1. */
  datatype Record = Record(id: nat, filename: string, clientId: Option<nat>)

  datatype Doc = Doc(datasets: List<Record>, clients: List<nat>, unregistered: List<nat>)

  function Items<T>(l: List<T>): (s: seq<T>)
    ensures l.Null? ==> s == []
  {
    if l.Null? then [] else l.items
  }

  function PushBack<T>(l: List<T>, x: T): (r: List<T>)
    ensures Items(r) == Items(l) + [x]
  {
    Arr(Items(l) + [x])
  }

  function Store(d: Dataset): Record {
    Record(d.id, d.filename, if d.clientId != END then Some(d.clientId) else None)
  }

  function Load(r: Record): Dataset {
    Dataset(r.id, r.filename, if r.clientId.Some? then r.clientId.value else END)
  }

  /** A record that is read back, and which key the JSON object of an ordinary dataset does not have. */
  lemma StoredRecord(d: Dataset)
    ensures Load(Store(d)) == d && (Store(d).clientId == None <==> d.clientId == END)
  {
  }

  const InitDoc := Doc(Null, Null, Null)

  function NextClientId(d: Doc): nat {
    (|Items(d.clients)| + 1) % UINT32
  }

  function Register(d: Doc): Doc {
    d.(clients := PushBack(d.clients, NextClientId(d)))
  }

  function Push(d: Doc, x: Dataset): Doc {
    d.(datasets := PushBack(d.datasets, Store(x)))
  }

  predicate HasDataset(d: Doc) {
    Items(d.datasets) != []
  }

  function First(d: Doc): Dataset
    requires HasDataset(d)
  {
    Load(Items(d.datasets)[0])
  }

  /** The datasets as their readers see them. */
  ghost function Queue(d: Doc): seq<Dataset> {
    seq(|Items(d.datasets)|, i requires 0 <= i < |Items(d.datasets)| => Load(Items(d.datasets)[i]))
  }

  function Pop(d: Doc): Doc
    requires HasDataset(d)
  {
    d.(datasets := Arr(Items(d.datasets)[1..]))
  }

  function Unregister(d: Doc, client: nat): Doc {
    d.(unregistered := Arr(Insert(SetOf(Items(d.unregistered)), client)))
  }

  predicate AllUnregistered(d: Doc) {
    d.clients == d.unregistered
  }

  // ---------- std::set<uint32_t>, written back in ascending order ----------

  ghost predicate Ascending(s: seq<nat>) {
    forall i, j :: 0 <= i < j < |s| ==> s[i] < s[j]
  }

  /** Insertion into an ascending sequence without duplicates. */
  function Insert(s: seq<nat>, x: nat): (r: seq<nat>)
    requires Ascending(s)
    ensures Ascending(r)
    ensures forall y :: y in r <==> y in s || y == x
  {
    if s == [] || x < s[0] then [x] + s
    else if x == s[0] then s
    else
      var t := Insert(s[1..], x);
      assert forall y :: y in s <==> y == s[0] || y in s[1..];
      assert forall i :: 0 <= i < |t| ==> t[i] in t;
      [s[0]] + t
  }

  /** A JSON array read into a set. */
  function SetOf(s: seq<nat>): (r: seq<nat>)
    ensures Ascending(r)
    ensures forall y :: y in r <==> y in s
  {
    if s == [] then [] else
      assert forall y :: y in s <==> y == s[0] || y in s[1..];
      Insert(SetOf(s[1..]), s[0])
  }

  /** Two ascending sequences with the same elements are the same sequence. */
  lemma {:induction false} AscendingUnique(a: seq<nat>, b: seq<nat>)
    requires Ascending(a) && Ascending(b)
    requires forall y :: y in a <==> y in b
    ensures a == b
  {
    if a != [] { assert a[0] in b; }
    if b != [] { assert b[0] in a; }
    if a != [] && b != [] {
      assert a[0] == b[0];
      forall y ensures y in a[1..] <==> y in b[1..] {
        if y in a[1..] { assert y in a && y != a[0]; }
        if y in b[1..] { assert y in b && y != b[0]; }
      }
      AscendingUnique(a[1..], b[1..]);
      assert a == [a[0]] + a[1..] && b == [b[0]] + b[1..];
    }
  }

  function FirstIds(n: nat): (s: seq<nat>)
    ensures Ascending(s) && |s| == n
    ensures forall i :: 0 <= i < n ==> s[i] == i + 1
    ensures forall y :: y in s <==> 1 <= y <= n
  {
    if n == 0 then [] else FirstIds(n - 1) + [n]
  }

  // ---------- client lists ----------

  datatype ListOp = Reg | Unreg(client: nat)

  function ApplyOp(d: Doc, op: ListOp): Doc {
    match op
    case Reg => Register(d)
    case Unreg(c) => Unregister(d, c)
  }

  function ApplyOps(d: Doc, ops: seq<ListOp>): Doc {
    if ops == [] then d else ApplyOp(ApplyOps(d, ops[..|ops| - 1]), ops[|ops| - 1])
  }

  /** Only registered clients unregister, and the 32-bit client ids do not run out. */
  ghost predicate ValidOps(ops: seq<ListOp>) {
    |ops| < END &&
    forall i :: 0 <= i < |ops| && ops[i].Unreg? ==>
      ops[i].client in Items(ApplyOps(InitDoc, ops[..i]).clients)
  }

  ghost predicate ConsistentLists(clients: List<nat>, unregistered: List<nat>) {
    && Items(clients) == FirstIds(|Items(clients)|)
    && Ascending(Items(unregistered))
    && (forall c :: c in Items(unregistered) ==> c in Items(clients))
    && (clients.Arr? ==> clients.items != [])
    && (unregistered.Arr? ==> unregistered.items != [])
  }

  ghost predicate ListsConsistent(d: Doc) { ConsistentLists(d.clients, d.unregistered) }

  lemma RegisterConsistent(d: Doc)
    requires ListsConsistent(d) && |Items(d.clients)| + 1 < END
    ensures ListsConsistent(Register(d))
    ensures NextClientId(d) == |Items(d.clients)| + 1 && NextClientId(d) !in Items(d.clients)
  {
    var n := |Items(d.clients)|;
    assert FirstIds(n + 1) == FirstIds(n) + [n + 1] by {
      AscendingUnique(FirstIds(n + 1), FirstIds(n) + [n + 1]);
    }
  }

  lemma UnregisterConsistent(d: Doc, c: nat)
    requires ListsConsistent(d) && c in Items(d.clients)
    ensures ListsConsistent(Unregister(d, c))
    ensures Items(Unregister(d, c).unregistered) == Insert(Items(d.unregistered), c)
  {
    AscendingUnique(SetOf(Items(d.unregistered)), Items(d.unregistered));
    assert c in Insert(Items(d.unregistered), c);
  }

  /** Comparing two JSON arrays decides whether two sets of clients are equal. */
  lemma AllUnregisteredMeans(d: Doc)
    requires ListsConsistent(d)
    ensures AllUnregistered(d) <==> forall c :: c in Items(d.clients) ==> c in Items(d.unregistered)
  {
    if forall c :: c in Items(d.clients) ==> c in Items(d.unregistered) {
      AscendingUnique(Items(d.clients), Items(d.unregistered));
      if d.clients.Arr? { assert d.clients.items[0] in Items(d.unregistered); }
      if d.unregistered.Arr? { assert d.unregistered.items[0] in Items(d.clients); }
    }
  }

  lemma ValidPrefix(ops: seq<ListOp>)
    requires ValidOps(ops) && ops != []
    ensures ValidOps(ops[..|ops| - 1])
    ensures ops[|ops| - 1].Unreg? ==>
      ops[|ops| - 1].client in Items(ApplyOps(InitDoc, ops[..|ops| - 1]).clients)
  {
    var init := ops[..|ops| - 1];
    forall i | 0 <= i < |init| && init[i].Unreg?
      ensures init[i].client in Items(ApplyOps(InitDoc, init[..i]).clients)
    {
      assert init[..i] == ops[..i] && init[i] == ops[i];
    }
  }

  lemma {:induction false} OpsConsistent(ops: seq<ListOp>)
    requires ValidOps(ops)
    ensures ListsConsistent(ApplyOps(InitDoc, ops))
    ensures |Items(ApplyOps(InitDoc, ops).clients)| <= |ops|
    ensures forall c :: c in Items(ApplyOps(InitDoc, ops).unregistered) <==> Unreg(c) in ops
  {
    if ops != [] {
      var init, last := ops[..|ops| - 1], ops[|ops| - 1];
      ValidPrefix(ops);
      OpsConsistent(init);
      var d := ApplyOps(InitDoc, init);
      assert ops == init + [last];
      assert forall c :: Unreg(c) in ops <==> Unreg(c) in init || Unreg(c) == last;
      if last.Reg? {
        RegisterConsistent(d);
      } else {
        UnregisterConsistent(d, last.client);
      }
    }
  }

  /** The exit test is true exactly when every client that registered has unregistered. */
  lemma ClientListsDecideTermination(ops: seq<ListOp>)
    requires ValidOps(ops)
    ensures AllUnregistered(ApplyOps(InitDoc, ops)) <==>
            forall c :: 1 <= c <= |Items(ApplyOps(InitDoc, ops).clients)| ==> Unreg(c) in ops
  {
    OpsConsistent(ops);
    var d := ApplyOps(InitDoc, ops);
    AllUnregisteredMeans(d);
    assert forall c :: c in Items(d.clients) <==> 1 <= c <= |Items(d.clients)|;
  }
}
