/** How often a number occurs in a sequence. */
module Counting {

  function Count(s: seq<nat>, id: nat): (n: nat)
    ensures n <= |s|
  {
    if s == [] then 0 else (if s[0] == id then 1 else 0) + Count(s[1..], id)
  }

  lemma CountOne(x: nat, id: nat)
    ensures Count([x], id) == if x == id then 1 else 0
  {
    assert [x][1..] == [];
  }

  lemma {:induction false} CountConcat(a: seq<nat>, b: seq<nat>, id: nat)
    ensures Count(a + b, id) == Count(a, id) + Count(b, id)
  {
    if a == [] {
      assert a + b == b;
    } else {
      assert (a + b)[0] == a[0] && (a + b)[1..] == a[1..] + b;
      CountConcat(a[1..], b, id);
    }
  }

  lemma {:induction false} RangeCount(n: nat, m: nat, id: nat)
    requires m <= n
    ensures Count(seq(n - m, (i: nat) => m + i), id) == if m <= id < n then 1 else 0
    decreases n - m
  {
    var r := seq(n - m, (i: nat) => m + i);
    if m < n {
      RangeCount(n, m + 1, id);
      assert r[1..] == seq(n - (m + 1), (i: nat) => m + 1 + i);
    }
  }

  lemma {:induction false} MemberCounts(s: seq<nat>, i: nat)
    requires i < |s|
    ensures Count(s, s[i]) >= 1
  {
    if i > 0 { MemberCounts(s[1..], i - 1); }
  }

  /** A sequence in which each number below `n` occurs is at least that long. */
  lemma {:induction false} CoversRange(s: seq<nat>, n: nat)
    requires forall id: nat :: id < n ==> Count(s, id) >= 1
    ensures |s| >= n
  {
    if n > 0 {
      var i := Find(s, n - 1);
      var t := s[..i] + s[i + 1..];
      forall id: nat | id < n - 1 ensures Count(t, id) >= 1 {
        assert s == s[..i] + ([n - 1] + s[i + 1..]);
        CountConcat(s[..i], [n - 1] + s[i + 1..], id);
        CountConcat([n - 1], s[i + 1..], id);
        CountConcat(s[..i], s[i + 1..], id);
        assert Count(s, id) >= 1;
      }
      CoversRange(t, n - 1);
    }
  }

  function Find(s: seq<nat>, id: nat): (i: nat)
    requires Count(s, id) >= 1
    ensures i < |s| && s[i] == id
  {
    if s[0] == id then 0 else 1 + Find(s[1..], id)
  }

  /** Exactly the numbers below n, each once. */
  ghost predicate EachOnce(s: seq<nat>, n: nat) {
    forall id: nat :: Count(s, id) == if id < n then 1 else 0
  }
}
