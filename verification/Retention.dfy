/** Bounded lists that make room by evicting their oldest settled elements, as the source does with
    `sorted(...)[:n]` and a filter on identities. Shared by the outbox and the journals. */
module Retention {

  // ----- subsequences -----

  /** `sub` is `s` with some elements left out, order kept; `keep` lists the surviving positions. */
  ghost predicate Selects<T>(s: seq<T>, keep: seq<nat>, sub: seq<T>) {
    && |keep| == |sub|
    && (forall i :: 0 <= i < |keep| ==> keep[i] < |s| && sub[i] == s[keep[i]])
    && (forall i, j :: 0 <= i < j < |keep| ==> keep[i] < keep[j])
  }

  ghost predicate Subsequence<T>(sub: seq<T>, s: seq<T>) {
    exists keep: seq<nat> :: Selects(s, keep, sub)
  }

  lemma SubsequenceSkip<T>(sub: seq<T>, x: T, s: seq<T>)
    requires Subsequence(sub, s)
    ensures Subsequence(sub, [x] + s)
  {
    var keep: seq<nat> :| Selects(s, keep, sub);
    assert Selects([x] + s, seq(|keep|, i requires 0 <= i < |keep| => keep[i] + 1), sub);
  }

  lemma SubsequenceTake<T>(sub: seq<T>, x: T, s: seq<T>)
    requires Subsequence(sub, s)
    ensures Subsequence([x] + sub, [x] + s)
  {
    var keep: seq<nat> :| Selects(s, keep, sub);
    var keep' := [0] + seq(|keep|, i requires 0 <= i < |keep| => keep[i] + 1);
    assert Selects([x] + s, keep', [x] + sub);
  }

  lemma SubsequenceEmpty<T>(s: seq<T>)
    ensures Subsequence([], s)
  {
    assert Selects(s, [], []);
  }

  lemma SubsequenceSelf<T>(s: seq<T>)
    ensures Subsequence(s, s)
  {
    assert Selects(s, seq(|s|, i => i), s);
  }

  lemma SubsequenceKeeps<T>(sub: seq<T>, s: seq<T>, id: T -> nat)
    requires Subsequence(sub, s)
    ensures forall x :: x in sub ==> x in s
    ensures Unique(s, id) ==> Unique(sub, id)
  {
    var keep: seq<nat> :| Selects(s, keep, sub);
  }

  lemma {:induction false} Climbs(keep: seq<nat>, i: nat)
    requires i < |keep| && forall k, l :: 0 <= k < l < |keep| ==> keep[k] < keep[l]
    ensures keep[i] >= i
  {
    if i > 0 { Climbs(keep, i - 1); }
  }

  lemma SubsequenceLength<T>(sub: seq<T>, s: seq<T>)
    requires Subsequence(sub, s)
    ensures |sub| <= |s|
  {
    var keep: seq<nat> :| Selects(s, keep, sub);
    if keep != [] { Climbs(keep, |keep| - 1); }
  }

  // ----- identities -----

  ghost predicate Unique<T>(s: seq<T>, id: T -> nat) {
    forall i, j :: 0 <= i < j < |s| ==> id(s[i]) != id(s[j])
  }

  function Ids<T>(s: seq<T>, id: T -> nat): set<nat> { set i | 0 <= i < |s| :: id(s[i]) }

  function Without<T>(s: seq<T>, id: T -> nat, ids: set<nat>): seq<T> {
    if s == [] then []
    else (if id(s[0]) in ids then [] else [s[0]]) + Without(s[1..], id, ids)
  }

  lemma {:induction false} WithoutKeeps<T>(s: seq<T>, id: T -> nat, ids: set<nat>)
    ensures Subsequence(Without(s, id, ids), s)
    ensures forall x :: x in Without(s, id, ids) <==> x in s && id(x) !in ids
  {
    if s == [] {
      SubsequenceEmpty(s);
    } else {
      assert s == [s[0]] + s[1..];
      WithoutKeeps(s[1..], id, ids);
      if id(s[0]) in ids {
        assert Without(s, id, ids) == Without(s[1..], id, ids);
        SubsequenceSkip(Without(s[1..], id, ids), s[0], s[1..]);
      } else {
        SubsequenceTake(Without(s[1..], id, ids), s[0], s[1..]);
      }
    }
  }

  lemma {:induction false} WithoutIgnores<T>(s: seq<T>, id: T -> nat, ids: set<nat>, absent: nat)
    requires forall i :: 0 <= i < |s| ==> id(s[i]) != absent
    ensures Without(s, id, ids) == Without(s, id, ids - {absent})
  {
    if s != [] { WithoutIgnores(s[1..], id, ids, absent); }
  }

  lemma {:induction false} WithoutLength<T>(s: seq<T>, id: T -> nat, ids: set<nat>)
    requires Unique(s, id) && ids <= Ids(s, id)
    ensures |Without(s, id, ids)| == |s| - |ids|
  {
    if s == [] {
      assert ids == {};
    } else {
      var head := id(s[0]);
      var rest := ids - {head};
      assert rest <= Ids(s[1..], id) by {
        forall x | x in rest ensures x in Ids(s[1..], id) {
          var i :| 0 <= i < |s| && id(s[i]) == x;
          assert s[1..][i - 1] == s[i];
        }
      }
      WithoutLength(s[1..], id, rest);
      WithoutIgnores(s[1..], id, ids, head);
    }
  }

  lemma {:induction false} IdsSize<T>(s: seq<T>, id: T -> nat)
    requires Unique(s, id)
    ensures |Ids(s, id)| == |s|
  {
    if s != [] {
      IdsSize(s[1..], id);
      assert Ids(s, id) == {id(s[0])} + Ids(s[1..], id) by {
        forall x | x in Ids(s, id) ensures x in {id(s[0])} + Ids(s[1..], id) {
          var i :| 0 <= i < |s| && id(s[i]) == x;
          if i > 0 { assert s[1..][i - 1] == s[i]; }
        }
      }
    }
  }

  lemma {:induction false} UniqueMember<T>(s: seq<T>, id: T -> nat, x: T)
    requires Unique(s, id)
    ensures multiset(s)[x] <= 1
    ensures forall y :: x in s && y in s && id(x) == id(y) ==> x == y
  {
    if s != [] {
      assert s == [s[0]] + s[1..];
      UniqueMember(s[1..], id, x);
      if x == s[0] { assert x !in s[1..]; }
    }
  }

  lemma Repeated<T>(s: seq<T>, i: nat, j: nat)
    requires i < j < |s| && s[i] == s[j]
    ensures multiset(s)[s[i]] >= 2
  {
    assert s == s[..j] + [s[j]] + s[j + 1..];
    assert s[i] in s[..j];
  }

  lemma {:induction false} TwoPositions<T>(s: seq<T>, x: T) returns (i: nat, j: nat)
    requires multiset(s)[x] >= 2
    ensures i < j < |s| && s[i] == s[j] == x
  {
    var n := |s| - 1;
    assert s == s[..n] + [s[n]];
    if s[n] == x {
      assert x in s[..n];
      i :| 0 <= i < n && s[i] == x;
      j := n;
    } else {
      i, j := TwoPositions(s[..n], x);
    }
  }

  ghost predicate Pairwise<T>(s: seq<T>, p: (T, T) -> bool) {
    forall i, j :: 0 <= i < j < |s| ==> p(s[i], s[j])
  }

  /** A symmetric relation between the elements at any two positions survives reordering. */
  lemma PairwiseAnyOrder<T(!new)>(a: seq<T>, b: seq<T>, p: (T, T) -> bool)
    requires multiset(a) == multiset(b) && Pairwise(b, p) && forall x, y :: p(x, y) <==> p(y, x)
    ensures Pairwise(a, p) && |a| == |b|
  {
    assert |a| == |multiset(a)| == |multiset(b)| == |b|;
    forall i, j | 0 <= i < j < |a| ensures p(a[i], a[j]) {
      assert a[i] in multiset(b) && a[j] in multiset(b);
      if a[i] == a[j] {
        Repeated(a, i, j);
        var u, v := TwoPositions(b, a[i]);
      } else {
        var u :| 0 <= u < |b| && b[u] == a[i];
        var v :| 0 <= v < |b| && b[v] == a[j];
      }
    }
  }

  // ----- settled elements, oldest first -----

  function Settled<T>(s: seq<T>, settled: T -> bool): seq<T> {
    if s == [] then [] else (if settled(s[0]) then [s[0]] else []) + Settled(s[1..], settled)
  }

  lemma {:induction false} SettledIsSubsequence<T>(s: seq<T>, settled: T -> bool)
    ensures Subsequence(Settled(s, settled), s)
    ensures forall x :: x in Settled(s, settled) <==> x in s && settled(x)
  {
    if s == [] {
      SubsequenceEmpty(s);
    } else {
      assert s == [s[0]] + s[1..];
      SettledIsSubsequence(s[1..], settled);
      if settled(s[0]) {
        SubsequenceTake(Settled(s[1..], settled), s[0], s[1..]);
      } else {
        assert Settled(s, settled) == Settled(s[1..], settled);
        SubsequenceSkip(Settled(s[1..], settled), s[0], s[1..]);
      }
    }
  }

  lemma SettledMembers<T>(s: seq<T>, settled: T -> bool, id: T -> nat)
    ensures forall x :: x in Settled(s, settled) <==> x in s && settled(x)
    ensures |Settled(s, settled)| <= |s|
    ensures Unique(s, id) ==> Unique(Settled(s, settled), id)
  {
    SettledIsSubsequence(s, settled);
    SubsequenceKeeps(Settled(s, settled), s, id);
    SubsequenceLength(Settled(s, settled), s);
  }

  ghost predicate TotalOrder<T(!new)>(leq: (T, T) -> bool) {
    && (forall x, y :: leq(x, y) || leq(y, x))
    && (forall x, y, z :: leq(x, y) && leq(y, z) ==> leq(x, z))
  }

  ghost predicate Sorted<T>(s: seq<T>, leq: (T, T) -> bool) {
    forall i, j :: 0 <= i < j < |s| ==> leq(s[i], s[j])
  }

  function Insert<T>(x: T, s: seq<T>, leq: (T, T) -> bool): seq<T> {
    if s == [] then [x]
    else if leq(x, s[0]) then [x] + s
    else [s[0]] + Insert(x, s[1..], leq)
  }

  function Sort<T>(s: seq<T>, leq: (T, T) -> bool): seq<T> {
    if s == [] then [] else Insert(s[0], Sort(s[1..], leq), leq)
  }

  lemma {:induction false} InsertMembers<T>(x: T, s: seq<T>, leq: (T, T) -> bool)
    ensures multiset(Insert(x, s, leq)) == multiset{x} + multiset(s)
  {
    if s != [] && !leq(x, s[0]) {
      InsertMembers(x, s[1..], leq);
      assert s == [s[0]] + s[1..];
    }
  }

  lemma {:induction false} InsertSorts<T(!new)>(x: T, s: seq<T>, leq: (T, T) -> bool)
    requires TotalOrder(leq) && Sorted(s, leq)
    ensures Sorted(Insert(x, s, leq), leq)
    ensures multiset(Insert(x, s, leq)) == multiset{x} + multiset(s)
  {
    InsertMembers(x, s, leq);
    if s == [] {
      assert Insert(x, s, leq) == [x];
    } else if leq(x, s[0]) {
      SortedCons(x, s, leq);
    } else {
      var r := Insert(x, s[1..], leq);
      InsertSorts(x, s[1..], leq);
      forall j | 0 <= j < |r| ensures leq(s[0], r[j]) {
        assert r[j] in multiset(r);
      }
      SortedBefore(s[0], r, leq);
    }
  }

  lemma SortedCons<T(!new)>(x: T, s: seq<T>, leq: (T, T) -> bool)
    requires TotalOrder(leq) && Sorted(s, leq) && s != [] && leq(x, s[0])
    ensures Sorted([x] + s, leq)
  {
    forall j | 0 <= j < |s| ensures leq(x, s[j]) {
      assert j == 0 || leq(s[0], s[j]);
    }
    SortedBefore(x, s, leq);
  }

  lemma SortedBefore<T>(x: T, s: seq<T>, leq: (T, T) -> bool)
    requires Sorted(s, leq) && forall j :: 0 <= j < |s| ==> leq(x, s[j])
    ensures Sorted([x] + s, leq)
  {
    var r := [x] + s;
    forall i, j | 0 <= i < j < |r| ensures leq(r[i], r[j]) {
      assert r[j] == s[j - 1] && (i > 0 ==> r[i] == s[i - 1]);
    }
  }

  lemma {:induction false} SortSorts<T(!new)>(s: seq<T>, leq: (T, T) -> bool)
    requires TotalOrder(leq)
    ensures Sorted(Sort(s, leq), leq) && multiset(Sort(s, leq)) == multiset(s)
  {
    if s != [] {
      assert s == [s[0]] + s[1..];
      SortSorts(s[1..], leq);
      InsertSorts(s[0], Sort(s[1..], leq), leq);
    }
  }

  /** The settled elements, oldest first. */
  function Queue<T>(s: seq<T>, settled: T -> bool, leq: (T, T) -> bool): seq<T> {
    Sort(Settled(s, settled), leq)
  }

  lemma QueueFacts<T(!new)>(s: seq<T>, id: T -> nat, settled: T -> bool, leq: (T, T) -> bool)
    requires TotalOrder(leq) && Unique(s, id)
    ensures var q := Queue(s, settled, leq);
            && |q| == |Settled(s, settled)| && Sorted(q, leq) && Unique(q, id)
            && (forall x :: x in q <==> x in s && settled(x))
  {
    var c := Settled(s, settled);
    var q := Queue(s, settled, leq);
    SettledMembers(s, settled, id);
    SortSorts(c, leq);
    PairwiseAnyOrder(q, c, (x, y) => id(x) != id(y));
    forall x ensures x in q <==> x in c {
      assert x in q <==> x in multiset(q);
    }
  }

  /** The list without its `k` oldest settled elements. */
  function Evict<T>(s: seq<T>, id: T -> nat, settled: T -> bool, leq: (T, T) -> bool, k: nat): seq<T>
    requires k <= |Queue(s, settled, leq)|
  {
    Without(s, id, Ids(Queue(s, settled, leq)[..k], id))
  }

  lemma EvictedIds<T(!new)>(s: seq<T>, id: T -> nat, settled: T -> bool, leq: (T, T) -> bool, k: nat)
    requires TotalOrder(leq) && Unique(s, id) && k <= |Queue(s, settled, leq)|
    ensures var q := Queue(s, settled, leq)[..k];
            && Ids(q, id) <= Ids(s, id) && |Ids(q, id)| == k
            && (forall x :: x in s && id(x) in Ids(q, id) ==> x in q)
  {
    QueueFacts(s, id, settled, leq);
    var q := Queue(s, settled, leq)[..k];
    IdsSize(q, id);
    forall n | n in Ids(q, id) ensures n in Ids(s, id) {
      var i :| 0 <= i < k && id(q[i]) == n;
      assert q[i] in s;
    }
    forall x | x in s && id(x) in Ids(q, id) ensures x in q {
      var i :| 0 <= i < k && id(q[i]) == id(x);
      assert q[i] in s;
      UniqueMember(s, id, x);
    }
  }

  /** Eviction removes exactly `k` elements, all of them settled, and no surviving settled element is
      older than an evicted one. */
  lemma EvictTakesOldest<T(!new)>(s: seq<T>, id: T -> nat, settled: T -> bool, leq: (T, T) -> bool, k: nat)
    requires TotalOrder(leq) && Unique(s, id) && k <= |Settled(s, settled)|
    ensures |Queue(s, settled, leq)| == |Settled(s, settled)|
    ensures var kept := Evict(s, id, settled, leq, k);
            && Subsequence(kept, s) && Unique(kept, id) && |kept| == |s| - k
            && (forall x :: x in kept ==> x in s)
            && (forall x :: x in s && x !in kept ==> settled(x))
            && (forall x, y :: x in s && x !in kept && y in kept && settled(y) ==> leq(x, y))
  {
    QueueFacts(s, id, settled, leq);
    EvictedIds(s, id, settled, leq, k);
    var q := Queue(s, settled, leq);
    var ids := Ids(q[..k], id);
    var kept := Evict(s, id, settled, leq, k);
    WithoutKeeps(s, id, ids);
    SubsequenceKeeps(kept, s, id);
    WithoutLength(s, id, ids);
    forall x | x in s && x !in kept ensures x in q[..k] && x in q { }
    assert forall i :: 0 <= i < k ==> id(q[i]) in ids by {
      assert forall i :: 0 <= i < k ==> q[..k][i] == q[i];
    }
    forall x, y | x in s && x !in kept && y in kept && settled(y) ensures leq(x, y) {
      assert x in q[..k];
      var i :| 0 <= i < k && q[i] == x;
      var j :| 0 <= j < |q| && q[j] == y;
    }
  }
}
