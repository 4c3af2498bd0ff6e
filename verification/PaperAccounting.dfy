/** Whole ledgers: chronological order, the fold over it, and its restriction to one contract. */
module PaperAccounting {
  import opened PaperLedger
  import opened Retention

  // ----- chronological order -----

  function Stamp(r: Record): real { if r.createdAt.Some? then r.createdAt.value else 0.0 }

  predicate Earlier(x: Record, y: Record) { Stamp(x) < Stamp(y) }

  /** Oldest first; the stored list is newest first, and equal timestamps keep insertion order, since a
      record goes after every one that is not later. */
  function Chronological(records: seq<Record>): seq<Record> { Sort(records, Earlier) }

  ghost predicate Ascending(s: seq<Record>) {
    forall i, j :: 0 <= i < j < |s| ==> Stamp(s[i]) <= Stamp(s[j])
  }

  function Reversed(s: seq<Record>): seq<Record> { if s == [] then [] else Reversed(s[1..]) + [s[0]] }

  function StampedAt(s: seq<Record>, t: real): seq<Record> {
    if s == [] then [] else (if Stamp(s[0]) == t then [s[0]] else []) + StampedAt(s[1..], t)
  }

  lemma AscendingBefore(x: Record, s: seq<Record>)
    requires Ascending(s) && forall j :: 0 <= j < |s| ==> Stamp(x) <= Stamp(s[j])
    ensures Ascending([x] + s)
  {
    var r := [x] + s;
    forall i, j | 0 <= i < j < |r| ensures Stamp(r[i]) <= Stamp(r[j]) {
      assert r[j] == s[j - 1] && (i > 0 ==> r[i] == s[i - 1]);
    }
  }

  lemma {:induction false} InsertSorted(r: Record, s: seq<Record>)
    requires Ascending(s)
    ensures Ascending(Insert(r, s, Earlier)) && multiset(Insert(r, s, Earlier)) == multiset{r} + multiset(s)
  {
    InsertMembers(r, s, Earlier);
    if s == [] {
      assert Insert(r, s, Earlier) == [r];
    } else if Earlier(r, s[0]) {
      AscendingBefore(r, s);
    } else {
      var rest := Insert(r, s[1..], Earlier);
      InsertSorted(r, s[1..]);
      forall j | 0 <= j < |rest| ensures Stamp(s[0]) <= Stamp(rest[j]) {
        assert rest[j] in multiset(rest);
      }
      AscendingBefore(s[0], rest);
    }
  }

  lemma StampedCons(r: Record, s: seq<Record>, t: real)
    ensures StampedAt([r] + s, t) == (if Stamp(r) == t then [r] else []) + StampedAt(s, t)
  {
    assert ([r] + s)[1..] == s;
  }

  lemma {:induction false} InsertStable(r: Record, s: seq<Record>, t: real)
    requires Ascending(s)
    ensures StampedAt(Insert(r, s, Earlier), t) == StampedAt(s, t) + (if Stamp(r) == t then [r] else [])
  {
    if s == [] || Stamp(r) < Stamp(s[0]) {
      StampedCons(r, s, t);
      NoneStamped(s, t);
    } else {
      InsertStable(r, s[1..], t);
      StampedCons(s[0], Insert(r, s[1..], Earlier), t);
    }
  }

  lemma {:induction false} NoneStamped(s: seq<Record>, t: real)
    ensures (forall i :: 0 <= i < |s| ==> Stamp(s[i]) != t) ==> StampedAt(s, t) == []
  {
    if s != [] { NoneStamped(s[1..], t); }
  }

  lemma {:induction false} ChronologicalSorted(records: seq<Record>)
    ensures Ascending(Chronological(records)) && multiset(Chronological(records)) == multiset(records)
  {
    if records != [] {
      assert records == [records[0]] + records[1..];
      ChronologicalSorted(records[1..]);
      InsertSorted(records[0], Chronological(records[1..]));
    }
  }

  lemma {:induction false} ChronologicalStable(records: seq<Record>, t: real)
    ensures StampedAt(Chronological(records), t) == Reversed(StampedAt(records, t))
  {
    if records != [] {
      var r, rest := records[0], records[1..];
      ChronologicalStable(rest, t);
      ChronologicalSorted(rest);
      InsertStable(r, Chronological(rest), t);
      var tail := StampedAt(rest, t);
      if Stamp(r) == t {
        assert StampedAt(records, t) == [r] + tail && ([r] + tail)[1..] == tail;
      } else {
        assert StampedAt(records, t) == tail;
      }
    }
  }

  /** The order is exactly the chronological one: a permutation, ascending in time, and for every
      timestamp the records carrying it appear in reverse list order, that is in insertion order. */
  lemma ChronologicalIsStableSort(records: seq<Record>)
    ensures multiset(Chronological(records)) == multiset(records)
    ensures Ascending(Chronological(records))
    ensures forall t :: StampedAt(Chronological(records), t) == Reversed(StampedAt(records, t))
  {
    ChronologicalSorted(records);
    forall t ensures StampedAt(Chronological(records), t) == Reversed(StampedAt(records, t)) {
      ChronologicalStable(records, t);
    }
  }

  lemma {:induction false} InsertLatest(r: Record, s: seq<Record>)
    requires forall i :: 0 <= i < |s| ==> Stamp(s[i]) <= Stamp(r)
    ensures Insert(r, s, Earlier) == s + [r]
  {
    if s != [] {
      InsertLatest(r, s[1..]);
      assert s == [s[0]] + s[1..];
    }
  }

  // ----- the ledger fold -----

  datatype Ledger = Ledger(rows: map<Key, Row>, seen: set<string>)

  /** The row a record is entered into. */
  function RowFor(l: Ledger, r: Record): Row {
    if KeyOf(r) in l.rows then l.rows[KeyOf(r)] else EmptyRow(r)
  }

  function Enter(l: Ledger, r: Record): Ledger {
    if !r.accepted then l
    else Ledger(l.rows[KeyOf(r) := Step(RowFor(l, r), r, r.id in l.seen)], l.seen + {r.id})
  }

  function Fold(ordered: seq<Record>): Ledger {
    if ordered == [] then Ledger(map[], {})
    else Enter(Fold(ordered[..|ordered| - 1]), ordered[|ordered| - 1])
  }

  function Accounted(records: seq<Record>): Ledger { Fold(Chronological(records)) }

  /** `paper_accounting`'s loop over the ordered records, updating the grouped rows in place. */
  method Account(records: seq<Record>) returns (rows: map<Key, Row>)
    ensures rows == Accounted(records).rows
  {
    var ordered := Chronological(records);
    var seen: set<string> := {};
    rows := map[];
    var i := 0;
    while i < |ordered|
      invariant 0 <= i <= |ordered|
      invariant Ledger(rows, seen) == Fold(ordered[..i])
    {
      var r := ordered[i];
      assert ordered[..i + 1][..i] == ordered[..i];
      if r.accepted {
        var key := KeyOf(r);
        var row := if key in rows then rows[key] else EmptyRow(r);
        rows := rows[key := Step(row, r, r.id in seen)];
        seen := seen + {r.id};
      }
      i := i + 1;
    }
    assert ordered[..i] == ordered;
  }

  // ----- locality -----

  function Of(s: seq<Record>, k: Key): seq<Record> {
    if s == [] then []
    else Of(s[..|s| - 1], k)
         + (if s[|s| - 1].accepted && KeyOf(s[|s| - 1]) == k then [s[|s| - 1]] else [])
  }

  /** The fold over one contract's records alone. */
  function RowOf(s: seq<Record>): Row
    requires s != []
    decreases |s|, 1
  {
    Step(RowBefore(s), s[|s| - 1], false)
  }

  /** The row the last record of a history is entered into. */
  function RowBefore(s: seq<Record>): Row
    requires s != []
    decreases |s|, 0
  {
    if |s| == 1 then EmptyRow(s[0]) else RowOf(s[..|s| - 1])
  }

  ghost predicate UniqueIds(s: seq<Record>) {
    forall i, j :: 0 <= i < j < |s| && s[i].accepted && s[j].accepted ==> s[i].id != s[j].id
  }

  lemma {:induction false} SeenIds(s: seq<Record>)
    ensures Fold(s).seen == set i | 0 <= i < |s| && s[i].accepted :: s[i].id
  {
    if s != [] {
      var n := |s| - 1;
      SeenIds(s[..n]);
      forall id | id in (set i | 0 <= i < |s| && s[i].accepted :: s[i].id) ensures id in Fold(s).seen {
        var i :| 0 <= i < |s| && s[i].accepted && s[i].id == id;
        if i < n { assert s[..n][i] == s[i]; }
      }
      forall id | id in Fold(s).seen ensures id in (set i | 0 <= i < |s| && s[i].accepted :: s[i].id) {
        if id in Fold(s[..n]).seen {
          var i :| 0 <= i < n && s[..n][i].accepted && s[..n][i].id == id;
          assert s[i] == s[..n][i];
        }
      }
    }
  }

  lemma {:induction false} FoldIsLocal(s: seq<Record>, k: Key)
    requires UniqueIds(s)
    ensures k in Fold(s).rows <==> Of(s, k) != []
    ensures Of(s, k) != [] ==> Fold(s).rows[k] == RowOf(Of(s, k))
  {
    if s != [] {
      var n := |s| - 1;
      var before, r := s[..n], s[n];
      FoldIsLocal(before, k);
      if r.accepted && KeyOf(r) == k {
        SeenIds(before);
        assert r.id !in Fold(before).seen;
        assert Of(s, k)[..|Of(before, k)|] == Of(before, k);
      } else {
        assert Of(s, k) == Of(before, k);
      }
    }
  }

  function Chosen(r: Record, k: Key): seq<Record> { if r.accepted && KeyOf(r) == k then [r] else [] }

  lemma OfAppend(s: seq<Record>, r: Record, k: Key)
    ensures Of(s + [r], k) == Of(s, k) + Chosen(r, k)
  {
    assert (s + [r])[..|s|] == s;
  }

  lemma OfConcatNext(a: seq<Record>, b: seq<Record>, r: Record, k: Key)
    requires Of(a + b, k) == Of(a, k) + Of(b, k)
    ensures Of(a + b + [r], k) == Of(a, k) + Of(b + [r], k)
  {
    OfAppend(a + b, r, k);
    OfAppend(b, r, k);
  }

  lemma SplitLast(a: seq<Record>, b: seq<Record>)
    requires b != []
    ensures var front, r := b[..|b| - 1], b[|b| - 1]; b == front + [r] && a + b == a + front + [r]
  {
  }

  lemma {:induction false} OfConcat(a: seq<Record>, b: seq<Record>, k: Key)
    ensures Of(a + b, k) == Of(a, k) + Of(b, k)
  {
    if b == [] {
      assert a + b == a;
    } else {
      var front, r := b[..|b| - 1], b[|b| - 1];
      SplitLast(a, b);
      OfConcat(a, front, k);
      OfConcatNext(a, front, r, k);
    }
  }

  lemma OfCons(x: Record, s: seq<Record>, k: Key)
    ensures Of([x] + s, k) == Chosen(x, k) + Of(s, k)
  {
    OfConcat([x], s, k);
    OfAppend([], x, k);
    assert [] + [x] == [x];
  }

  lemma InsertHead(r: Record, x: Record, s: seq<Record>)
    ensures Stamp(x) <= Stamp(r) ==> Insert(r, [x] + s, Earlier) == [x] + Insert(r, s, Earlier)
  {
    assert ([x] + s)[1..] == s;
  }

  lemma InsertFront(r: Record, s: seq<Record>, k: Key)
    requires Ascending(s) && (s == [] || Stamp(r) < Stamp(s[0]))
    ensures Insert(r, s, Earlier) == [r] + s && Insert(r, Of(s, k), Earlier) == [r] + Of(s, k)
  {
    OfStampsAbove(s, k, Stamp(r));
  }

  function Inserted(r: Record, s: seq<Record>, k: Key): seq<Record> {
    if r.accepted && KeyOf(r) == k then Insert(r, Of(s, k), Earlier) else Of(s, k)
  }

  lemma InsertSelectsNext(r: Record, x: Record, rest: seq<Record>, k: Key)
    requires Stamp(x) <= Stamp(r) && Of(Insert(r, rest, Earlier), k) == Inserted(r, rest, k)
    ensures Of([x] + Insert(r, rest, Earlier), k) == Inserted(r, [x] + rest, k)
  {
    OfCons(x, Insert(r, rest, Earlier), k);
    OfCons(x, rest, k);
    var o := Of(rest, k);
    if x.accepted && KeyOf(x) == k {
      InsertHead(r, x, o);
    } else {
      assert [] + o == o && [] + Of(Insert(r, rest, Earlier), k) == Of(Insert(r, rest, Earlier), k);
    }
  }

  /** Selecting one contract commutes with inserting by time. */
  lemma {:induction false} InsertSelects(r: Record, s: seq<Record>, k: Key)
    requires Ascending(s)
    ensures Of(Insert(r, s, Earlier), k) == Inserted(r, s, k)
  {
    if s == [] || Stamp(r) < Stamp(s[0]) {
      InsertFront(r, s, k);
      OfCons(r, s, k);
    } else {
      InsertSelects(r, s[1..], k);
      InsertSelectsNext(r, s[0], s[1..], k);
      assert s == [s[0]] + s[1..];
    }
  }

  lemma {:induction false} OfStampsAbove(s: seq<Record>, k: Key, t: real)
    requires forall i :: 0 <= i < |s| ==> t < Stamp(s[i])
    ensures forall i :: 0 <= i < |Of(s, k)| ==> t < Stamp(Of(s, k)[i])
  {
    if s != [] { OfStampsAbove(s[..|s| - 1], k, t); }
  }

  /** One contract's accepted records, in stored (newest first) order. */
  function Stored(records: seq<Record>, k: Key): seq<Record> {
    if records == [] then []
    else (if records[0].accepted && KeyOf(records[0]) == k then [records[0]] else [])
         + Stored(records[1..], k)
  }

  lemma {:induction false} OrderSelects(records: seq<Record>, k: Key)
    ensures Of(Chronological(records), k) == Chronological(Stored(records, k))
  {
    if records != [] {
      var r, rest := records[0], records[1..];
      OrderSelects(rest, k);
      ChronologicalSorted(rest);
      InsertSelects(r, Chronological(rest), k);
      if r.accepted && KeyOf(r) == k {
        assert ([r] + Stored(rest, k))[1..] == Stored(rest, k);
      } else {
        assert Stored(records, k) == Stored(rest, k);
      }
    }
  }
}
