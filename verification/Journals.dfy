/** The bounded alert history and mutation journal of the configuration object: both make room only
    by evicting their oldest settled records, or refuse. */
module Journals {
  import opened Retention

  // ----- alert notifications -----

  const MAX_ALERT_EVENTS: nat := 1_000

  /** `body` stands for the immutable notification fields; zero means not acknowledged. */
  datatype Alert = Alert(id: nat, createdAt: int, acknowledgedAt: int, body: string)

  function AlertId(a: Alert): nat { a.id }

  predicate Acknowledged(a: Alert) { a.acknowledgedAt != 0 }

  predicate AlertLeq(x: Alert, y: Alert) {
    x.createdAt < y.createdAt || (x.createdAt == y.createdAt && x.id <= y.id)
  }

  predicate ValidAlert(a: Alert) {
    a.createdAt >= 1 && a.acknowledgedAt >= 0 && (a.acknowledgedAt != 0 ==> a.acknowledgedAt >= a.createdAt)
  }

  /** Never created, acknowledged before time began, or acknowledged before it was created. */
  predicate Misdated(a: Alert) {
    a.createdAt < 1 || a.acknowledgedAt < 0 || 0 < a.acknowledgedAt < a.createdAt
  }

  ghost predicate ValidAlerts(s: seq<Alert>) {
    Unique(s, AlertId) && forall i :: 0 <= i < |s| ==> ValidAlert(s[i])
  }

  function Excess(size: nat, limit: nat): nat { if size > limit then size - limit else 0 }

  // ----- mutation journal -----

  const MAX_MUTATION_ENTRIES: nat := 256

  datatype MutationState = Pending | Retryable | Completed | Rejected | Ambiguous

  datatype Mutation = Mutation(
    id: nat, path: string, state: MutationState, outcome: string, createdAt: int, updatedAt: int)

  function MutationId(m: Mutation): nat { m.id }

  const POLL_PATH := "/api/wallets/poll"
  const POLL_ACKNOWLEDGED := "wallet_delivery_batch_acknowledged"

  predicate Removable(m: Mutation) {
    && (m.state.Completed? || m.state.Rejected?)
    && !(m.state.Completed? && m.path == POLL_PATH && m.outcome != POLL_ACKNOWLEDGED)
  }

  /** Work that is not settled, said by state and path: pending, retryable and ambiguous records, and
      completed wallet polls whose delivery nobody has acknowledged. */
  predicate MustStay(m: Mutation) {
    || m.state.Pending? || m.state.Retryable? || m.state.Ambiguous?
    || (&& m.state.Completed? && m.path == "/api/wallets/poll"
        && m.outcome != "wallet_delivery_batch_acknowledged")
  }

  predicate MutationLeq(x: Mutation, y: Mutation) {
    || x.updatedAt < y.updatedAt
    || (x.updatedAt == y.updatedAt && (x.createdAt < y.createdAt
        || (x.createdAt == y.createdAt && x.id <= y.id)))
  }

  // ----- making room for a batch -----

  lemma {:induction false} WithoutNone<T>(t: seq<T>, id: T -> nat, ids: set<nat>)
    requires forall i :: 0 <= i < |t| ==> id(t[i]) !in ids
    ensures Without(t, id, ids) == t
  {
    if t != [] {
      assert t == [t[0]] + t[1..];
      WithoutNone(t[1..], id, ids);
    }
  }

  lemma {:induction false} WithoutConcat<T>(s: seq<T>, t: seq<T>, id: T -> nat, ids: set<nat>)
    ensures Without(s + t, id, ids) == Without(s, id, ids) + Without(t, id, ids)
  {
    if s == [] {
      assert s + t == t;
    } else {
      var head := if id(s[0]) in ids then [] else [s[0]];
      WithoutConcat(s[1..], t, id, ids);
      assert (s + t)[1..] == s[1..] + t && (s + t)[0] == s[0];
      assert Without(s + t, id, ids) == head + Without(s[1..] + t, id, ids);
      Grouped(head, Without(s[1..], id, ids), Without(t, id, ids));
    }
  }

  lemma Grouped<T>(a: seq<T>, b: seq<T>, c: seq<T>)
    ensures a + (b + c) == a + b + c
  {
  }

  lemma UniqueConcat<T>(s: seq<T>, t: seq<T>, id: T -> nat)
    requires Unique(s + t, id)
    ensures Unique(s, id)
    ensures forall j :: 0 <= j < |t| ==> id(t[j]) !in Ids(s, id)
    ensures forall x :: x in s ==> x !in t
  {
    var all := s + t;
    forall i, j | 0 <= i < |s| && 0 <= j < |t| ensures id(s[i]) != id(t[j]) {
      assert all[i] == s[i] && all[|s| + j] == t[j];
    }
    forall i, j | 0 <= i < j < |s| ensures id(s[i]) != id(s[j]) {
      assert all[i] == s[i] && all[j] == s[j];
    }
  }

  /** Filtering the combined list by the evicted identities keeps the whole new batch at the end. */
  lemma EvictBeforeBatch<T(!new)>(s: seq<T>, batch: seq<T>, id: T -> nat, settled: T -> bool,
                                  leq: (T, T) -> bool, k: nat)
    requires TotalOrder(leq) && Unique(s + batch, id) && k <= |Settled(s, settled)|
    ensures Unique(s, id) && |Queue(s, settled, leq)| == |Settled(s, settled)|
    ensures Without(s + batch, id, Ids(Queue(s, settled, leq)[..k], id))
         == Evict(s, id, settled, leq, k) + batch
    ensures Unique(Evict(s, id, settled, leq, k) + batch, id)
  {
    UniqueConcat(s, batch, id);
    QueueFacts(s, id, settled, leq);
    EvictedIds(s, id, settled, leq, k);
    var ids := Ids(Queue(s, settled, leq)[..k], id);
    WithoutConcat(s, batch, id, ids);
    WithoutNone(batch, id, ids);
    WithoutKeeps(s + batch, id, ids);
    SubsequenceKeeps(Without(s + batch, id, ids), s + batch, id);
  }

  // ----- the two journals as one run of operations -----

  datatype AlertOp = Notify(batch: seq<Alert>) | Acknowledge(id: nat, now: int)

  ghost predicate Acceptable(s: seq<Alert>, batch: seq<Alert>) {
    && batch != [] && ValidAlerts(s + batch)
    && Excess(|s| + |batch|, MAX_ALERT_EVENTS) <= |Settled(s, Acknowledged)|
  }

  function Acknowledging(s: seq<Alert>, id: nat, now: int): seq<Alert> {
    if s == [] then []
    else if s[0].id != id then [s[0]] + Acknowledging(s[1..], id, now)
    else if Acknowledged(s[0]) then s
    else [s[0].(acknowledgedAt := if now > s[0].createdAt then now else s[0].createdAt)] + s[1..]
  }

  lemma AlertOrder()
    ensures TotalOrder(AlertLeq)
  {
  }

  lemma MutationOrder()
    ensures TotalOrder(MutationLeq)
  {
  }

  ghost function AfterAlertOp(s: seq<Alert>, op: AlertOp): seq<Alert>
    requires ValidAlerts(s)
  {
    match op
    case Notify(batch) =>
      if !Acceptable(s, batch) then s
      else
        var k := Excess(|s| + |batch|, MAX_ALERT_EVENTS);
        AlertOrder();
        EvictBeforeBatch(s, batch, AlertId, Acknowledged, AlertLeq, k);
        Evict(s, AlertId, Acknowledged, AlertLeq, k) + batch
    case Acknowledge(id, now) => Acknowledging(s, id, now)
  }

  lemma {:induction false} AcknowledgingFacts(s: seq<Alert>, id: nat, now: int)
    requires ValidAlerts(s)
    ensures var r := Acknowledging(s, id, now);
            && |r| == |s| && ValidAlerts(r)
            && (forall i :: 0 <= i < |s| ==>
                 r[i].(acknowledgedAt := 0) == s[i].(acknowledgedAt := 0)
                 && (Acknowledged(r[i]) <==> Acknowledged(s[i]) || s[i].id == id)
                 && (s[i].id != id || Acknowledged(s[i]) ==> r[i] == s[i]))
  {
    if s != [] && s[0].id != id {
      var t := s[1..];
      assert ValidAlerts(t);
      AcknowledgingFacts(t, id, now);
      var r := Acknowledging(s, id, now);
      assert r == [s[0]] + Acknowledging(t, id, now);
      forall i | 1 <= i < |s| ensures r[i] == Acknowledging(t, id, now)[i - 1] && s[i] == t[i - 1] { }
      assert forall i :: 0 <= i < |s| ==> r[i].id == s[i].id by {
        forall i | 1 <= i < |s| ensures r[i].id == s[i].id {
          assert r[i].(acknowledgedAt := 0).id == s[i].(acknowledgedAt := 0).id;
        }
      }
    }
  }

  /** The notification acknowledged is the first with that identity. */
  lemma {:induction false} AcknowledgingAt(s: seq<Alert>, id: nat, now: int, i: nat)
    requires i <= |s| && (forall j :: 0 <= j < i ==> s[j].id != id) && (i < |s| ==> s[i].id == id)
    ensures i == |s| || Acknowledged(s[i]) ==> Acknowledging(s, id, now) == s
    ensures i < |s| && !Acknowledged(s[i]) ==>
      Acknowledging(s, id, now)
      == s[i := s[i].(acknowledgedAt := if now > s[i].createdAt then now else s[i].createdAt)]
  {
    if s != [] {
      assert s == [s[0]] + s[1..];
      if i > 0 { AcknowledgingAt(s[1..], id, now, i - 1); }
    }
  }

  /** One operation keeps the history well formed, drops only acknowledged notifications, oldest
      first, keeps the whole new batch, and leaves everything else unchanged. */
  lemma NotifySound(s: seq<Alert>, batch: seq<Alert>)
    requires ValidAlerts(s) && Acceptable(s, batch)
    ensures var r := AfterAlertOp(s, Notify(batch));
            && ValidAlerts(r) && |batch| <= |r| && r[|r| - |batch|..] == batch
            && (|s| + |batch| <= 1000 ==> r == s + batch)
            && (|s| + |batch| > 1000 ==> |r| == 1000)
            && (forall x :: x in s && x.acknowledgedAt == 0 ==> x in r)
            && (forall x, y :: x in s && x !in r && y in s && y in r && y.acknowledgedAt != 0 ==>
                  x.createdAt <= y.createdAt && (x.createdAt == y.createdAt ==> x.id <= y.id))
  {
    var k := Excess(|s| + |batch|, MAX_ALERT_EVENTS);
    AlertOrder();
    EvictBeforeBatch(s, batch, AlertId, Acknowledged, AlertLeq, k);
    var kept := Evict(s, AlertId, Acknowledged, AlertLeq, k);
    KeptAlerts(s, k);
    KeptValid(s, kept, batch);
    UniqueConcat(s, batch, AlertId);
    if k == 0 { EvictNone(s); }
  }

  lemma EvictNone(s: seq<Alert>)
    ensures Evict(s, AlertId, Acknowledged, AlertLeq, 0) == s
  {
    assert Ids(Queue(s, Acknowledged, AlertLeq)[..0], AlertId) == {};
    WithoutNone(s, AlertId, {});
  }

  /** What eviction leaves, said in times and identities. */
  lemma KeptAlerts(s: seq<Alert>, k: nat)
    requires Unique(s, AlertId) && k <= |Settled(s, Acknowledged)|
    ensures k <= |Queue(s, Acknowledged, AlertLeq)|
    ensures var kept := Evict(s, AlertId, Acknowledged, AlertLeq, k);
            && |kept| == |s| - k && (forall x :: x in kept ==> x in s)
            && (forall x :: x in s && x !in kept ==> x.acknowledgedAt != 0)
            && (forall x, y :: x in s && x !in kept && y in kept && y.acknowledgedAt != 0 ==>
                  x.createdAt <= y.createdAt && (x.createdAt == y.createdAt ==> x.id <= y.id))
  {
    AlertOrder();
    EvictTakesOldest(s, AlertId, Acknowledged, AlertLeq, k);
    var kept := Evict(s, AlertId, Acknowledged, AlertLeq, k);
    forall x, y | x in s && x !in kept && y in kept && y.acknowledgedAt != 0
      ensures x.createdAt <= y.createdAt && (x.createdAt == y.createdAt ==> x.id <= y.id)
    {
      assert AlertLeq(x, y);
    }
  }

  lemma KeptValid(s: seq<Alert>, kept: seq<Alert>, batch: seq<Alert>)
    requires ValidAlerts(s + batch) && (forall x :: x in kept ==> x in s)
    ensures forall i :: 0 <= i < |kept + batch| ==> ValidAlert((kept + batch)[i])
  {
    var r := kept + batch;
    forall i | 0 <= i < |r| ensures ValidAlert(r[i]) {
      if i < |kept| {
        assert kept[i] in kept;
        var j :| 0 <= j < |s| && s[j] == kept[i];
        assert (s + batch)[j] == r[i];
      } else {
        assert r[i] == (s + batch)[|s| + i - |kept|];
      }
    }
  }

  lemma MisdatedMeans(a: Alert)
    ensures Misdated(a) <==> !ValidAlert(a)
  {
  }

  /** A batch is sound behind a sound history exactly if no identity repeats and no event is misdated. */
  lemma BatchValid(s: seq<Alert>, batch: seq<Alert>)
    requires ValidAlerts(s)
    ensures ValidAlerts(s + batch) <==> Unique(s + batch, AlertId) && forall e :: e in batch ==> !Misdated(e)
  {
    var all := s + batch;
    forall e { MisdatedMeans(e); }
    if ValidAlerts(all) {
      forall e | e in batch ensures ValidAlert(e) {
        var i :| 0 <= i < |batch| && batch[i] == e;
        assert all[|s| + i] == e;
      }
    } else if Unique(all, AlertId) && forall e :: e in batch ==> !Misdated(e) {
      forall i | 0 <= i < |all| ensures ValidAlert(all[i]) {
        if i < |s| { assert all[i] == s[i]; } else { assert all[i] == batch[i - |s|] && batch[i - |s|] in batch; }
      }
    }
  }

  /** Filtering old and new notifications together gives the specified history. */
  lemma NotifyComputes(s: seq<Alert>, batch: seq<Alert>)
    requires ValidAlerts(s) && Acceptable(s, batch)
    ensures var k := Excess(|s| + |batch|, MAX_ALERT_EVENTS);
            var queue := Queue(s, Acknowledged, AlertLeq);
            k <= |queue|
            && Without(s + batch, AlertId, Ids(queue[..k], AlertId)) == AfterAlertOp(s, Notify(batch))
  {
    AlertOrder();
    EvictBeforeBatch(s, batch, AlertId, Acknowledged, AlertLeq, Excess(|s| + |batch|, MAX_ALERT_EVENTS));
  }

  ghost function AlertRun(s: seq<Alert>, ops: seq<AlertOp>): (r: seq<Alert>)
    requires ValidAlerts(s)
    ensures ValidAlerts(r)
    decreases |ops|
  {
    if ops == [] then s
    else
      AlertOpKeepsValid(s, ops[0]);
      AlertRun(AfterAlertOp(s, ops[0]), ops[1..])
  }

  lemma AlertOpKeepsValid(s: seq<Alert>, op: AlertOp)
    requires ValidAlerts(s)
    ensures ValidAlerts(AfterAlertOp(s, op))
    ensures |s| <= MAX_ALERT_EVENTS ==> |AfterAlertOp(s, op)| <= MAX_ALERT_EVENTS
    ensures forall x :: x in s && x.acknowledgedAt == 0 && !(op.Acknowledge? && op.id == x.id) ==>
      x in AfterAlertOp(s, op)
  {
    match op
    case Notify(batch) => if Acceptable(s, batch) { NotifySound(s, batch); }
    case Acknowledge(id, now) =>
      AcknowledgingFacts(s, id, now);
      forall x | x in s && x.id != id ensures x in Acknowledging(s, id, now) {
        var i :| 0 <= i < |s| && s[i] == x;
        assert Acknowledging(s, id, now)[i] == x;
      }
  }

  /** Over every sequence of notifications and acknowledgements the history stays within its limit,
      and a notification nobody acknowledged is still there, unchanged. */
  lemma {:induction false} AlertsNeverForgotten(s: seq<Alert>, ops: seq<AlertOp>, x: Alert)
    requires ValidAlerts(s) && |s| <= MAX_ALERT_EVENTS
    ensures |AlertRun(s, ops)| <= 1000
    ensures x in s && x.acknowledgedAt == 0
         && (forall i :: 0 <= i < |ops| ==> !(ops[i].Acknowledge? && ops[i].id == x.id))
         ==> x in AlertRun(s, ops)
    decreases |ops|
  {
    if ops != [] {
      AlertOpKeepsValid(s, ops[0]);
      AlertsNeverForgotten(AfterAlertOp(s, ops[0]), ops[1..], x);
    }
  }

  // ----- runs of the mutation journal -----

  /** `Revise` is any later in-place change of one record's disposition. */
  datatype MutationOp =
    | Record(entry: Mutation)
    | Revise(id: nat, state: MutationState, outcome: string, updatedAt: int)

  /** A journal with room for one more, or nothing when every record must be kept. */
  datatype Room = NoRoom | Room(kept: seq<Mutation>)

  function MakeRoom(s: seq<Mutation>): Room
    requires Unique(s, MutationId)
  {
    if |s| < MAX_MUTATION_ENTRIES then Room(s)
    else if Settled(s, Removable) == [] then NoRoom
    else
      MutationOrder();
      QueueFacts(s, MutationId, Removable, MutationLeq);
      Room(Evict(s, MutationId, Removable, MutationLeq, 1))
  }

  lemma MakeRoomSound(s: seq<Mutation>)
    requires Unique(s, MutationId)
    ensures MakeRoom(s).NoRoom? <==> |s| >= 256 && forall x :: x in s ==> MustStay(x)
    ensures MakeRoom(s).Room? ==>
      var kept := MakeRoom(s).kept;
      && Subsequence(kept, s) && Unique(kept, MutationId)
      && |kept| == (if |s| < 256 then |s| else |s| - 1)
      && (forall x :: x in kept ==> x in s)
      && (forall x :: x in s && x !in kept ==> !MustStay(x))
      && (forall x, y :: x in s && x !in kept && y in kept && !MustStay(y) ==>
            && x.updatedAt <= y.updatedAt && (x.updatedAt == y.updatedAt ==> x.createdAt <= y.createdAt)
            && (x.updatedAt == y.updatedAt && x.createdAt == y.createdAt ==> x.id <= y.id))
  {
    if |s| < MAX_MUTATION_ENTRIES {
      SubsequenceSelf(s);
    } else {
      MayGo(s);
      if Settled(s, Removable) != [] { EvictedRecord(s); }
    }
  }

  /** Records that must stay are exactly those that are not removable. */
  lemma StayMeans(m: Mutation)
    ensures MustStay(m) <==> !Removable(m)
  {
  }

  lemma MayGo(s: seq<Mutation>)
    ensures Settled(s, Removable) == [] <==> forall x :: x in s ==> MustStay(x)
  {
    SettledMembers(s, Removable, MutationId);
    forall x ensures MustStay(x) <==> !Removable(x) { StayMeans(x); }
    if Settled(s, Removable) != [] { assert Settled(s, Removable)[0] in s; }
  }

  lemma EvictedRecord(s: seq<Mutation>)
    requires Unique(s, MutationId) && Settled(s, Removable) != []
    ensures 1 <= |Queue(s, Removable, MutationLeq)|
    ensures var kept := Evict(s, MutationId, Removable, MutationLeq, 1);
            && Subsequence(kept, s) && Unique(kept, MutationId) && |kept| == |s| - 1
            && (forall x :: x in kept ==> x in s)
            && (forall x :: x in s && x !in kept ==> !MustStay(x))
            && (forall x, y :: x in s && x !in kept && y in kept && !MustStay(y) ==>
                  && x.updatedAt <= y.updatedAt && (x.updatedAt == y.updatedAt ==> x.createdAt <= y.createdAt)
                  && (x.updatedAt == y.updatedAt && x.createdAt == y.createdAt ==> x.id <= y.id))
  {
    MutationOrder();
    EvictTakesOldest(s, MutationId, Removable, MutationLeq, 1);
    var kept := Evict(s, MutationId, Removable, MutationLeq, 1);
    forall x | x in s && x !in kept ensures !MustStay(x) { StayMeans(x); }
    forall x, y | x in s && x !in kept && y in kept && !MustStay(y)
      ensures x.updatedAt <= y.updatedAt && (x.updatedAt == y.updatedAt ==> x.createdAt <= y.createdAt)
      ensures x.updatedAt == y.updatedAt && x.createdAt == y.createdAt ==> x.id <= y.id
    {
      StayMeans(y);
      assert MutationLeq(x, y);
    }
  }

  /** Filtering a full journal by the first identity in the queue makes the specified room. */
  lemma RoomComputes(s: seq<Mutation>)
    requires Unique(s, MutationId) && |s| >= MAX_MUTATION_ENTRIES
    ensures var q := Queue(s, Removable, MutationLeq);
            && (q == [] <==> MakeRoom(s).NoRoom?)
            && (q != [] ==> MakeRoom(s) == Room(Without(s, MutationId, {q[0].id})))
  {
    MutationOrder();
    QueueFacts(s, MutationId, Removable, MutationLeq);
    var q := Queue(s, Removable, MutationLeq);
    if q != [] {
      assert Ids(q[..1], MutationId) == {q[0].id} by {
        assert MutationId(q[..1][0]) == q[0].id;
      }
    }
  }

  function Revised(s: seq<Mutation>, op: MutationOp): seq<Mutation>
    requires op.Revise?
  {
    seq(|s|, i requires 0 <= i < |s| =>
      if s[i].id == op.id then s[i].(state := op.state, outcome := op.outcome, updatedAt := op.updatedAt)
      else s[i])
  }

  function AfterMutationOp(s: seq<Mutation>, op: MutationOp): seq<Mutation>
    requires Unique(s, MutationId)
  {
    match op
    case Record(entry) =>
      (match MakeRoom(s)
       case NoRoom => s
       case Room(kept) => kept + [entry])
    case Revise(_, _, _, _) => Revised(s, op)
  }

  /** Appended records carry identities not in the journal, as generated ones do. */
  ghost predicate NewRecord(s: seq<Mutation>, op: MutationOp) {
    op.Record? ==> forall x :: x in s ==> x.id != op.entry.id
  }

  /** One operation keeps identities distinct and never raises the size above the limit or above what
      it was; a record leaves only if it is removable and no older removable record stays. */
  lemma MutationOpSound(s: seq<Mutation>, op: MutationOp)
    requires Unique(s, MutationId) && NewRecord(s, op)
    ensures var r := AfterMutationOp(s, op);
            && Unique(r, MutationId)
            && (|r| <= |s| || |r| <= 256)
            && (forall x :: x in s && x.id !in Ids(r, MutationId) ==> !MustStay(x))
            && (forall x :: x in s && !(op.Revise? && op.id == x.id) && MustStay(x) ==> x in r)
  {
    match op
    case Record(entry) => RecordSound(s, entry);
    case Revise(_, _, _, _) => ReviseSound(s, op);
  }

  lemma IdsOf(s: seq<Mutation>)
    ensures forall x :: x in s ==> x.id in Ids(s, MutationId)
  {
    forall x | x in s ensures x.id in Ids(s, MutationId) {
      var i :| 0 <= i < |s| && s[i] == x;
      assert MutationId(s[i]) == x.id;
    }
  }

  lemma UniqueAppend(s: seq<Mutation>, m: Mutation)
    requires Unique(s, MutationId) && forall x :: x in s ==> x.id != m.id
    ensures Unique(s + [m], MutationId)
  {
    var r := s + [m];
    forall i, j | 0 <= i < j < |r| ensures MutationId(r[i]) != MutationId(r[j]) {
      assert r[i] == s[i] && s[i] in s;
      if j < |s| { assert r[j] == s[j]; }
    }
  }

  lemma RecordSound(s: seq<Mutation>, m: Mutation)
    requires Unique(s, MutationId) && NewRecord(s, Record(m))
    ensures var r := AfterMutationOp(s, Record(m));
            && Unique(r, MutationId)
            && (|r| <= |s| || |r| <= 256)
            && (forall x :: x in s && x.id !in Ids(r, MutationId) ==> !MustStay(x))
            && (forall x :: x in s && MustStay(x) ==> x in r)
  {
    MakeRoomSound(s);
    IdsOf(AfterMutationOp(s, Record(m)));
    if MakeRoom(s).Room? { UniqueAppend(MakeRoom(s).kept, m); }
  }

  lemma ReviseSound(s: seq<Mutation>, op: MutationOp)
    requires Unique(s, MutationId) && op.Revise?
    ensures var r := AfterMutationOp(s, op);
            && Unique(r, MutationId) && |r| == |s|
            && (forall x :: x in s ==> x.id in Ids(r, MutationId))
            && (forall x :: x in s && x.id != op.id ==> x in r)
  {
    var r := Revised(s, op);
    assert forall i :: 0 <= i < |s| ==> MutationId(r[i]) == MutationId(s[i]);
    forall x | x in s ensures x.id in Ids(r, MutationId) && (x.id != op.id ==> x in r) {
      var i :| 0 <= i < |s| && s[i] == x;
      assert MutationId(r[i]) == x.id;
      assert x.id != op.id ==> r[i] == x;
    }
  }

  /** A run starts from what the loader accepts: distinct identities, at most 256 records. */
  ghost predicate MutationRun(states: seq<seq<Mutation>>, ops: seq<MutationOp>) {
    && |states| == |ops| + 1 && Unique(states[0], MutationId) && |states[0]| <= MAX_MUTATION_ENTRIES
    && forall i :: 0 <= i < |ops| ==> RunStep(states[i], ops[i], states[i + 1])
  }

  ghost predicate RunStep(s: seq<Mutation>, op: MutationOp, s': seq<Mutation>) {
    Unique(s, MutationId) && NewRecord(s, op) && s' == AfterMutationOp(s, op)
  }

  /** Over every run the journal never exceeds its limit. */
  lemma {:induction false} MutationsBounded(states: seq<seq<Mutation>>, ops: seq<MutationOp>, n: nat)
    requires MutationRun(states, ops) && n < |states|
    ensures |states[n]| <= 256
  {
    if n > 0 {
      MutationsBounded(states, ops, n - 1);
      assert RunStep(states[n - 1], ops[n - 1], states[n - 1 + 1]);
      MutationOpSound(states[n - 1], ops[n - 1]);
    }
  }

  ghost predicate SettledAt(s: seq<Mutation>, id: nat) {
    exists x :: x in s && x.id == id && !MustStay(x)
  }

  /** Over every run, an append leaves every record that must stay, and is refused exactly when 256 such
      records fill the journal. */
  lemma AppendKeepsUnsettled(states: seq<seq<Mutation>>, ops: seq<MutationOp>, n: nat)
    requires MutationRun(states, ops) && n < |ops| && ops[n].Record?
    ensures forall x :: x in states[n] && MustStay(x) ==> x in states[n + 1]
    ensures ops[n].entry in states[n + 1] <==> !(|states[n]| == 256 && forall x :: x in states[n] ==> MustStay(x))
  {
    assert RunStep(states[n], ops[n], states[n + 1]);
    MutationOpSound(states[n], ops[n]);
    MakeRoomSound(states[n]);
    MutationsBounded(states, ops, n);
    if MakeRoom(states[n]).Room? {
      var kept := MakeRoom(states[n]).kept;
      assert (kept + [ops[n].entry])[|kept|] == ops[n].entry;
    }
  }

  /** Over every run, a record that is gone at some point was settled at an earlier one: no pending,
      retryable, ambiguous or unacknowledged wallet-poll record is ever evicted. */
  lemma {:induction false} MutationsNeverForgotten(states: seq<seq<Mutation>>, ops: seq<MutationOp>,
                                                   id: nat, i: nat, j: nat)
    requires MutationRun(states, ops) && i <= j < |states|
    requires id in Ids(states[i], MutationId) && id !in Ids(states[j], MutationId)
    ensures exists k :: i <= k < j && SettledAt(states[k], id)
  {
    if id !in Ids(states[j - 1], MutationId) {
      MutationsNeverForgotten(states, ops, id, i, j - 1);
    } else {
      var k := j - 1;
      assert RunStep(states[k], ops[k], states[k + 1]);
      MutationOpSound(states[k], ops[k]);
      var m :| 0 <= m < |states[k]| && MutationId(states[k][m]) == id;
      assert states[k][m] in states[k];
      assert SettledAt(states[k], id);
    }
  }

  // ----- the configuration object -----

  datatype AlertOutcome = NothingToDo | InvalidEvent | DuplicateIdentity | HistoryFull | Appended

  class JournalHolder {
    var alerts: seq<Alert>
    var mutations: seq<Mutation>

    ghost predicate Valid() reads this { ValidAlerts(alerts) && Unique(mutations, MutationId) }

    constructor (alerts: seq<Alert>, mutations: seq<Mutation>)
      requires ValidAlerts(alerts) && Unique(mutations, MutationId)
      ensures Valid() && this.alerts == alerts && this.mutations == mutations
    {
      this.alerts, this.mutations := alerts, mutations;
    }

    /** Identities checked one by one against those already seen. */
    static method UniqueRecords(s: seq<Alert>) returns (ok: bool)
      ensures ok <==> Unique(s, AlertId)
    {
      var seen: set<nat> := {};
      var i := 0;
      while i < |s|
        invariant 0 <= i <= |s|
        invariant forall n :: n in seen <==> exists j :: 0 <= j < i && AlertId(s[j]) == n
        invariant forall j, k :: 0 <= j < k < i ==> AlertId(s[j]) != AlertId(s[k])
      {
        if AlertId(s[i]) in seen { return false; }
        seen := seen + {AlertId(s[i])};
        i := i + 1;
      }
      return true;
    }

    /** `append_alert_events`: the whole batch or nothing. */
    method AppendAlertEvents(batch: seq<Alert>) returns (r: AlertOutcome)
      requires Valid()
      modifies this`alerts
      ensures Valid() && alerts == AfterAlertOp(old(alerts), Notify(batch))
      ensures !r.Appended? ==> alerts == old(alerts)
      ensures r.NothingToDo? <==> batch == []
      ensures r.InvalidEvent? <==> exists e :: e in batch && Misdated(e)
      ensures r.DuplicateIdentity? <==>
        batch != [] && (forall e :: e in batch ==> !Misdated(e)) && !Unique(old(alerts) + batch, AlertId)
      ensures r.HistoryFull? <==>
        && batch != [] && ValidAlerts(old(alerts) + batch)
        && Excess(|old(alerts)| + |batch|, MAX_ALERT_EVENTS) > |Settled(old(alerts), Acknowledged)|
      ensures r.Appended? <==> Acceptable(old(alerts), batch)
    {
      if batch == [] { return NothingToDo; }
      BatchValid(alerts, batch);
      if exists e :: e in batch && Misdated(e) { return InvalidEvent; }
      var combined := alerts + batch;
      var unique := UniqueRecords(combined);
      if !unique { return DuplicateIdentity; }
      r := AppendValid(batch);
    }

    /** The eviction and the append, once identities and times are known to be sound. */
    method AppendValid(batch: seq<Alert>) returns (r: AlertOutcome)
      requires Valid() && batch != [] && ValidAlerts(alerts + batch)
      modifies this`alerts
      ensures Valid() && alerts == AfterAlertOp(old(alerts), Notify(batch))
      ensures r == if Acceptable(old(alerts), batch) then Appended else HistoryFull
      ensures r.HistoryFull? ==> alerts == old(alerts)
    {
      AlertOrder();
      QueueFacts(alerts, AlertId, Acknowledged, AlertLeq);
      var combined := alerts + batch;
      var removeCount := Excess(|combined|, MAX_ALERT_EVENTS);
      var removable := Queue(alerts, Acknowledged, AlertLeq);
      if removeCount > |removable| { return HistoryFull; }
      NotifyComputes(alerts, batch);
      NotifySound(alerts, batch);
      alerts := Without(combined, AlertId, Ids(removable[..removeCount], AlertId));
      return Appended;
    }

    /** `acknowledge_alert_event`: stamps the first acknowledgement and never moves it. */
    method AcknowledgeAlertEvent(id: nat, now: int) returns (found: bool)
      requires Valid()
      modifies this`alerts
      ensures Valid() && alerts == AfterAlertOp(old(alerts), Acknowledge(id, now))
      ensures found <==> id in Ids(old(alerts), AlertId)
      ensures !found ==> alerts == old(alerts)
    {
      AcknowledgingFacts(alerts, id, now);
      var i := 0;
      while i < |alerts| && alerts[i].id != id
        invariant 0 <= i <= |alerts|
        invariant forall j :: 0 <= j < i ==> AlertId(alerts[j]) != id
      {
        i := i + 1;
      }
      AcknowledgingAt(alerts, id, now, i);
      if i == |alerts| { return false; }
      assert AlertId(alerts[i]) == id;
      if !Acknowledged(alerts[i]) {
        var stamp := if now > alerts[i].createdAt then now else alerts[i].createdAt;
        alerts := alerts[i := alerts[i].(acknowledgedAt := stamp)];
      }
      return true;
    }

    /** `append_mutation_journal`. A repeated identity is not looked for. */
    method AppendMutation(entry: Mutation) returns (ok: bool)
      requires Valid()
      modifies this`mutations
      ensures mutations == AfterMutationOp(old(mutations), Record(entry))
      ensures NewRecord(old(mutations), Record(entry)) ==> Valid()
      ensures !ok <==> |old(mutations)| >= 256 && forall x :: x in old(mutations) ==> MustStay(x)
      ensures forall x :: x in old(mutations) && MustStay(x) ==> x in mutations
      ensures ok ==> mutations != [] && mutations[|mutations| - 1] == entry
      ensures !ok ==> mutations == old(mutations)
    {
      if NewRecord(mutations, Record(entry)) { MutationOpSound(mutations, Record(entry)); }
      MakeRoomSound(mutations);
      if |mutations| >= MAX_MUTATION_ENTRIES {
        RoomComputes(mutations);
        var removable := Queue(mutations, Removable, MutationLeq);
        if removable == [] { return false; }
        mutations := Without(mutations, MutationId, {removable[0].id});
      }
      mutations := mutations + [entry];
      return true;
    }
  }
}
