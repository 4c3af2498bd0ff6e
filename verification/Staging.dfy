/** Wallet cursors and the staging of one observed activity, as the desktop configuration
    object changes them in place. */
module Staging {
  import opened Outbox

  // ----- per-market wallet cursors -----

  const KEY_LEDGER_LIMIT: nat := 10_000

  datatype Cursor = Cursor(lastTs: int, lastTx: string, keys: seq<string>, stamps: map<string, int>)

  const EMPTY_CURSOR := Cursor(0, "", [], map[])

  /** A watch keeps the cursor of its active market unpacked and the others in a dictionary. */
  datatype Watch = Watch(active: string, current: Cursor, saved: map<string, Cursor>)

  function CursorFor(w: Watch, market: string): Cursor {
    if market == w.active then w.current
    else if market in w.saved then w.saved[market] else EMPTY_CURSOR
  }

  datatype Activity = Activity(key: string, ts: int, tx: string)

  function Max(a: int, b: int): int { if a >= b then a else b }

  function RetainedKeys(keys: seq<string>, stamps: map<string, int>, from: int): seq<string> {
    if keys == [] then []
    else (if keys[0] !in stamps || stamps[keys[0]] >= from then [keys[0]] else [])
         + RetainedKeys(keys[1..], stamps, from)
  }

  lemma {:induction false} RetainedMembers(keys: seq<string>, stamps: map<string, int>, from: int)
    ensures forall k :: k in RetainedKeys(keys, stamps, from)
                   <==> k in keys && (k in stamps ==> stamps[k] >= from)
  {
    if keys != [] { RetainedMembers(keys[1..], stamps, from); }
  }

  function Advance(c: Cursor, a: Activity): Cursor {
    var next := Max(c.lastTs, a.ts);
    var keys := RetainedKeys(c.keys, c.stamps, next);
    var recent := map k | k in c.stamps && c.stamps[k] >= next :: c.stamps[k];
    Cursor(next, if a.tx != "" then a.tx else c.lastTx,
           if a.key in keys then keys else keys + [a.key], recent[a.key := a.ts])
  }

  datatype Remembered = LedgerFull | Known(watch: Watch)

  function Remember(w: Watch, market: string, a: Activity): Remembered {
    var c := Advance(CursorFor(w, market), a);
    if |c.keys| > KEY_LEDGER_LIMIT then LedgerFull
    else if market == w.active then Known(w.(current := c))
    else Known(Watch(market, c, w.saved[w.active := w.current]))
  }

  /** Remembering advances one market's cursor and leaves every other market's cursor as it was,
      whichever market happened to be unpacked. */
  lemma RememberIsLocal(w: Watch, market: string, a: Activity)
    requires Remember(w, market, a).Known?
    ensures CursorFor(Remember(w, market, a).watch, market) == Advance(CursorFor(w, market), a)
    ensures forall other :: other != market ==>
      CursorFor(Remember(w, market, a).watch, other) == CursorFor(w, other)
    ensures Remember(w, market, a).watch.active == market
  {
  }

  /** It fails exactly if the market's cursor would then know more than 10000 keys. */
  lemma RememberFails(w: Watch, market: string, a: Activity)
    ensures Remember(w, market, a).LedgerFull? <==> |Advance(CursorFor(w, market), a).keys| > 10_000
  {
  }

  // ----- the staging decision -----

  datatype Task = Task(watch: string, market: string, payload: string, activity: Activity)

  predicate Matches(e: Entry, t: Task) {
    e.market == t.market && e.watch == t.watch && e.key == t.activity.key
  }

  /** The entry a stage appends; `id` and `now` come from the identity source and the clock. */
  function NewEntry(t: Task, id: nat, now: int): Entry {
    Entry(id, t.market, t.watch, t.activity.key, t.payload, Pending, 0, "", now, now, 0)
  }

  ghost predicate InOutbox(o: seq<Entry>, t: Task) { exists x :: x in o && Matches(x, t) }

  ghost predicate InOutboxAnyMarket(o: seq<Entry>, t: Task) {
    exists x :: x in o && x.watch == t.watch && x.key == t.activity.key
  }

  // ----- what the poller hands out -----

  /** Another market of the same watch has an entry under this key, and this market has none. */
  ghost predicate Collides(o: seq<Entry>, t: Task) { InOutboxAnyMarket(o, t) && !InOutbox(o, t) }

  /** Whether the poller would hand out this activity: a key it has seen only if it collides, any other
      unless it is older than the cursor. */
  ghost predicate Deliverable(c: Cursor, o: seq<Entry>, t: Task) {
    if t.activity.key in c.keys then Collides(o, t) else t.activity.ts >= c.lastTs
  }

  ghost predicate Delivered(c: Cursor, a: Activity) {
    || a.ts < c.lastTs
    || (a.key in c.keys && (a.key in c.stamps ==> c.stamps[a.key] == a.ts))
  }

  function AdvanceAll(c: Cursor, batch: seq<Activity>): Cursor {
    if batch == [] then c else Advance(AdvanceAll(c, batch[..|batch| - 1]), batch[|batch| - 1])
  }

  lemma AdvanceKeepsDelivered(c: Cursor, a: Activity, b: Activity)
    requires b == a || (Delivered(c, a) && (b.key == a.key ==> b.ts == a.ts))
    ensures Delivered(Advance(c, b), a)
  {
    RetainedMembers(c.keys, c.stamps, Max(c.lastTs, b.ts));
  }

  /** Advancing sets the newest time, keeps the last transaction when the activity has none, forgets exactly
      the dated keys that fell behind, and adds the new key with its time. */
  lemma AdvanceExactly(c: Cursor, a: Activity)
    ensures var r := Advance(c, a);
            && r.lastTs == (if a.ts > c.lastTs then a.ts else c.lastTs)
            && r.lastTx == (if a.tx == "" then c.lastTx else a.tx)
            && (forall k :: k in r.keys <==>
                  k == a.key || (k in c.keys && (k in c.stamps ==> c.stamps[k] >= r.lastTs)))
            && (forall k :: k in r.stamps <==> k == a.key || (k in c.stamps && c.stamps[k] >= r.lastTs))
            && (forall k :: k in r.stamps ==> r.stamps[k] == if k == a.key then a.ts else c.stamps[k])
  {
    RetainedMembers(c.keys, c.stamps, Max(c.lastTs, a.ts));
  }

  lemma {:induction false} NewestTime(c: Cursor, batch: seq<Activity>, ts: int)
    requires ts >= c.lastTs && forall i :: 0 <= i < |batch| ==> ts >= batch[i].ts
    ensures ts >= AdvanceAll(c, batch).lastTs
  {
    if batch != [] { NewestTime(c, batch[..|batch| - 1], ts); }
  }

  lemma {:induction false} OnlyGivenKeys(c: Cursor, batch: seq<Activity>, key: string)
    requires key !in c.keys && forall i :: 0 <= i < |batch| ==> batch[i].key != key
    ensures key !in AdvanceAll(c, batch).keys
  {
    if batch != [] {
      var last := |batch| - 1;
      OnlyGivenKeys(c, batch[..last], key);
      AdvanceExactly(AdvanceAll(c, batch[..last]), batch[last]);
    }
  }

  /** Nothing new is missed: over every history, an activity whose key was never remembered and whose time is
      no older than any that was is handed out. */
  lemma UnseenIsDelivered(c: Cursor, batch: seq<Activity>, o: seq<Entry>, t: Task)
    requires t.activity.key !in c.keys && forall i :: 0 <= i < |batch| ==> batch[i].key != t.activity.key
    requires t.activity.ts >= c.lastTs && forall i :: 0 <= i < |batch| ==> t.activity.ts >= batch[i].ts
    ensures Deliverable(AdvanceAll(c, batch), o, t)
  {
    NewestTime(c, batch, t.activity.ts);
    OnlyGivenKeys(c, batch, t.activity.key);
  }

  lemma {:induction false} DeliveredStays(c: Cursor, batch: seq<Activity>, i: nat)
    requires i < |batch|
    requires forall j :: i <= j < |batch| && batch[j].key == batch[i].key ==> batch[j].ts == batch[i].ts
    ensures Delivered(AdvanceAll(c, batch), batch[i])
  {
    var last := |batch| - 1;
    if i < last { DeliveredStays(c, batch[..last], i); }
    AdvanceKeepsDelivered(AdvanceAll(c, batch[..last]), batch[i], batch[last]);
  }

  /** Over every history of one market's cursor, although old keys are forgotten, an activity that was
      remembered once is handed out again if and only if its key is still known and collides with
      another market's entry, provided a key always names one timestamp. Without a collision it never is. */
  lemma NeverRedelivered(c: Cursor, batch: seq<Activity>, i: nat, o: seq<Entry>, t: Task)
    requires i < |batch| && t.activity == batch[i]
    requires forall j :: i <= j < |batch| && batch[j].key == batch[i].key ==> batch[j].ts == batch[i].ts
    ensures Deliverable(AdvanceAll(c, batch), o, t) <==> batch[i].key in AdvanceAll(c, batch).keys && Collides(o, t)
    ensures !Collides(o, t) ==> !Deliverable(AdvanceAll(c, batch), o, t)
  {
    DeliveredStays(c, batch, i);
  }

  /** A collision does redeliver: the key is remembered for one market while another has the entry. */
  lemma CollisionRedelivers() returns (c: Cursor, o: seq<Entry>, t: Task)
    ensures c == AdvanceAll(EMPTY_CURSOR, [t.activity]) && Deliverable(c, o, t)
  {
    t := Task("watch", "kalshi", "", Activity("key", 1, "tx"));
    o := [NewEntry(t.(market := "polymarket"), 0, 1)];
    c := AdvanceAll(EMPTY_CURSOR, [t.activity]);
    assert [t.activity][..0] == [];
    assert o[0] in o && o[0].watch == t.watch && o[0].key == t.activity.key;
    assert "key" in c.keys;
  }

  datatype Outcome =
    | UnknownWatch     // raises: the watch was deleted
    | AlreadyHandled   // no checkpoint: acknowledged without work
    | Resumed          // replayable entry already durable, nothing staged
    | OutboxFull       // raises: only unresolved entries left
    | CursorFull       // raises: key ledger full
    | StagedNew

  datatype Checkpoint = Checkpoint(watchId: string, previousWatch: Watch, previousOutbox: seq<Entry>)

  datatype Reconciliation = NotFound | NotAmbiguous | BadResolution | Reconciled

  /** What each resolution word makes of an ambiguous entry. */
  ghost predicate Reconciles(x: Entry, word: string, now: int, y: Entry) {
    && (word == "confirmed_dispatched" ==>
          y == x.(state := Completed, note := "manual_dispatch_confirmed", updatedAt := now, replayAuthorizedAt := 0))
    && (word == "confirmed_not_dispatched" ==>
          y == x.(state := Retryable, note := "manual_dispatch_cleared", updatedAt := now, replayAuthorizedAt := now))
    && (word == "discard" ==>
          y == x.(state := Rejected, note := "manual_dispatch_discarded", updatedAt := now, replayAuthorizedAt := 0))
  }

  class AppConfig {
    var outbox: seq<Entry>
    var watches: map<string, Watch>

    constructor (outbox: seq<Entry>, watches: map<string, Watch>)
      ensures this.outbox == outbox && this.watches == watches
    {
      this.outbox := outbox;
      this.watches := watches;
    }

    method FindEntry(t: Task, anyMarket: bool) returns (found: bool, e: Entry)
      ensures found <==> if anyMarket then InOutboxAnyMarket(outbox, t) else InOutbox(outbox, t)
      ensures found ==> e in outbox && e.watch == t.watch && e.key == t.activity.key
      ensures found && !anyMarket ==> Matches(e, t)
    {
      found, e := false, NewEntry(t, 0, 0);
      var i := 0;
      while i < |outbox|
        invariant 0 <= i <= |outbox|
        invariant forall j :: 0 <= j < i ==>
          !(outbox[j].watch == t.watch && outbox[j].key == t.activity.key
            && (anyMarket || outbox[j].market == t.market))
      {
        var x := outbox[i];
        if x.watch == t.watch && x.key == t.activity.key && (anyMarket || x.market == t.market) {
          assert x in outbox;
          return true, x;
        }
        i := i + 1;
      }
    }

    method PruneOutbox()
      requires UniqueIds(outbox)
      modifies this`outbox
      ensures outbox == Pruned(old(outbox))
    {
      if |outbox| > HISTORY_LIMIT {
        outbox := RetainWithinLimit(outbox, |outbox| - HISTORY_LIMIT);
      }
    }

    /** The pruning loop: one pass that skips conclusive entries while overflow remains. */
    static method RetainWithinLimit(entries: seq<Entry>, excess: nat) returns (retained: seq<Entry>)
      requires UniqueIds(entries)
      ensures retained == DropConclusive(entries, excess)
    {
      var overflow := excess;
      var removable := set i | 0 <= i < |entries| && Conclusive(entries[i].state) :: entries[i].id;
      retained := [];
      var i := 0;
      assert entries[0..] == entries;
      while i < |entries|
        invariant 0 <= i <= |entries|
        invariant forall j :: i <= j < |entries| ==>
          (entries[j].id in removable <==> Conclusive(entries[j].state))
        invariant DropConclusive(entries, excess) == retained + DropConclusive(entries[i..], overflow)
      {
        var entry := entries[i];
        ghost var rest := entries[i + 1..];
        DropStep(entries, i, overflow);
        assert forall j :: i < j < |entries| ==> entries[j].id != entry.id;
        if overflow > 0 && entry.id in removable {
          overflow := overflow - 1;
          removable := removable - {entry.id};
        } else {
          Regroup(retained, entry, DropConclusive(rest, overflow));
          retained := retained + [entry];
        }
        i := i + 1;
      }
    }

    static lemma Regroup(a: seq<Entry>, x: Entry, b: seq<Entry>)
      ensures a + ([x] + b) == a + [x] + b
    {
    }

    static lemma DropStep(entries: seq<Entry>, i: nat, n: nat)
      requires i < |entries|
      ensures n > 0 && Conclusive(entries[i].state) ==>
        DropConclusive(entries[i..], n) == DropConclusive(entries[i + 1..], n - 1)
      ensures !(n > 0 && Conclusive(entries[i].state)) ==>
        DropConclusive(entries[i..], n) == [entries[i]] + DropConclusive(entries[i + 1..], n)
    {
      assert entries[i..][1..] == entries[i + 1..];
      if n == 0 { assert entries[i..] == [entries[i]] + entries[i + 1..]; }
    }

    /** Makes room for one entry by evicting the oldest conclusive ones, or refuses. */
    method EvictForOne(ghost e: Entry) returns (ok: bool)
      requires WellFormed(outbox) && forall x :: x in outbox ==> x.id != e.id && !SameActivity(x, e)
      modifies this`outbox
      ensures ok <==> RequiredSlots(old(outbox)) <= |Conclusives(old(outbox))|
      ensures !ok ==> outbox == old(outbox)
      ensures ok ==> Stage(old(outbox), e) == Ready(Pruned(outbox + [e])) && WellFormed(outbox + [e])
    {
      ConclusivesMembers(outbox);
      if |outbox| >= HISTORY_LIMIT {
        var slots := |outbox| - HISTORY_LIMIT + 1;
        if |Conclusives(outbox)| < slots { return false; }
        EvictionTakesOldest(outbox, slots);
        var kept := EvictOldest(outbox, slots);
        SubsequenceKeepsWellFormed(kept, outbox);
        outbox := kept;
      }
      AppendKeepsWellFormed(outbox, e);
      return true;
    }

    /** `reconcile_ambiguous_copy_activity`, for a resolution already put into its normal spelling. */
    method ReconcileAmbiguous(id: nat, word: string, now: int) returns (r: Reconciliation, ghost at: nat)
      modifies this`outbox
      ensures r.NotFound? <==> forall i :: 0 <= i < |old(outbox)| ==> old(outbox)[i].id != id
      ensures !r.NotFound? ==>
        at < |old(outbox)| && old(outbox)[at].id == id && forall i :: 0 <= i < at ==> old(outbox)[i].id != id
      ensures !r.NotFound? ==> (r.NotAmbiguous? <==> !old(outbox)[at].state.Ambiguous?)
      ensures r.BadResolution? ==> word !in {"confirmed_dispatched", "confirmed_not_dispatched", "discard"}
      ensures r.Reconciled? ==>
        && word in {"confirmed_dispatched", "confirmed_not_dispatched", "discard"}
        && |outbox| == |old(outbox)| && outbox == old(outbox)[at := outbox[at]]
        && Reconciles(old(outbox)[at], word, now, outbox[at])
      ensures !r.Reconciled? ==> outbox == old(outbox)
    {
      var i := 0;
      while i < |outbox| && outbox[i].id != id
        invariant 0 <= i <= |outbox| && forall j :: 0 <= j < i ==> outbox[j].id != id
      {
        i := i + 1;
      }
      at := i;
      if i == |outbox| { return NotFound, at; }
      var e := outbox[i];
      if !e.state.Ambiguous? { return NotAmbiguous, at; }
      if word == "confirmed_dispatched" {
        e := e.(state := Completed, note := "manual_dispatch_confirmed");
      } else if word == "confirmed_not_dispatched" {
        e := e.(state := Retryable, note := "manual_dispatch_cleared");
      } else if word == "discard" {
        e := e.(state := Rejected, note := "manual_dispatch_discarded");
      } else {
        return BadResolution, at;
      }
      e := e.(updatedAt := now, replayAuthorizedAt := if word == "confirmed_not_dispatched" then now else 0);
      outbox := outbox[i := e];
      return Reconciled, at;
    }

    method Restore(c: Checkpoint)
      modifies this
      ensures outbox == c.previousOutbox && watches == old(watches)[c.watchId := c.previousWatch]
    {
      watches := watches[c.watchId := c.previousWatch];
      outbox := c.previousOutbox;
    }

    /** `_apply_wallet_activity_checkpoint`: every raised outcome leaves the configuration exactly as
        it was, and `Restore` with the returned checkpoint undoes a successful stage exactly. */
    method ApplyCheckpoint(t: Task, id: nat, now: int) returns (r: Outcome, c: Checkpoint)
      requires WellFormed(outbox) && forall x :: x in outbox ==> x.id != id
      modifies this
      ensures r.UnknownWatch? <==> t.watch !in old(watches)
      ensures !r.StagedNew? ==> outbox == old(outbox) && watches == old(watches)
      ensures !r.UnknownWatch? ==> c == Checkpoint(t.watch, old(watches)[t.watch], old(outbox))
      ensures r.Resumed? ==> exists x :: x in outbox && Matches(x, t) && (x.state.Pending? || x.state.Retryable?)
      ensures r.AlreadyHandled? ==>
        || (exists x :: x in outbox && Matches(x, t) && !(x.state.Pending? || x.state.Retryable?))
        || (!InOutboxAnyMarket(outbox, t) && t.activity.key in CursorFor(watches[t.watch], t.market).keys)
      ensures r.OutboxFull? || r.CursorFull? || r.StagedNew? ==>
        || InOutboxAnyMarket(old(outbox), t)
        || t.activity.key !in CursorFor(old(watches)[t.watch], t.market).keys
      ensures r.OutboxFull? ==> !InOutbox(outbox, t) && RequiredSlots(outbox) > |Conclusives(outbox)|
      ensures r.CursorFull? ==> RequiredSlots(outbox) <= |Conclusives(outbox)|
      ensures r.CursorFull? ==>
        !InOutbox(outbox, t) && Remember(watches[t.watch], t.market, t.activity).LedgerFull?
      ensures r.StagedNew? ==>
        && !InOutbox(old(outbox), t)
        && WellFormed(outbox) && |outbox| <= HISTORY_LIMIT
        && Stage(old(outbox), NewEntry(t, id, now)) == Ready(outbox)
        && Remember(old(watches)[t.watch], t.market, t.activity).Known?
        && watches == old(watches)[t.watch := Remember(old(watches)[t.watch], t.market, t.activity).watch]
    {
      c := Checkpoint(t.watch, Watch("", EMPTY_CURSOR, map[]), []);
      if t.watch !in watches { return UnknownWatch, c; }
      var watch := watches[t.watch];
      c := Checkpoint(t.watch, watch, outbox);
      var found, existing := FindEntry(t, false);
      if found {
        return if Replayable(existing.state) then Resumed else AlreadyHandled, c;
      }
      var anyFound, _ := FindEntry(t, true);
      if !anyFound && t.activity.key in CursorFor(watch, t.market).keys {
        return AlreadyHandled, c;
      }
      r := StageTask(t, id, now, c);
    }

    /** The staging itself, once no entry of the activity was found. */
    method StageTask(t: Task, id: nat, now: int, c: Checkpoint) returns (r: Outcome)
      requires WellFormed(outbox) && (forall x :: x in outbox ==> x.id != id) && !InOutbox(outbox, t)
      requires t.watch in watches && c == Checkpoint(t.watch, watches[t.watch], outbox)
      modifies this
      ensures r.OutboxFull? || r.CursorFull? || r.StagedNew?
      ensures !r.StagedNew? ==> outbox == old(outbox) && watches == old(watches)
      ensures r.OutboxFull? <==> RequiredSlots(old(outbox)) > |Conclusives(old(outbox))|
      ensures r.CursorFull? ==> Remember(old(watches)[t.watch], t.market, t.activity).LedgerFull?
      ensures r.StagedNew? ==>
        && WellFormed(outbox) && |outbox| <= 500
        && Stage(old(outbox), NewEntry(t, id, now)) == Ready(outbox)
        && Remember(old(watches)[t.watch], t.market, t.activity).Known?
        && watches == old(watches)[t.watch := Remember(old(watches)[t.watch], t.market, t.activity).watch]
    {
      var e := NewEntry(t, id, now);
      forall x | x in outbox ensures !SameActivity(x, e) { assert !Matches(x, t); }
      StageSound(outbox, e);
      var room := EvictForOne(e);
      if !room { return OutboxFull; }
      var remembered := Remember(watches[t.watch], t.market, t.activity);
      if remembered.LedgerFull? {
        Restore(c);
        return CursorFull;
      }
      watches := watches[t.watch := remembered.watch];
      outbox := outbox + [e];
      PruneOutbox();
      return StagedNew;
    }
  }
}
