/** Any number of processes share one configuration file. Desktop processes stage and handle wallet
    activity, an operator reconciles ambiguous entries, other writers change unrelated fields, and
    every process may crash between any two steps. One save is one compare-and-swap, which is what
    module StoreRefinement establishes for the store underneath. */
module CopyProtocol {
  import opened Outbox
  import opened CopyLog
  import S = Staging

  datatype Snapshot = Snapshot(outbox: seq<Entry>, watches: map<string, S.Watch>, other: string)

  /** The file, and equally the revision a process remembers: the hash is taken to be injective and
      never equal to the missing revision, so a revision is the content it was computed from. */
  datatype Durable = Missing | File(content: Snapshot)

  function Base(d: Durable): Snapshot {
    if d.File? then d.content else Snapshot([], map[], "")
  }

  datatype Pc =
    | Idle
    | Handling(base: Entry, cur: Entry)  // inside the handler, before the dispatch boundary
    | InFlight(cur: Entry)               // the boundary is durable, the venue not yet called
    | Called(cur: Entry)                 // the venue was called
    | Broken(cur: Entry)                 // the boundary committed but its save raised

  datatype Proc = Proc(mem: Snapshot, rev: Durable, paused: bool, pc: Pc)

  datatype World = World(disk: Durable, procs: map<nat, Proc>, used: set<nat>, log: seq<Event>)

  /** How one save ends: nothing written, committed, or committed with an error raised afterwards. */
  datatype Save = Refused | Confirmed | Unconfirmed

  datatype Step =
    | Load(p: nat)
    | Crash(p: nat)
    | Edit(p: nat, other: string)
    | Persist(p: nat, watches: map<string, S.Watch>, other: string, save: Save)
    | StageNew(p: nat, task: S.Task, id: nat, now: int, save: Save)
    | Resume(p: nat, base: Entry, now: int)
    | Intend(p: nat, note: string, now: int, save: Save)
    | Call(p: nat)
    | Finish(p: nat, state: CopyState, note: string, now: int, save: Save)
    | Reconcile(p: nat, entry: Entry, state: CopyState, note: string, now: int, save: Save)

  // ----- entry updates -----

  function Attempted(e: Entry, now: int): Entry { e.(attempts := e.attempts + 1, updatedAt := now) }

  function Resolved(e: Entry, state: CopyState, note: string, now: int): Entry {
    e.(state := state, note := note, updatedAt := now)
  }

  function Cleared(e: Entry, state: CopyState, note: string, now: int): Entry {
    Resolved(e, state, note, now).(replayAuthorizedAt := if state.Retryable? then now else 0)
  }

  /** The list with the entry of that identity replaced. */
  function Subst(o: seq<Entry>, e: Entry): seq<Entry> {
    seq(|o|, i requires 0 <= i < |o| => if o[i].id == e.id then e else o[i])
  }

  lemma SubstFacts(o: seq<Entry>, x: Entry, e: Entry)
    requires WellFormed(o) && x in o && x.id == e.id && SameActivity(x, e)
    ensures WellFormed(Subst(o, e))
    ensures forall y :: y in Subst(o, e) <==> y == e || (y in o && y.id != e.id)
  {
    var r := Subst(o, e);
    var k :| 0 <= k < |o| && o[k] == x;
    assert r[k] == e;
    forall i | 0 <= i < |o| ensures o[i].id == e.id <==> i == k { }
    forall y | y in o && y.id != e.id ensures y in r {
      var i :| 0 <= i < |o| && o[i] == y;
      assert r[i] == y;
    }
  }

  lemma SubstTwice(o: seq<Entry>, a: Entry, b: Entry)
    requires a.id == b.id
    ensures Subst(Subst(o, a), b) == Subst(o, b)
  {
  }

  // ----- steps -----

  predicate MaySave(w: World, pr: Proc, save: Save) {
    save.Refused? || (w.disk == pr.rev && !pr.paused)
  }

  ghost predicate Enabled(w: World, s: Step) {
    if s.Load? then s.p !in w.procs
    else
      && s.p in w.procs
      && var pr := w.procs[s.p];
      match s
      case Load(_) => false
      case Crash(_) => true
      case Edit(_, _) => pr.pc.Idle?
      case Persist(_, _, _, save) => pr.pc.Idle? && !pr.paused && MaySave(w, pr, save)
      case StageNew(_, t, id, now, save) =>
        && pr.pc.Idle? && !pr.paused && MaySave(w, pr, save)
        && id !in w.used && t.watch in pr.mem.watches
        && WellFormed(pr.mem.outbox)
        && !S.InOutbox(pr.mem.outbox, t)
        && Stage(pr.mem.outbox, S.NewEntry(t, id, now)).Ready?
        && S.Remember(pr.mem.watches[t.watch], t.market, t.activity).Known?
      case Resume(_, base, _) =>
        pr.pc.Idle? && !pr.paused && base in pr.mem.outbox && Replayable(base.state)
      case Intend(_, _, _, save) => pr.pc.Handling? && !pr.paused && MaySave(w, pr, save)
      case Call(_) => pr.pc.InFlight?
      case Finish(_, state, _, _, save) =>
        && !pr.pc.Idle? && !state.Pending? && MaySave(w, pr, save)
        && (pr.pc.Called? ==> !state.Retryable?)
        && (pr.pc.Broken? ==> state.Ambiguous?)
      case Reconcile(_, e, state, _, _, save) =>
        && pr.pc.Idle? && !pr.paused && MaySave(w, pr, save)
        && e in pr.mem.outbox && e.state.Ambiguous?
        && (state.Completed? || state.Retryable? || state.Rejected?)
  }

  /** Memory after staging a new entry. */
  ghost function StagedMem(mem: Snapshot, t: S.Task, id: nat, now: int): Snapshot
    requires WellFormed(mem.outbox) && t.watch in mem.watches
    requires Stage(mem.outbox, S.NewEntry(t, id, now)).Ready?
    requires S.Remember(mem.watches[t.watch], t.market, t.activity).Known?
  {
    Snapshot(Stage(mem.outbox, S.NewEntry(t, id, now)).outbox,
             mem.watches[t.watch := S.Remember(mem.watches[t.watch], t.market, t.activity).watch],
             mem.other)
  }

  /** A process that saved `mem`: refused saves pause it, commits move the file and its revision. */
  function Saved(w: World, p: nat, mem: Snapshot, save: Save, ok: Pc, failed: Pc, undone: Proc): World
    requires p in w.procs
  {
    match save
    case Refused => w.(procs := w.procs[p := undone.(paused := true)])
    case Confirmed => w.(disk := File(mem), procs := w.procs[p := Proc(mem, File(mem), false, ok)])
    case Unconfirmed => w.(disk := File(mem), procs := w.procs[p := Proc(mem, File(mem), true, failed)])
  }

  function Record(w: World, save: Save, ev: Event): World {
    if save.Refused? then w else w.(log := w.log + [ev])
  }

  ghost function Apply(w: World, s: Step): World
    requires Enabled(w, s)
  {
    if s.Load? then w.(procs := w.procs[s.p := Proc(Base(w.disk), w.disk, false, Idle)])
    else
      var pr := w.procs[s.p];
      match s
      case Load(_) => w
      case Crash(p) => w.(procs := w.procs - {p})
      case Edit(p, other) => w.(procs := w.procs[p := pr.(mem := pr.mem.(other := other))])
      case Persist(p, watches, other, save) =>
        Saved(w, p, pr.mem.(watches := watches, other := other), save, Idle, Idle, pr)
      case StageNew(p, t, id, now, save) =>
        var mem := StagedMem(pr.mem, t, id, now);
        var e := S.NewEntry(t, id, now);
        var cur := Attempted(e, now);
        var v := Saved(w.(used := w.used + {id}), p, mem, save, Handling(e, cur), Idle, pr);
        if save.Confirmed?
        then v.(procs := v.procs[p := v.procs[p].(mem := mem.(outbox := Subst(mem.outbox, cur)))])
        else v
      case Resume(p, base, now) =>
        var cur := Attempted(base, now);
        w.(procs := w.procs[p := pr.(pc := Handling(base, cur),
                                     mem := pr.mem.(outbox := Subst(pr.mem.outbox, cur)))])
      case Intend(p, note, now, save) =>
        var cur := Resolved(pr.pc.cur, Ambiguous, note, now);
        var mem := pr.mem.(outbox := Subst(pr.mem.outbox, cur));
        Record(Saved(w, p, mem, save, InFlight(cur), Broken(cur), pr), save, Intent(cur.id, cur.attempts))
      case Call(p) =>
        var cur := pr.pc.cur;
        w.(procs := w.procs[p := pr.(pc := Called(cur))], log := w.log + [Dispatch(cur.id, cur.attempts)])
      case Finish(p, state, note, now, save) =>
        var cur := Resolved(pr.pc.cur, state, note, now);
        var mem := pr.mem.(outbox := Pruned(Subst(pr.mem.outbox, cur)));
        var v := Saved(w, p, mem, save, Idle, Idle, pr.(mem := mem, pc := Idle));
        if pr.pc.InFlight? && state.Retryable? then Record(v, save, Withdraw(cur.id, cur.attempts)) else v
      case Reconcile(p, e, state, note, now, save) =>
        var mem := pr.mem.(outbox := Subst(pr.mem.outbox, Cleared(e, state, note, now)));
        var v := Saved(w, p, mem, save, Idle, Idle, pr);
        if state.Retryable? then Record(v, save, Clear(e.id)) else v
  }

  // ----- invariant -----

  ghost predicate IdsUsed(o: seq<Entry>, used: set<nat>) { forall x :: x in o ==> x.id in used }

  ghost predicate Clean(s: Snapshot, used: set<nat>) { WellFormed(s.outbox) && IdsUsed(s.outbox, used) }

  /** A replayable durable entry has no open intent, and no attempt number was used twice. */
  ghost predicate EntryOk(x: Entry, log: seq<Event>) {
    && (Replayable(x.state) ==> PhaseOf(log, x.id).Free?)
    && Top(log, x.id) <= x.attempts
  }

  ghost predicate DiskOk(disk: Durable, used: set<nat>, log: seq<Event>) {
    Clean(Base(disk), used) && forall x :: x in Base(disk).outbox ==> EntryOk(x, log)
  }

  /** Outbox and cursors in memory equal those of the last snapshot loaded or committed. */
  ghost predicate InStep(pr: Proc) {
    pr.mem.outbox == Base(pr.rev).outbox && pr.mem.watches == Base(pr.rev).watches
  }

  ghost predicate HandlingOk(pr: Proc, base: Entry, cur: Entry) {
    && base in Base(pr.rev).outbox && Replayable(base.state)
    && cur.id == base.id && SameActivity(base, cur) && cur.attempts == base.attempts + 1
    && cur == base.(attempts := cur.attempts, updatedAt := cur.updatedAt)
    && pr.mem.outbox == Subst(Base(pr.rev).outbox, cur) && pr.mem.watches == Base(pr.rev).watches
  }

  ghost predicate ProcOk(pr: Proc, used: set<nat>) {
    && Clean(Base(pr.rev), used)
    && match pr.pc
       case Idle => !pr.paused ==> InStep(pr)
       case Handling(base, cur) => HandlingOk(pr, base, cur)
       case InFlight(cur) => InStep(pr) && cur in Base(pr.rev).outbox && cur.state.Ambiguous?
       case Called(cur) => InStep(pr) && cur in Base(pr.rev).outbox && cur.state.Ambiguous?
       case Broken(cur) => pr.paused
  }

  /** The durable entry has moved beyond the boundary that this attempt committed. */
  ghost predicate Past(o: seq<Entry>, cur: Entry) {
    forall x :: x in o && x.id == cur.id ==>
      x.attempts > cur.attempts || (x.attempts == cur.attempts && !x.state.Ambiguous?)
  }

  ghost predicate Permit(disk: Durable, log: seq<Event>, cur: Entry) {
    && Intent(cur.id, cur.attempts) in log
    && Dispatch(cur.id, cur.attempts) !in log && Withdraw(cur.id, cur.attempts) !in log
    && (PhaseOf(log, cur.id) == Intended(cur.attempts) || Past(Base(disk).outbox, cur))
  }

  ghost predicate PermitsOk(w: World) {
    && (forall p :: p in w.procs && w.procs[p].pc.InFlight? ==> Permit(w.disk, w.log, w.procs[p].pc.cur))
    && (forall p, q :: p in w.procs && q in w.procs && p != q
          && w.procs[p].pc.InFlight? && w.procs[q].pc.InFlight?
          && w.procs[p].pc.cur.id == w.procs[q].pc.cur.id
          ==> w.procs[p].pc.cur.attempts != w.procs[q].pc.cur.attempts)
  }

  ghost predicate LogWithin(log: seq<Event>, used: set<nat>) {
    forall ev :: ev in log ==> ev.id in used
  }

  ghost predicate Inv(w: World) {
    && DiskOk(w.disk, w.used, w.log)
    && (forall p :: p in w.procs ==> ProcOk(w.procs[p], w.used))
    && PermitsOk(w)
    && LogWithin(w.log, w.used) && Legal(w.log)
  }

  ghost predicate Initial(w: World) {
    && WellFormed(Base(w.disk).outbox) && IdsUsed(Base(w.disk).outbox, w.used)
    && w.procs == map[] && w.log == []
  }

  lemma {:induction false} UnusedIsFree(log: seq<Event>, used: set<nat>, id: nat)
    requires LogWithin(log, used) && id !in used
    ensures PhaseOf(log, id).Free? && Top(log, id) == 0
  {
    if log != [] {
      assert log[|log| - 1] in log;
      assert forall ev :: ev in log[..|log| - 1] ==> ev in log;
      UnusedIsFree(log[..|log| - 1], used, id);
    }
  }

  // ----- commits -----

  /** How a committed entry may relate to the one it replaces. */
  ghost predicate Moves(x: Entry, y: Entry) {
    && x.id == y.id
    && (y.attempts > x.attempts || (y.attempts == x.attempts && (x.state.Ambiguous? || y.state == x.state)))
  }

  ghost predicate Continues(o: seq<Entry>, n: seq<Entry>, used: set<nat>) {
    forall y :: y in n ==> y.id !in used || exists x :: x in o && Moves(x, y)
  }

  lemma PastContinues(o: seq<Entry>, n: seq<Entry>, used: set<nat>, cur: Entry)
    requires Continues(o, n, used) && Past(o, cur) && cur.id in used
    ensures Past(n, cur)
  {
  }

  /** Permits of the other processes survive a commit that appends at most an event about an
      attempt that is not theirs. */
  lemma PermitSurvives(disk: Durable, log: seq<Event>, disk': Durable, log': seq<Event>, used: set<nat>, cur: Entry)
    requires Permit(disk, log, cur) && LogWithin(log, used)
    requires disk' == disk || Continues(Base(disk).outbox, Base(disk').outbox, used)
    requires log' == log || exists ev :: log' == log + [ev] && Spares(ev, disk', log, cur)
    ensures Permit(disk', log', cur)
  {
    assert Intent(cur.id, cur.attempts).id in used;
    if Past(Base(disk).outbox, cur) && disk' != disk {
      PastContinues(Base(disk).outbox, Base(disk').outbox, used, cur);
    }
    if log' != log {
      var ev :| log' == log + [ev] && Spares(ev, disk', log, cur);
      PhaseAppend(log, ev, cur.id);
    }
  }

  /** The event is about another entry, or dispatches another attempt, or the holder's attempt is
      already past on the new disk and the event does not name that attempt. */
  ghost predicate Spares(ev: Event, disk': Durable, log: seq<Event>, cur: Entry) {
    || ev.id != cur.id
    || (ev.Dispatch? && ev.attempt != cur.attempts)
    || (Past(Base(disk').outbox, cur) && (ev.Clear? || ev.attempt != cur.attempts))
  }

  // ----- frames -----

  ghost predicate OnlyMoved(w: World, w': World, p: nat) {
    && w.used <= w'.used
    && (forall q :: q in w'.procs && q != p ==> q in w.procs && w'.procs[q] == w.procs[q])
  }

  ghost predicate SparesOthers(ev: Event, w: World, w': World, p: nat) {
    forall q :: q in w.procs && q != p && w.procs[q].pc.InFlight? ==>
      Spares(ev, w'.disk, w.log, w.procs[q].pc.cur)
  }

  ghost predicate LogStep(w: World, w': World, p: nat) {
    || w'.log == w.log
    || (exists ev :: w'.log == w.log + [ev] && EventLegal(w.log, ev) && ev.id in w'.used
                     && SparesOthers(ev, w, w', p))
  }

  ghost predicate OwnPermit(w: World, w': World, p: nat) {
    p in w'.procs && w'.procs[p].pc.InFlight? ==>
      && Permit(w'.disk, w'.log, w'.procs[p].pc.cur)
      && (forall q :: q in w.procs && q != p && w.procs[q].pc.InFlight?
            && w.procs[q].pc.cur.id == w'.procs[p].pc.cur.id
            ==> w.procs[q].pc.cur.attempts != w'.procs[p].pc.cur.attempts)
  }

  lemma OthersKept(w: World, w': World, p: nat)
    requires Inv(w) && OnlyMoved(w, w', p)
    requires p in w'.procs ==> ProcOk(w'.procs[p], w'.used)
    ensures forall q :: q in w'.procs ==> ProcOk(w'.procs[q], w'.used)
  {
    forall q | q in w'.procs ensures ProcOk(w'.procs[q], w'.used) {
      if q != p { assert ProcOk(w.procs[q], w.used); }
    }
  }

  lemma PermitsKept(w: World, w': World, p: nat)
    requires Inv(w) && OnlyMoved(w, w', p) && LogStep(w, w', p) && OwnPermit(w, w', p)
    requires w'.disk == w.disk || Continues(Base(w.disk).outbox, Base(w'.disk).outbox, w.used)
    ensures PermitsOk(w')
  {
    forall q | q in w'.procs && w'.procs[q].pc.InFlight? ensures Permit(w'.disk, w'.log, w'.procs[q].pc.cur) {
      if q != p {
        PermitSurvives(w.disk, w.log, w'.disk, w'.log, w.used, w.procs[q].pc.cur);
      }
    }
  }

  lemma LogKept(w: World, w': World, p: nat)
    requires Inv(w) && LogStep(w, w', p) && w.used <= w'.used
    ensures LogWithin(w'.log, w'.used) && Legal(w'.log)
  {
    if w'.log != w.log {
      var ev :| w'.log == w.log + [ev] && EventLegal(w.log, ev) && ev.id in w'.used && SparesOthers(ev, w, w', p);
      LegalAppend(w.log, ev);
    }
  }

  lemma Assemble(w: World, w': World, p: nat)
    requires Inv(w) && OnlyMoved(w, w', p) && LogStep(w, w', p) && OwnPermit(w, w', p)
    requires DiskOk(w'.disk, w'.used, w'.log)
    requires p in w'.procs ==> ProcOk(w'.procs[p], w'.used)
    requires w'.disk == w.disk || Continues(Base(w.disk).outbox, Base(w'.disk).outbox, w.used)
    ensures Inv(w')
  {
    OthersKept(w, w', p);
    PermitsKept(w, w', p);
    LogKept(w, w', p);
  }

  /** A commit that leaves its process idle and appends one event. */
  lemma CommitWithEvent(w: World, w': World, p: nat, mem: Snapshot, paused: bool, ev: Event)
    requires Inv(w) && Clean(mem, w.used)
    requires w' == World(File(mem), w.procs[p := Proc(mem, File(mem), paused, Idle)], w.used, w.log + [ev])
    requires forall y :: y in mem.outbox ==> EntryOk(y, w'.log)
    requires Continues(Base(w.disk).outbox, mem.outbox, w.used)
    requires EventLegal(w.log, ev) && ev.id in w.used && SparesOthers(ev, w, w', p)
    ensures Inv(w')
  {
    Assemble(w, w', p);
  }

  /** A commit that leaves its process idle and appends no event. */
  lemma CommitQuietly(w: World, w': World, p: nat, mem: Snapshot, paused: bool)
    requires Inv(w) && Clean(mem, w.used)
    requires w' == World(File(mem), w.procs[p := Proc(mem, File(mem), paused, Idle)], w.used, w.log)
    requires forall y :: y in mem.outbox ==> EntryOk(y, w.log)
    requires Continues(Base(w.disk).outbox, mem.outbox, w.used)
    ensures Inv(w')
  {
    Assemble(w, w', p);
  }

  /** Entries untouched by a commit stay fine when one event about another entry is appended. */
  lemma EntryKept(x: Entry, log: seq<Event>, ev: Event)
    requires EntryOk(x, log) && ev.id != x.id
    ensures EntryOk(x, log + [ev])
  {
    PhaseAppend(log, ev, x.id);
  }

  lemma AttemptUnused(log: seq<Event>, id: nat, a: nat)
    requires Legal(log) && a > Top(log, id)
    ensures Intent(id, a) !in log && Dispatch(id, a) !in log && Withdraw(id, a) !in log
  {
    AttemptsDistinct(log, id);
    AttemptsMember(log, id, a);
    if Intent(id, a) in log { TopBounds(log, id, a); }
  }

  // ----- every step keeps the invariant -----

  lemma QuietStep(w: World, s: Step)
    requires Inv(w) && Enabled(w, s) && (s.Load? || s.Crash? || s.Edit? || s.Resume?)
    ensures Inv(Apply(w, s))
  {
    Assemble(w, Apply(w, s), s.p);
  }

  lemma RefusedStep(w: World, s: Step)
    requires Inv(w) && Enabled(w, s)
    requires s.Persist? || s.StageNew? || s.Intend? || s.Finish? || s.Reconcile?
    requires s.save.Refused?
    ensures Inv(Apply(w, s))
  {
    var w' := Apply(w, s);
    assert w'.disk == w.disk && w'.log == w.log;
    assert ProcOk(w.procs[s.p], w.used);
    Assemble(w, w', s.p);
  }

  lemma PersistStep(w: World, s: Step)
    requires Inv(w) && Enabled(w, s) && s.Persist? && !s.save.Refused?
    ensures Inv(Apply(w, s))
  {
    assert ProcOk(w.procs[s.p], w.used);
    Assemble(w, Apply(w, s), s.p);
  }

  /** What staging does to the durable list. */
  lemma StageFacts(w: World, s: Step)
    requires Inv(w) && Enabled(w, s) && s.StageNew?
    ensures var o := w.procs[s.p].mem.outbox;
            var n := StagedMem(w.procs[s.p].mem, s.task, s.id, s.now).outbox;
            && WellFormed(n) && IdsUsed(n, w.used + {s.id})
            && S.NewEntry(s.task, s.id, s.now) in n
            && (forall y :: y in n ==> y in o || y == S.NewEntry(s.task, s.id, s.now))
  {
    var o := w.procs[s.p].mem.outbox;
    var e := S.NewEntry(s.task, s.id, s.now);
    assert ProcOk(w.procs[s.p], w.used);
    forall x | x in o ensures x.id != e.id && !SameActivity(x, e) {
      assert x.id in w.used;
      assert !S.Matches(x, s.task);
    }
    StageSound(o, e);
  }

  lemma StagedList(w: World, o: seq<Entry>, n: seq<Entry>, e: Entry)
    requires Inv(w) && o == Base(w.disk).outbox && e.id !in w.used
    requires forall y :: y in n ==> y in o || y == e
    ensures Continues(o, n, w.used) && forall y :: y in n ==> EntryOk(y, w.log)
  {
    UnusedIsFree(w.log, w.used, e.id);
  }

  lemma StageStep(w: World, s: Step)
    requires Inv(w) && Enabled(w, s) && s.StageNew? && !s.save.Refused?
    ensures Inv(Apply(w, s))
  {
    var w' := Apply(w, s);
    var o := w.procs[s.p].mem.outbox;
    var e := S.NewEntry(s.task, s.id, s.now);
    assert ProcOk(w.procs[s.p], w.used);
    StageFacts(w, s);
    StagedList(w, o, Base(w'.disk).outbox, e);
    Assemble(w, w', s.p);
  }

  /** The list a handling process commits, and how it continues the durable one. */
  lemma SubstCommit(o: seq<Entry>, x: Entry, e: Entry, used: set<nat>, log: seq<Event>)
    requires WellFormed(o) && IdsUsed(o, used) && x in o && Moves(x, e) && SameActivity(x, e)
    requires forall y :: y in o && y.id != e.id ==> EntryOk(y, log)
    requires EntryOk(e, log)
    ensures WellFormed(Subst(o, e)) && IdsUsed(Subst(o, e), used)
    ensures forall y :: y in Subst(o, e) ==> EntryOk(y, log)
    ensures Continues(o, Subst(o, e), used)
    ensures e in Subst(o, e)
  {
    SubstFacts(o, x, e);
    forall y | y in Subst(o, e) ensures exists z :: z in o && Moves(z, y) {
      if y == e { assert Moves(x, y); } else { assert y in o && Moves(y, y); }
    }
  }

  lemma PrunedCommit(o: seq<Entry>, n: seq<Entry>, used: set<nat>, log: seq<Event>)
    requires WellFormed(n) && IdsUsed(n, used) && Continues(o, n, used)
    requires forall y :: y in n ==> EntryOk(y, log)
    ensures WellFormed(Pruned(n)) && IdsUsed(Pruned(n), used) && Continues(o, Pruned(n), used)
    ensures forall y :: y in Pruned(n) ==> EntryOk(y, log)
  {
    PruneKeepsUnresolved(n);
  }

  /** The durable list after `cur` replaces `x`, with `ev` about that entry appended to the log. */
  lemma ReplaceWithEvent(o: seq<Entry>, x: Entry, cur: Entry, used: set<nat>, log: seq<Event>, ev: Event)
    requires WellFormed(o) && IdsUsed(o, used) && x in o && Moves(x, cur) && SameActivity(x, cur)
    requires forall y :: y in o ==> EntryOk(y, log)
    requires ev.id == cur.id && EntryOk(cur, log + [ev])
    ensures WellFormed(Subst(o, cur)) && IdsUsed(Subst(o, cur), used)
    ensures forall y :: y in Subst(o, cur) ==> EntryOk(y, log + [ev])
    ensures Continues(o, Subst(o, cur), used)
    ensures forall y :: y in Subst(o, cur) <==> y == cur || (y in o && y.id != cur.id)
  {
    forall y | y in o && y.id != cur.id ensures EntryOk(y, log + [ev]) { EntryKept(y, log, ev); }
    SubstCommit(o, x, cur, used, log + [ev]);
    SubstFacts(o, x, cur);
  }

  /** A new attempt exceeds every attempt another process holds. */
  lemma NewAttempt(w: World, p: nat, id: nat, a: nat)
    requires Inv(w) && a > Top(w.log, id)
    ensures Intent(id, a) !in w.log && Dispatch(id, a) !in w.log && Withdraw(id, a) !in w.log
    ensures forall q :: q in w.procs && q != p && w.procs[q].pc.InFlight? && w.procs[q].pc.cur.id == id ==>
      w.procs[q].pc.cur.attempts < a
  {
    AttemptUnused(w.log, id, a);
    forall q | q in w.procs && q != p && w.procs[q].pc.InFlight? && w.procs[q].pc.cur.id == id
      ensures w.procs[q].pc.cur.attempts < a
    {
      TopBounds(w.log, id, w.procs[q].pc.cur.attempts);
    }
  }

  /** Committing the boundary: the only step that opens an intent. */
  lemma IntendStep(w: World, s: Step)
    requires Inv(w) && Enabled(w, s) && s.Intend? && !s.save.Refused?
    ensures Inv(Apply(w, s))
  {
    var pr := w.procs[s.p];
    assert ProcOk(pr, w.used);
    var o, base := Base(w.disk).outbox, pr.pc.base;
    var cur := Resolved(pr.pc.cur, Ambiguous, s.note, s.now);
    var ev := Intent(cur.id, cur.attempts);
    var w' := Apply(w, s);
    SubstTwice(o, pr.pc.cur, cur);
    assert EntryOk(base, w.log);
    NewAttempt(w, s.p, cur.id, cur.attempts);
    PhaseAppend(w.log, ev, cur.id);
    ReplaceWithEvent(o, base, cur, w.used, w.log, ev);
    IntendPermits(w, w', s.p, cur);
    Assemble(w, w', s.p);
  }

  lemma IntendPermits(w: World, w': World, p: nat, cur: Entry)
    requires w'.log == w.log + [Intent(cur.id, cur.attempts)]
    requires PhaseOf(w'.log, cur.id) == Intended(cur.attempts)
    requires Intent(cur.id, cur.attempts) !in w.log && Dispatch(cur.id, cur.attempts) !in w.log
    requires Withdraw(cur.id, cur.attempts) !in w.log
    requires forall y :: y in Base(w'.disk).outbox && y.id == cur.id ==> y == cur
    requires forall q :: q in w.procs && q != p && w.procs[q].pc.InFlight? && w.procs[q].pc.cur.id == cur.id ==>
      w.procs[q].pc.cur.attempts < cur.attempts
    requires p in w'.procs && w'.procs[p].pc.InFlight? ==> w'.procs[p].pc.cur == cur
    ensures SparesOthers(Intent(cur.id, cur.attempts), w, w', p) && OwnPermit(w, w', p)
  {
  }

  lemma FinishHandling(w: World, s: Step)
    requires Inv(w) && Enabled(w, s) && s.Finish? && !s.save.Refused? && w.procs[s.p].pc.Handling?
    ensures Inv(Apply(w, s))
  {
    var pr := w.procs[s.p];
    assert ProcOk(pr, w.used);
    var o, base := Base(w.disk).outbox, pr.pc.base;
    var cur := Resolved(pr.pc.cur, s.state, s.note, s.now);
    HandledList(o, base, pr.pc.cur, cur, w.used, w.log);
    var mem := pr.mem.(outbox := Pruned(Subst(pr.mem.outbox, cur)));
    CommitQuietly(w, Apply(w, s), s.p, mem, s.save.Unconfirmed?);
  }

  /** The list committed by a handler that never reached the boundary. */
  lemma HandledList(o: seq<Entry>, base: Entry, mid: Entry, cur: Entry, used: set<nat>, log: seq<Event>)
    requires WellFormed(o) && IdsUsed(o, used) && base in o && (forall y :: y in o ==> EntryOk(y, log))
    requires Replayable(base.state) && mid.id == base.id == cur.id && Moves(base, cur) && SameActivity(base, cur)
    requires cur.attempts >= base.attempts
    ensures var n := Pruned(Subst(Subst(o, mid), cur));
            && WellFormed(n) && IdsUsed(n, used) && Continues(o, n, used) && (forall y :: y in n ==> EntryOk(y, log))
  {
    SubstTwice(o, mid, cur);
    assert EntryOk(base, log);
    SubstCommit(o, base, cur, used, log);
    PrunedCommit(o, Subst(o, cur), used, log);
  }

  /** A holder whose boundary is still on disk holds the open intent. */
  lemma OwnIntentOpen(w: World, p: nat)
    requires Inv(w) && p in w.procs && w.procs[p].pc.InFlight? && w.disk == w.procs[p].rev
    ensures PhaseOf(w.log, w.procs[p].pc.cur.id) == Intended(w.procs[p].pc.cur.attempts)
  {
    assert ProcOk(w.procs[p], w.used);
    assert w.procs[p].pc.cur in Base(w.disk).outbox;
  }

  lemma FinishAfterBoundary(w: World, s: Step)
    requires Inv(w) && Enabled(w, s) && s.Finish? && !s.save.Refused?
    requires w.procs[s.p].pc.Called? || (w.procs[s.p].pc.InFlight? && !s.state.Retryable?)
    ensures Inv(Apply(w, s))
  {
    var pr := w.procs[s.p];
    assert ProcOk(pr, w.used);
    var o, x := Base(w.disk).outbox, pr.pc.cur;
    var cur := Resolved(x, s.state, s.note, s.now);
    FinishedList(o, x, cur, w.used, w.log);
    CommitQuietly(w, Apply(w, s), s.p, pr.mem.(outbox := Pruned(Subst(o, cur))), s.save.Unconfirmed?);
  }

  /** The list committed once the boundary was passed: the ambiguous entry gets a final state, or keeps
      its own. */
  lemma FinishedList(o: seq<Entry>, x: Entry, cur: Entry, used: set<nat>, log: seq<Event>)
    requires WellFormed(o) && IdsUsed(o, used) && x in o && x.state.Ambiguous?
    requires forall y :: y in o ==> EntryOk(y, log)
    requires cur.id == x.id && SameActivity(x, cur) && cur.attempts == x.attempts && !Replayable(cur.state)
    ensures var n := Pruned(Subst(o, cur));
            && WellFormed(n) && IdsUsed(n, used) && Continues(o, n, used) && (forall y :: y in n ==> EntryOk(y, log))
  {
    assert EntryOk(x, log);
    SubstCommit(o, x, cur, used, log);
    PrunedCommit(o, Subst(o, cur), used, log);
  }

  lemma WithdrawSpares(w: World, w': World, p: nat, ev: Event)
    requires Inv(w) && p in w.procs && w.procs[p].pc.InFlight?
    requires ev == Withdraw(w.procs[p].pc.cur.id, w.procs[p].pc.cur.attempts)
    requires PhaseOf(w.log, ev.id) == Intended(ev.attempt)
    requires Continues(Base(w.disk).outbox, Base(w'.disk).outbox, w.used)
    ensures SparesOthers(ev, w, w', p)
  {
    forall q | q in w.procs && q != p && w.procs[q].pc.InFlight?
      ensures Spares(ev, w'.disk, w.log, w.procs[q].pc.cur)
    {
      var held := w.procs[q].pc.cur;
      assert Permit(w.disk, w.log, held);
      assert Intent(held.id, held.attempts).id in w.used;
      if held.id == ev.id {
        PastContinues(Base(w.disk).outbox, Base(w'.disk).outbox, w.used, held);
      }
    }
  }

  lemma WithdrawStep(w: World, s: Step)
    requires Inv(w) && Enabled(w, s) && s.Finish? && !s.save.Refused?
    requires w.procs[s.p].pc.InFlight? && s.state.Retryable?
    ensures Inv(Apply(w, s))
  {
    var pr := w.procs[s.p];
    var w' := Apply(w, s);
    assert ProcOk(pr, w.used);
    var o, x := Base(w.disk).outbox, pr.pc.cur;
    var cur := Resolved(x, s.state, s.note, s.now);
    var ev := Withdraw(cur.id, cur.attempts);
    OwnIntentOpen(w, s.p);
    assert Permit(w.disk, w.log, x);
    PhaseAppend(w.log, ev, cur.id);
    assert EntryOk(x, w.log);
    ReplaceWithEvent(o, x, cur, w.used, w.log, ev);
    PrunedCommit(o, Subst(o, cur), w.used, w'.log);
    WithdrawSpares(w, w', s.p, ev);
    CommitWithEvent(w, w', s.p, pr.mem.(outbox := Pruned(Subst(o, cur))), s.save.Unconfirmed?, ev);
  }

  lemma ResolveStep(w: World, s: Step)
    requires Inv(w) && Enabled(w, s) && s.Reconcile? && !s.save.Refused? && !s.state.Retryable?
    ensures Inv(Apply(w, s))
  {
    assert ProcOk(w.procs[s.p], w.used);
    var o := Base(w.disk).outbox;
    assert EntryOk(s.entry, w.log);
    var cur := Cleared(s.entry, s.state, s.note, s.now);
    SubstCommit(o, s.entry, cur, w.used, w.log);
    CommitQuietly(w, Apply(w, s), s.p, w.procs[s.p].mem.(outbox := Subst(o, cur)), s.save.Unconfirmed?);
  }

  lemma ClearSpares(w: World, w': World, p: nat, x: Entry)
    requires Inv(w) && x in Base(w.disk).outbox
    requires forall y :: y in Base(w'.disk).outbox && y.id == x.id ==>
      y.attempts == x.attempts && !y.state.Ambiguous?
    ensures SparesOthers(Clear(x.id), w, w', p)
  {
    assert EntryOk(x, w.log);
    forall q | q in w.procs && q != p && w.procs[q].pc.InFlight?
      ensures Spares(Clear(x.id), w'.disk, w.log, w.procs[q].pc.cur)
    {
      var held := w.procs[q].pc.cur;
      assert Permit(w.disk, w.log, held);
      if held.id == x.id { TopBounds(w.log, x.id, held.attempts); }
    }
  }

  lemma ClearedList(o: seq<Entry>, x: Entry, cur: Entry, used: set<nat>, log: seq<Event>)
    requires WellFormed(o) && IdsUsed(o, used) && x in o && x.state.Ambiguous?
    requires forall y :: y in o ==> EntryOk(y, log)
    requires cur.id == x.id && SameActivity(x, cur) && cur.attempts == x.attempts && cur.state.Retryable?
    ensures WellFormed(Subst(o, cur)) && IdsUsed(Subst(o, cur), used)
    ensures forall y :: y in Subst(o, cur) ==> EntryOk(y, log + [Clear(x.id)])
    ensures Continues(o, Subst(o, cur), used)
    ensures forall y :: y in Subst(o, cur) && y.id == x.id ==> y.attempts == x.attempts && !y.state.Ambiguous?
  {
    PhaseAppend(log, Clear(x.id), x.id);
    assert EntryOk(x, log);
    ReplaceWithEvent(o, x, cur, used, log, Clear(x.id));
  }

  lemma ClearStep(w: World, s: Step)
    requires Inv(w) && Enabled(w, s) && s.Reconcile? && !s.save.Refused? && s.state.Retryable?
    ensures Inv(Apply(w, s))
  {
    assert ProcOk(w.procs[s.p], w.used);
    var o, x := Base(w.disk).outbox, s.entry;
    var cur := Cleared(x, s.state, s.note, s.now);
    ClearedList(o, x, cur, w.used, w.log);
    var mem := w.procs[s.p].mem.(outbox := Subst(o, cur));
    var w' := World(File(mem), w.procs[s.p := Proc(mem, File(mem), s.save.Unconfirmed?, Idle)], w.used,
                    w.log + [Clear(x.id)]);
    ClearSpares(w, w', s.p, x);
    CommitWithEvent(w, w', s.p, mem, s.save.Unconfirmed?, Clear(x.id));
    assert Apply(w, s) == w';
  }

  lemma CallStep(w: World, s: Step)
    requires Inv(w) && Enabled(w, s) && s.Call?
    ensures Inv(Apply(w, s))
  {
    var w' := Apply(w, s);
    var cur := w.procs[s.p].pc.cur;
    var ev := Dispatch(cur.id, cur.attempts);
    assert ProcOk(w.procs[s.p], w.used);
    assert Permit(w.disk, w.log, cur);
    assert Intent(cur.id, cur.attempts).id in w.used;
    forall q | q in w.procs && q != s.p && w.procs[q].pc.InFlight?
      ensures Spares(ev, w'.disk, w.log, w.procs[q].pc.cur)
    {
      assert Permit(w.disk, w.log, w.procs[q].pc.cur);
    }
    forall x | x in Base(w.disk).outbox ensures EntryOk(x, w'.log) {
      PhaseAppend(w.log, ev, x.id);
    }
    assert SparesOthers(ev, w, w', s.p);
    Assemble(w, w', s.p);
  }

  lemma StepKeepsInv(w: World, s: Step)
    requires Inv(w) && Enabled(w, s)
    ensures Inv(Apply(w, s))
  {
    if s.Load? || s.Crash? || s.Edit? || s.Resume? { QuietStep(w, s); }
    else if s.Call? { CallStep(w, s); }
    else if s.save.Refused? { RefusedStep(w, s); }
    else if s.Persist? { PersistStep(w, s); }
    else if s.StageNew? { StageStep(w, s); }
    else if s.Intend? { IntendStep(w, s); }
    else if s.Reconcile? {
      if s.state.Retryable? { ClearStep(w, s); } else { ResolveStep(w, s); }
    } else {
      assert ProcOk(w.procs[s.p], w.used);
      if w.procs[s.p].pc.Handling? { FinishHandling(w, s); }
      else if w.procs[s.p].pc.InFlight? && s.state.Retryable? { WithdrawStep(w, s); }
      else { FinishAfterBoundary(w, s); }
    }
  }
}
