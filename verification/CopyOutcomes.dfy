/** What each commit of the copy protocol writes, said field by field, and that an outcome is final. */
module CopyOutcomes {
  import opened Outbox
  import opened CopyLog
  import opened CopyProtocol
  import opened CopySafety
  import S = Staging

  /** What the file holds. */
  function Durably(w: World): seq<Entry> { Base(w.disk).outbox }

  /** The entry `x` with a new disposition; everything that identifies the activity stays. */
  function Disposed(x: Entry, state: CopyState, attempts: nat, note: string, now: int, authorized: int): Entry {
    Entry(x.id, x.market, x.watch, x.key, x.payload, state, attempts, note, x.createdAt, now, authorized)
  }

  /** `n` is `o` with the entry of identity `e.id` replaced by `e`, and all others as they were. */
  ghost predicate Replaces(o: seq<Entry>, n: seq<Entry>, e: Entry) {
    && e in n && |n| == |o|
    && (forall y :: y in n && y.id == e.id ==> y == e)
    && (forall y: Entry :: y.id != e.id ==> (y in n <==> y in o))
  }

  /** The same, except that completed and rejected entries may have been pruned, and none has while the
      list was within 500. */
  ghost predicate ReplacesPruned(o: seq<Entry>, n: seq<Entry>, e: Entry) {
    && (e in n || e.state.Completed? || e.state.Rejected?)
    && (forall y :: y in n && y.id == e.id ==> y == e)
    && (forall y :: y in n && y.id != e.id ==> y in o)
    && (forall y :: y in o && y.id != e.id && (y.state.Pending? || y.state.Retryable? || y.state.Ambiguous?) ==> y in n)
    && (|o| <= 500 ==> Replaces(o, n, e))
    && |n| <= |o| && (|o| > 500 && |n| > 500 ==> forall y :: y in n ==> Unresolved(y.state))
  }

  lemma SubstReplaces(o: seq<Entry>, x: Entry, e: Entry)
    requires WellFormed(o) && x in o && x.id == e.id && SameActivity(x, e)
    ensures Replaces(o, Subst(o, e), e)
  {
    SubstFacts(o, x, e);
  }

  lemma PrunedReplaces(o: seq<Entry>, x: Entry, e: Entry)
    requires WellFormed(o) && x in o && x.id == e.id && SameActivity(x, e)
    ensures ReplacesPruned(o, Pruned(Subst(o, e)), e)
  {
    SubstFacts(o, x, e);
    PruneKeepsUnresolved(Subst(o, e));
    SubstReplaces(o, x, e);
    PruneLeavesNone(Subst(o, e));
  }

  /** If pruning leaves more than 500 entries, it left no completed or rejected one. */
  lemma PruneLeavesNone(o: seq<Entry>)
    requires WellFormed(o)
    ensures |Pruned(o)| <= |o|
    ensures |Pruned(o)| > 500 ==> forall y :: y in Pruned(o) ==> Unresolved(y.state)
  {
    PruneKeepsUnresolved(o);
    forall y | y in Pruned(o) && |Pruned(o)| > 500 ensures Unresolved(y.state) {
      var i :| 0 <= i < |o| && o[i] == y;
      if !Unresolved(y.state) {
        PruneDropsFirst(o, i);
        ResolvedBefore(o, i);
      }
    }
  }

  lemma {:induction false} ResolvedBefore(o: seq<Entry>, i: nat)
    requires i < |o| && !Unresolved(o[i].state)
    ensures CountResolved(o[..i]) < CountResolved(o)
  {
    if i == 0 {
      assert o[..0] == [];
    } else {
      ResolvedBefore(o[1..], i - 1);
      assert o[..i][1..] == o[1..][..i - 1];
    }
  }

  /** The durable entry a process is working on. */
  function Target(pc: Pc): Entry
    requires pc.Handling? || pc.InFlight? || pc.Called?
  {
    if pc.Handling? then pc.base else pc.cur
  }

  lemma HandledFinish(w: World, s: Step)
    requires Inv(w) && Enabled(w, s) && s.Finish? && !s.save.Refused? && w.procs[s.p].pc.Handling?
    ensures var x := w.procs[s.p].pc.base;
            && x in Durably(w)
            && ReplacesPruned(Durably(w), Durably(Apply(w, s)),
                              Disposed(x, s.state, x.attempts + 1, s.note, s.now, x.replayAuthorizedAt))
  {
    var pr := w.procs[s.p];
    assert ProcOk(pr, w.used);
    var o, x := Durably(w), pr.pc.base;
    var e := Disposed(x, s.state, x.attempts + 1, s.note, s.now, x.replayAuthorizedAt);
    SubstTwice(o, pr.pc.cur, e);
    PrunedReplaces(o, x, e);
    assert Resolved(pr.pc.cur, s.state, s.note, s.now) == e;
  }

  lemma BoundaryFinish(w: World, s: Step)
    requires Inv(w) && Enabled(w, s) && s.Finish? && !s.save.Refused?
    requires w.procs[s.p].pc.InFlight? || w.procs[s.p].pc.Called?
    ensures var x := w.procs[s.p].pc.cur;
            && x in Durably(w)
            && ReplacesPruned(Durably(w), Durably(Apply(w, s)),
                              Disposed(x, s.state, x.attempts, s.note, s.now, x.replayAuthorizedAt))
  {
    var pr := w.procs[s.p];
    assert ProcOk(pr, w.used);
    var x := pr.pc.cur;
    var e := Disposed(x, s.state, x.attempts, s.note, s.now, x.replayAuthorizedAt);
    PrunedReplaces(Durably(w), x, e);
    assert Resolved(x, s.state, s.note, s.now) == e;
  }

  /** The entry as a committed outcome leaves it: the reported state and note, the number of this attempt, the
      time of the outcome. */
  function WithOutcome(pc: Pc, s: Step): Entry
    requires (pc.Handling? || pc.InFlight? || pc.Called?) && s.Finish?
  {
    var x := Target(pc);
    Disposed(x, s.state, if pc.Handling? then x.attempts + 1 else x.attempts, s.note, s.now, x.replayAuthorizedAt)
  }

  lemma FinishRecorded(w: World, s: Step)
    requires Inv(w) && Enabled(w, s) && s.Finish? && !s.save.Refused?
    ensures var pc := w.procs[s.p].pc;
            && (pc.Handling? || pc.InFlight? || pc.Called?) && Target(pc) in Durably(w)
            && ReplacesPruned(Durably(w), Durably(Apply(w, s)), WithOutcome(pc, s))
  {
    FinisherAtWork(w, s);
    if w.procs[s.p].pc.Handling? { HandledFinish(w, s); } else { BoundaryFinish(w, s); }
  }

  /** In every run, after a committed outcome the file holds the entry with exactly that outcome, or no longer
      holds it, which only a completed or rejected entry can come to by pruning; all other entries stay, up
      to pruning. */
  lemma OutcomeRecorded(w0: World, before: seq<Step>, w: World, s: Step)
    requires Initial(w0) && Reaches(w0, before, w) && Enabled(w, s) && s.Finish? && !s.save.Refused?
    ensures var pc := w.procs[s.p].pc;
            && (pc.Handling? || pc.InFlight? || pc.Called?) && Target(pc) in Durably(w)
            && ReplacesPruned(Durably(w), Durably(Apply(w, s)), WithOutcome(pc, s))
  {
    InitialInv(w0);
    RunKeepsInv(w0, before, w);
    FinishRecorded(w, s);
  }

  lemma FinisherAtWork(w: World, s: Step)
    requires Inv(w) && Enabled(w, s) && s.Finish? && !s.save.Refused?
    ensures var pc := w.procs[s.p].pc; pc.Handling? || pc.InFlight? || pc.Called?
  {
    assert ProcOk(w.procs[s.p], w.used);
  }

  /** In every run, committing the boundary leaves the entry ambiguous under a new attempt number and
      changes nothing else. */
  lemma BoundaryRecorded(w0: World, before: seq<Step>, w: World, s: Step)
    requires Initial(w0) && Reaches(w0, before, w) && Enabled(w, s) && s.Intend? && !s.save.Refused?
    ensures var x := w.procs[s.p].pc.base;
            && x in Durably(w) && (x.state.Pending? || x.state.Retryable?)
            && Replaces(Durably(w), Durably(Apply(w, s)),
                        Disposed(x, Ambiguous, x.attempts + 1, s.note, s.now, x.replayAuthorizedAt))
  {
    InitialInv(w0);
    RunKeepsInv(w0, before, w);
    var pr := w.procs[s.p];
    assert ProcOk(pr, w.used);
    var o, x := Durably(w), pr.pc.base;
    var e := Disposed(x, Ambiguous, x.attempts + 1, s.note, s.now, x.replayAuthorizedAt);
    SubstTwice(o, pr.pc.cur, e);
    SubstReplaces(o, x, e);
    assert Resolved(pr.pc.cur, Ambiguous, s.note, s.now) == e;
  }

  /** In every run, each of the operator's three resolutions of an ambiguous entry leaves it in exactly that
      state, with a replay authorized only by a clearance, under the same attempt number, and changes
      nothing else. */
  lemma ResolutionRecorded(w0: World, before: seq<Step>, w: World, s: Step)
    requires Initial(w0) && Reaches(w0, before, w) && Enabled(w, s) && s.Reconcile? && !s.save.Refused?
    ensures s.entry in Durably(w) && s.entry.state.Ambiguous?
    ensures s.state.Completed? || s.state.Retryable? || s.state.Rejected?
    ensures Replaces(Durably(w), Durably(Apply(w, s)),
                     Disposed(s.entry, s.state, s.entry.attempts, s.note, s.now,
                              if s.state.Retryable? then s.now else 0))
  {
    InitialInv(w0);
    RunKeepsInv(w0, before, w);
    assert ProcOk(w.procs[s.p], w.used);
    var x := s.entry;
    var e := Disposed(x, s.state, x.attempts, s.note, s.now, if s.state.Retryable? then s.now else 0);
    SubstReplaces(Durably(w), x, e);
    assert Cleared(x, s.state, s.note, s.now) == e;
  }

  /** In every run, editing other parts of the configuration commits exactly the given parts and leaves the
      outbox alone. */
  lemma EditRecorded(w0: World, before: seq<Step>, w: World, s: Step)
    requires Initial(w0) && Reaches(w0, before, w) && Enabled(w, s) && s.Persist? && !s.save.Refused?
    ensures Durably(Apply(w, s)) == Durably(w)
    ensures Base(Apply(w, s).disk).watches == s.watches && Base(Apply(w, s).disk).other == s.other
  {
    InitialInv(w0);
    RunKeepsInv(w0, before, w);
    assert ProcOk(w.procs[s.p], w.used);
  }

  // ----- outcomes are final -----

  /** The file holds no entry of this identity that is not completed or rejected. */
  ghost predicate Settled(w: World, id: nat) {
    id in w.used && forall y :: y in Durably(w) && y.id == id ==> y.state.Completed? || y.state.Rejected?
  }

  lemma CommittedSettles(w0: World, before: seq<Step>, w: World, s: Step)
    requires Initial(w0) && Reaches(w0, before, w) && Enabled(w, s)
    requires (s.Finish? || s.Reconcile?) && !s.save.Refused? && (s.state.Completed? || s.state.Rejected?)
    ensures s.Finish? ==>
      var pc := w.procs[s.p].pc; (pc.Handling? || pc.InFlight? || pc.Called?) && Settled(Apply(w, s), Target(pc).id)
    ensures s.Reconcile? ==> Settled(Apply(w, s), s.entry.id)
  {
    InitialInv(w0);
    RunKeepsInv(w0, before, w);
    assert ProcOk(w.procs[s.p], w.used);
    if s.Finish? { OutcomeRecorded(w0, before, w, s); } else { ResolutionRecorded(w0, before, w, s); }
  }

  /** No commit touches a settled entry, except to drop it. */
  lemma StepKeepsSettled(w: World, s: Step, id: nat)
    requires Inv(w) && Enabled(w, s) && Settled(w, id)
    ensures Settled(Apply(w, s), id)
  {
    if s.StageNew? && !s.save.Refused? {
      StageFacts(w, s);
      assert ProcOk(w.procs[s.p], w.used);
    } else if s.Finish? && !s.save.Refused? {
      FinishKeepsSettled(w, s, id);
    } else if (s.Intend? || s.Reconcile? || s.Persist?) && !s.save.Refused? {
      CommitKeepsSettled(w, s, id);
    }
  }

  lemma FinishKeepsSettled(w: World, s: Step, id: nat)
    requires Inv(w) && Enabled(w, s) && Settled(w, id) && s.Finish? && !s.save.Refused?
    ensures Settled(Apply(w, s), id)
  {
    assert ProcOk(w.procs[s.p], w.used);
    if w.procs[s.p].pc.Handling? { HandledFinish(w, s); } else { BoundaryFinish(w, s); }
  }

  lemma CommitKeepsSettled(w: World, s: Step, id: nat)
    requires Inv(w) && Enabled(w, s) && Settled(w, id)
    requires (s.Intend? || s.Reconcile? || s.Persist?) && !s.save.Refused?
    ensures Settled(Apply(w, s), id)
  {
    var pr := w.procs[s.p];
    assert ProcOk(pr, w.used);
    var o := Durably(w);
    if s.Intend? {
      var cur := Resolved(pr.pc.cur, Ambiguous, s.note, s.now);
      SubstTwice(o, pr.pc.cur, cur);
      SubstFacts(o, pr.pc.base, cur);
    } else if s.Reconcile? {
      SubstFacts(o, s.entry, Cleared(s.entry, s.state, s.note, s.now));
    }
  }

  lemma {:induction false} RunKeepsSettled(w: World, steps: seq<Step>, w': World, id: nat)
    requires Inv(w) && Settled(w, id) && Reaches(w, steps, w')
    ensures Inv(w') && Settled(w', id)
    decreases |steps|
  {
    if steps != [] {
      StepKeepsInv(w, steps[0]);
      StepKeepsSettled(w, steps[0], id);
      RunKeepsSettled(Apply(w, steps[0]), steps[1..], w', id);
    }
  }

  /** Once a completed or rejected outcome is in the file, it stays there or is pruned, in every later
      world of every run; and a process that resumes the entry after that still has an older snapshot than
      the file, with the entry as it was. */
  lemma OutcomeIsFinal(w: World, steps: seq<Step>, w': World, id: nat, p: nat, base: Entry, now: int)
    requires Inv(w) && Settled(w, id) && Reaches(w, steps, w')
    ensures Settled(w', id)
    ensures Enabled(w', Resume(p, base, now)) && base.id == id ==>
      w'.procs[p].rev != w'.disk && base in Base(w'.procs[p].rev).outbox
  {
    RunKeepsSettled(w, steps, w', id);
    if Enabled(w', Resume(p, base, now)) { assert ProcOk(w'.procs[p], w'.used); }
  }

  /** The process knows a snapshot in which the entry could still be resumed. */
  ghost predicate Outdated(w: World, p: nat, id: nat) {
    p in w.procs && exists x :: x in Base(w.procs[p].rev).outbox && x.id == id && Replayable(x.state)
  }

  lemma OutdatedStep(w: World, s: Step, id: nat, p: nat)
    requires Settled(w, id) && Outdated(w, p, id) && Enabled(w, s) && s != Crash(p)
    ensures !Writes(s, p) && Outdated(Apply(w, s), p, id)
  {
    assert w.procs[p].rev != w.disk;
    assert Apply(w, s).procs[p].rev == w.procs[p].rev;
  }

  lemma OutdatedGoesOn(w: World, s: Step, id: nat, p: nat)
    requires Inv(w) && Settled(w, id) && Outdated(w, p, id) && Enabled(w, s) && s != Crash(p)
    ensures Inv(Apply(w, s)) && Settled(Apply(w, s), id) && Outdated(Apply(w, s), p, id)
  {
    OutdatedStep(w, s, id, p);
    StepKeepsInv(w, s);
    StepKeepsSettled(w, s, id);
  }

  /** Whatever such a process does with the entry, it replaces the file no more until it is restarted. */
  lemma {:induction false} OutdatedNeverWrites(w: World, steps: seq<Step>, w': World, id: nat, p: nat, j: nat)
    requires Inv(w) && Settled(w, id) && Outdated(w, p, id) && Reaches(w, steps, w') && j < |steps|
    requires forall m :: 0 <= m < j ==> steps[m] != Crash(p)
    ensures !Writes(steps[j], p)
    decreases |steps|
  {
    if j > 0 {
      OutdatedGoesOn(w, steps[0], id, p);
      OutdatedNeverWrites(Apply(w, steps[0]), steps[1..], w', id, p, j - 1);
    } else if steps[0] != Crash(p) {
      OutdatedStep(w, steps[0], id, p);
    }
  }

  ghost predicate Waiting(w: World, p: nat, x: Entry) {
    && p in w.procs && w.procs[p].pc.Idle? && !w.procs[p].paused && w.procs[p].rev == w.disk
    && x in w.procs[p].mem.outbox && x.state.Pending?
  }

  lemma CompletedBehindBack(w: World, x: Entry) returns (w': World)
    requires Inv(w) && Waiting(w, 0, x) && Waiting(w, 1, x)
    ensures Enabled(w, Resume(0, x, 1)) && Enabled(Apply(w, Resume(0, x, 1)), Finish(0, Completed, "", 1, Confirmed))
    ensures w' == Apply(Apply(w, Resume(0, x, 1)), Finish(0, Completed, "", 1, Confirmed))
    ensures (forall y :: y in Durably(w') && y.id == x.id ==> y.state.Completed?) && Enabled(w', Resume(1, x, 2))
  {
    var mid := Apply(w, Resume(0, x, 1));
    StepKeepsInv(w, Resume(0, x, 1));
    w' := Apply(mid, Finish(0, Completed, "", 1, Confirmed));
    HandledFinish(mid, Finish(0, Completed, "", 1, Confirmed));
    assert w'.procs[1] == w.procs[1];
  }

  /** A concrete case: two processes load a pending entry, one completes it, and the other, which has not
      reloaded, handles it once more. */
  lemma OutdatedCanResume() returns (w0: World, w2: World, w: World, x: Entry)
    ensures Initial(w0) && x in Durably(w0) && x.state.Pending?
    ensures Enabled(w0, Load(0)) && Enabled(Apply(w0, Load(0)), Load(1)) && w2 == Apply(Apply(w0, Load(0)), Load(1))
    ensures Enabled(w2, Resume(0, x, 1)) && Enabled(Apply(w2, Resume(0, x, 1)), Finish(0, Completed, "", 1, Confirmed))
    ensures w == Apply(Apply(w2, Resume(0, x, 1)), Finish(0, Completed, "", 1, Confirmed))
    ensures (forall y :: y in Durably(w) && y.id == x.id ==> y.state.Completed?) && Enabled(w, Resume(1, x, 2))
  {
    x := Entry(7, "polymarket", "watch", "key", "", Pending, 0, "", 1, 1, 0);
    w0 := World(File(Snapshot([x], map[], "")), map[], {7}, []);
    InitialInv(w0);
    StepKeepsInv(w0, Load(0));
    var w1 := Apply(w0, Load(0));
    StepKeepsInv(w1, Load(1));
    w2 := Apply(w1, Load(1));
    assert x in [x];
    assert Waiting(w2, 0, x) && Waiting(w2, 1, x);
    w := CompletedBehindBack(w2, x);
  }

  // ----- counted in steps -----

  /** How often the venue is called for an entry. */
  ghost function Calls(w: World, steps: seq<Step>, id: nat): nat
    decreases |steps|
  {
    if steps == [] || !Enabled(w, steps[0]) then 0
    else
      (if steps[0].Call? && w.procs[steps[0].p].pc.cur.id == id then 1 else 0)
      + Calls(Apply(w, steps[0]), steps[1..], id)
  }

  /** How often the operator durably confirms that it was not dispatched. */
  function Clearances(steps: seq<Step>, id: nat): nat {
    if steps == [] then 0
    else
      var s := steps[0];
      (if s.Reconcile? && s.state.Retryable? && !s.save.Refused? && s.entry.id == id then 1 else 0)
      + Clearances(steps[1..], id)
  }

  lemma CountAppend(log: seq<Event>, ev: Event, id: nat, kind: Event -> bool)
    ensures Count(log + [ev], id, kind) == Count(log, id, kind) + (if ev.id == id && kind(ev) then 1 else 0)
  {
    assert (log + [ev])[..|log|] == log;
  }

  /** What a step adds to the log: the venue call, the boundary, the retreat and the clearance, each when it
      takes effect, and nothing else. */
  ghost function Logged(w: World, s: Step): seq<Event>
    requires Enabled(w, s)
  {
    if s.Call? then [Dispatch(w.procs[s.p].pc.cur.id, w.procs[s.p].pc.cur.attempts)]
    else if s.Intend? && !s.save.Refused? then [Intent(w.procs[s.p].pc.cur.id, w.procs[s.p].pc.cur.attempts)]
    else if s.Finish? && !s.save.Refused? && s.state.Retryable? && w.procs[s.p].pc.InFlight?
    then [Withdraw(w.procs[s.p].pc.cur.id, w.procs[s.p].pc.cur.attempts)]
    else if s.Reconcile? && s.state.Retryable? && !s.save.Refused? then [Clear(s.entry.id)]
    else []
  }

  lemma StepLogs(w: World, s: Step)
    requires Enabled(w, s)
    ensures Apply(w, s).log == w.log + Logged(w, s)
  {
  }

  lemma StepCounts(w: World, s: Step, id: nat)
    requires Enabled(w, s)
    ensures Count(Apply(w, s).log, id, IsDispatch)
         == Count(w.log, id, IsDispatch) + (if s.Call? && w.procs[s.p].pc.cur.id == id then 1 else 0)
    ensures Count(Apply(w, s).log, id, IsClear) == Count(w.log, id, IsClear) + Clearances([s], id)
  {
    StepLogs(w, s);
    assert [s][1..] == [];
    var added := Logged(w, s);
    if added == [] {
      assert w.log + added == w.log;
    } else {
      assert added == [added[0]];
      CountAppend(w.log, added[0], id, IsDispatch);
      CountAppend(w.log, added[0], id, IsClear);
    }
  }

  lemma {:induction false} RunCounts(w: World, steps: seq<Step>, w': World, id: nat)
    requires Reaches(w, steps, w')
    ensures Count(w'.log, id, IsDispatch) == Count(w.log, id, IsDispatch) + Calls(w, steps, id)
    ensures Count(w'.log, id, IsClear) == Count(w.log, id, IsClear) + Clearances(steps, id)
    decreases |steps|
  {
    if steps != [] {
      StepCounts(w, steps[0], id);
      RunCounts(Apply(w, steps[0]), steps[1..], w', id);
      assert Clearances([steps[0]], id) + Clearances(steps[1..], id) == Clearances(steps, id) by {
        assert [steps[0]][1..] == [];
      }
    }
  }

  /** At most once, said without the log: in every run the venue is called for an entry at most once more
      than the operator has cleared it. */
  lemma CalledAtMostOncePerClearance(w: World, steps: seq<Step>, w': World, id: nat)
    requires Initial(w) && Reaches(w, steps, w')
    ensures Calls(w, steps, id) <= 1 + Clearances(steps, id)
  {
    RunCounts(w, steps, w', id);
    AtMostOncePerClearance(w, steps, w', id);
  }

  /** Nothing holds a process up: whenever its snapshot is current and it is not paused, an idle one can
      resume any pending or retryable entry, a handling one can commit the boundary or any outcome, one past
      the boundary can call and then commit any outcome but a retry, and an operator can resolve. */
  lemma StepsAreOpen(w: World, p: nat, x: Entry, state: CopyState, note: string, now: int)
    requires p in w.procs && !w.procs[p].paused && w.procs[p].rev == w.disk && !state.Pending?
    ensures w.procs[p].pc.Idle? && x in w.procs[p].mem.outbox && (x.state.Pending? || x.state.Retryable?) ==>
      Enabled(w, Resume(p, x, now))
    ensures w.procs[p].pc.Handling? ==>
      Enabled(w, Intend(p, note, now, Confirmed)) && Enabled(w, Finish(p, state, note, now, Confirmed))
    ensures w.procs[p].pc.InFlight? ==> Enabled(w, Call(p)) && Enabled(w, Finish(p, state, note, now, Confirmed))
    ensures w.procs[p].pc.Called? && !state.Retryable? ==> Enabled(w, Finish(p, state, note, now, Confirmed))
    ensures w.procs[p].pc.Idle? && x in w.procs[p].mem.outbox && x.state.Ambiguous? && !state.Ambiguous? ==>
      Enabled(w, Reconcile(p, x, state, note, now, Confirmed))
  {
  }

  lemma IdleIsOpen(w: World, p: nat)
    requires p in w.procs && w.procs[p].pc.Idle? && !w.procs[p].paused && w.procs[p].rev == w.disk
    ensures Enabled(w, Crash(p)) && Enabled(w, Edit(p, "")) && Enabled(w, Persist(p, map[], "", Confirmed))
  {
  }

  /** No entry has the activity's market, watch and key, and there is room or enough completed and rejected
      entries to make it. */
  ghost predicate Stageable(o: seq<Entry>, t: S.Task) {
    && (forall y :: y in o ==> !(y.market == t.market && y.watch == t.watch && y.key == t.activity.key))
    && (|o| < 500 || |o| - 499 <= CountResolved(o))
  }

  lemma StageableIsReady(o: seq<Entry>, t: S.Task, id: nat, now: int)
    requires WellFormed(o) && Stageable(o, t) && forall y :: y in o ==> y.id != id
    ensures Stage(o, S.NewEntry(t, id, now)).Ready? && !S.InOutbox(o, t)
  {
    forall y | y in o ensures !S.Matches(y, t) && !SameActivity(y, S.NewEntry(t, id, now)) { }
    StageSound(o, S.NewEntry(t, id, now));
  }

  /** An idle, current, unpaused process can stage any stageable activity of a watch it has, under a new
      identity, as long as the watch's cursor can remember one more key. */
  lemma StagingIsOpen(w: World, p: nat, t: S.Task, id: nat, now: int)
    requires Inv(w) && p in w.procs && w.procs[p].pc.Idle? && !w.procs[p].paused && w.procs[p].rev == w.disk
    requires id !in w.used && t.watch in w.procs[p].mem.watches && Stageable(w.procs[p].mem.outbox, t)
    requires !S.Remember(w.procs[p].mem.watches[t.watch], t.market, t.activity).LedgerFull?
    ensures Enabled(w, StageNew(p, t, id, now, Confirmed))
  {
    assert ProcOk(w.procs[p], w.used);
    assert forall y :: y in w.procs[p].mem.outbox ==> y.id in w.used;
    StageableIsReady(w.procs[p].mem.outbox, t, id, now);
  }

  lemma StageEffect(w: World, s: Step)
    requires Inv(w) && Enabled(w, s) && s.StageNew? && !s.save.Refused?
    ensures var t := s.task;
            && WellFormed(Durably(w)) && t.watch in Base(w.disk).watches
            && (forall y :: y in Durably(w) ==> y.id != s.id && !S.Matches(y, t))
            && Stage(Durably(w), S.NewEntry(t, s.id, s.now)) == Ready(Durably(Apply(w, s)))
            && S.Remember(Base(w.disk).watches[t.watch], t.market, t.activity).Known?
            && Base(Apply(w, s).disk).watches == Base(w.disk).watches[t.watch :=
                 S.Remember(Base(w.disk).watches[t.watch], t.market, t.activity).watch]
  {
    assert ProcOk(w.procs[s.p], w.used);
    forall y | y in Durably(w) ensures y.id != s.id && !S.Matches(y, s.task) { assert y.id in w.used; }
  }

  lemma StagedOutbox(o: seq<Entry>, t: S.Task, id: nat, now: int)
    requires WellFormed(o) && (forall y :: y in o ==> y.id != id && !S.Matches(y, t))
    requires Stage(o, S.NewEntry(t, id, now)).Ready?
    ensures var n := Stage(o, S.NewEntry(t, id, now)).outbox;
            && 0 < |n| <= 500
            && n[|n| - 1] == Entry(id, t.market, t.watch, t.activity.key, t.payload, Pending, 0, "", now, now, 0)
            && (forall y :: y in n[..|n| - 1] ==> y in o)
            && (forall y :: y in o && (y.state.Pending? || y.state.Retryable? || y.state.Ambiguous?) ==> y in n)
  {
    var e := S.NewEntry(t, id, now);
    forall y | y in o ensures y.id != e.id && !SameActivity(y, e) { assert !S.Matches(y, t); }
    StageSound(o, e);
    var n := Stage(o, e).outbox;
    SubsequenceKeepsWellFormed(n[..|n| - 1], o);
  }

  /** In every run, a committed stage adds the activity as the last entry, pending and untried, keeps every
      unresolved one and stays within 500. */
  lemma StageRecorded(w0: World, before: seq<Step>, w: World, s: Step)
    requires Initial(w0) && Reaches(w0, before, w) && Enabled(w, s) && s.StageNew? && !s.save.Refused?
    ensures var o, n, t := Durably(w), Durably(Apply(w, s)), s.task;
            && 0 < |n| <= 500
            && n[|n| - 1] == Entry(s.id, t.market, t.watch, t.activity.key, t.payload, Pending, 0, "", s.now, s.now, 0)
            && (forall y :: y in n[..|n| - 1] ==> y in o)
            && (forall y :: y in o && (y.state.Pending? || y.state.Retryable? || y.state.Ambiguous?) ==> y in n)
  {
    InitialInv(w0);
    RunKeepsInv(w0, before, w);
    StageEffect(w, s);
    StagedOutbox(Durably(w), s.task, s.id, s.now);
  }

  /** It advances the cursor of the activity's market and no other. */
  lemma StageAdvances(w0: World, before: seq<Step>, w: World, s: Step)
    requires Initial(w0) && Reaches(w0, before, w) && Enabled(w, s) && s.StageNew? && !s.save.Refused?
    ensures var a, b, t := Base(w.disk).watches, Base(Apply(w, s).disk).watches, s.task;
            && t.watch in a && a.Keys == b.Keys && (forall k :: k in a && k != t.watch ==> b[k] == a[k])
            && (forall m :: m != t.market ==> S.CursorFor(b[t.watch], m) == S.CursorFor(a[t.watch], m))
            && S.CursorFor(b[t.watch], t.market) == S.Advance(S.CursorFor(a[t.watch], t.market), t.activity)
  {
    InitialInv(w0);
    RunKeepsInv(w0, before, w);
    StageEffect(w, s);
    S.RememberIsLocal(Base(w.disk).watches[s.task.watch], s.task.market, s.task.activity);
  }
}
