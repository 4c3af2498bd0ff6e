/** From entries to activities: an observed activity gets one outbox entry, and so one chance of being
    dispatched, in every run that hands out activities as the poller does. */
module CopyOnce {
  import opened Outbox
  import opened CopyProtocol
  import opened CopySafety
  import opened Staging

  predicate SameTask(t: Task, u: Task) {
    t.market == u.market && t.watch == u.watch && t.activity.key == u.activity.key
  }

  /** A stage that reached the file. */
  predicate Stages(s: Step) { s.StageNew? && !s.save.Refused? }

  function StagedBy(staged: seq<Task>, s: Step): seq<Task> { if Stages(s) then staged + [s.task] else staged }

  /** When each activity happened: one time per market, watch and key. */
  type Dating = Task -> int

  ghost predicate Dated(date: Dating, t: Task) {
    && t.activity.ts == date(t)
    && forall u :: SameTask(t, u) ==> date(u) == date(t)
  }

  /** Watches may be added and removed; those that stay keep their cursors, and a removed one that had
      activities staged does not come back under its old identity. */
  ghost predicate KeepsCursors(before: map<string, Watch>, after: map<string, Watch>, staged: seq<Task>) {
    forall id :: id in after && (id in before || exists t :: t in staged && t.watch == id) ==>
      id in before && forall market :: CursorFor(after[id], market) == CursorFor(before[id], market)
  }

  /** The step hands out only what the poller would, and edits watches with care. */
  ghost predicate Attentive(w: World, s: Step, staged: seq<Task>, date: Dating)
    requires Enabled(w, s)
  {
    && (s.StageNew? ==>
          && Dated(date, s.task)
          && var mem := w.procs[s.p].mem;
          Deliverable(CursorFor(mem.watches[s.task.watch], s.task.market), mem.outbox, s.task))
    && (s.Persist? && !s.save.Refused? ==> KeepsCursors(w.procs[s.p].mem.watches, s.watches, staged))
  }

  /** A run of attentive steps from `w` to `w'` that stages `staged` on top of `before`. */
  ghost predicate Runs(w: World, steps: seq<Step>, w': World, before: seq<Task>, staged: seq<Task>, date: Dating)
    decreases |steps|
  {
    if steps == [] then w == w' && staged == before
    else
      && Enabled(w, steps[0]) && Attentive(w, steps[0], before, date)
      && Runs(Apply(w, steps[0]), steps[1..], w', StagedBy(before, steps[0]), staged, date)
  }

  // ----- the durable cursors know every staged activity -----

  ghost predicate Knows(watches: map<string, Watch>, t: Task) {
    t.watch in watches ==> Delivered(CursorFor(watches[t.watch], t.market), t.activity)
  }

  ghost predicate Remembered(w: World, staged: seq<Task>, date: Dating) {
    forall t :: t in staged ==> Dated(date, t) && Knows(Base(w.disk).watches, t)
  }

  lemma RememberKnows(watches: map<string, Watch>, b: Task, t: Task, date: Dating)
    requires b.watch in watches && Remember(watches[b.watch], b.market, b.activity).Known?
    requires Dated(date, b) && (t == b || (Dated(date, t) && Knows(watches, t)))
    ensures Knows(watches[b.watch := Remember(watches[b.watch], b.market, b.activity).watch], t)
  {
    RememberIsLocal(watches[b.watch], b.market, b.activity);
    if t.watch == b.watch && t.market == b.market {
      if t.activity.key == b.activity.key { assert SameTask(b, t); }
      AdvanceKeepsDelivered(CursorFor(watches[b.watch], b.market), t.activity, b.activity);
    }
  }

  /** Apart from staging and editing watches, no step changes the cursors in the file. */
  lemma CursorsStay(w: World, s: Step)
    requires Inv(w) && Enabled(w, s) && !Stages(s) && !(s.Persist? && !s.save.Refused?)
    ensures Base(Apply(w, s).disk).watches == Base(w.disk).watches
  {
    if s.Intend? || s.Finish? || s.Reconcile? {
      CommitKeepsCursors(w, s);
    }
  }

  lemma CommitKeepsCursors(w: World, s: Step)
    requires Inv(w) && Enabled(w, s) && (s.Intend? || s.Finish? || s.Reconcile?)
    ensures Base(Apply(w, s).disk).watches == Base(w.disk).watches
  {
    assert ProcOk(w.procs[s.p], w.used);
  }

  lemma StageKnows(w: World, s: Step, date: Dating, t: Task)
    requires Inv(w) && Enabled(w, s) && Stages(s) && Dated(date, s.task)
    requires t == s.task || (Dated(date, t) && Knows(Base(w.disk).watches, t))
    ensures Knows(Base(Apply(w, s).disk).watches, t)
  {
    assert ProcOk(w.procs[s.p], w.used);
    RememberKnows(Base(w.disk).watches, s.task, t, date);
  }

  lemma EditKnows(w: World, s: Step, staged: seq<Task>, t: Task)
    requires Inv(w) && Enabled(w, s) && s.Persist? && !s.save.Refused? && t in staged
    requires KeepsCursors(w.procs[s.p].mem.watches, s.watches, staged) && Knows(Base(w.disk).watches, t)
    ensures Knows(Base(Apply(w, s).disk).watches, t)
  {
    assert ProcOk(w.procs[s.p], w.used);
  }

  lemma StepKeepsRemembered(w: World, s: Step, staged: seq<Task>, date: Dating)
    requires Inv(w) && Enabled(w, s) && Attentive(w, s, staged, date) && Remembered(w, staged, date)
    ensures Remembered(Apply(w, s), StagedBy(staged, s), date)
  {
    forall t | t in StagedBy(staged, s) ensures Dated(date, t) && Knows(Base(Apply(w, s).disk).watches, t) {
      if Stages(s) {
        StageKnows(w, s, date, t);
      } else if s.Persist? && !s.save.Refused? {
        EditKnows(w, s, staged, t);
      } else {
        CursorsStay(w, s);
      }
    }
  }

  lemma {:induction false} RunKeepsRemembered(w: World, steps: seq<Step>, w': World, before: seq<Task>,
                                              staged: seq<Task>, date: Dating)
    requires Inv(w) && Remembered(w, before, date) && Runs(w, steps, w', before, staged, date)
    ensures Inv(w') && Remembered(w', staged, date)
    decreases |steps|
  {
    if steps != [] {
      StepKeepsInv(w, steps[0]);
      StepKeepsRemembered(w, steps[0], before, date);
      RunKeepsRemembered(Apply(w, steps[0]), steps[1..], w', StagedBy(before, steps[0]), staged, date);
    }
  }

  lemma SecondStageCollides(w: World, s: Step, staged: seq<Task>, date: Dating, t: Task)
    requires Inv(w) && Remembered(w, staged, date) && Enabled(w, s) && Attentive(w, s, staged, date)
    requires Stages(s) && t in staged && SameTask(t, s.task)
    ensures Collides(w.procs[s.p].mem.outbox, s.task)
  {
    assert ProcOk(w.procs[s.p], w.used);
    assert Dated(date, t) && Dated(date, s.task);
  }

  /** In every run, with any number of processes and crashes, an activity that was staged is staged again
      only while it collides: another market of the watch has an entry under its key and its own has none.
      That holds even after its first entry was evicted and its key forgotten. */
  lemma StagedAgainOnlyOnCollision(w0: World, steps: seq<Step>, w: World, staged: seq<Task>, date: Dating,
                                   s: Step, t: Task)
    requires Initial(w0) && Runs(w0, steps, w, [], staged, date)
    requires Enabled(w, s) && Attentive(w, s, staged, date) && Stages(s) && t in staged && SameTask(t, s.task)
    ensures Collides(w.procs[s.p].mem.outbox, s.task)
  {
    InitialInv(w0);
    RunKeepsRemembered(w0, steps, w, [], staged, date);
    SecondStageCollides(w, s, staged, date, t);
  }

  // ----- runs without collisions -----

  ghost predicate Unmixed(w: World, steps: seq<Step>)
    decreases |steps|
  {
    steps == [] ||
    (&& Enabled(w, steps[0])
     && (Stages(steps[0]) ==> !Collides(w.procs[steps[0].p].mem.outbox, steps[0].task))
     && Unmixed(Apply(w, steps[0]), steps[1..]))
  }

  ghost predicate AllDifferent(staged: seq<Task>) {
    forall i, j :: 0 <= i < j < |staged| ==> !SameTask(staged[i], staged[j])
  }

  lemma StepKeepsDifferent(w: World, s: Step, staged: seq<Task>, date: Dating)
    requires Inv(w) && Remembered(w, staged, date) && Enabled(w, s) && Attentive(w, s, staged, date)
    requires (Stages(s) ==> !Collides(w.procs[s.p].mem.outbox, s.task)) && AllDifferent(staged)
    ensures AllDifferent(StagedBy(staged, s))
  {
    forall t | Stages(s) && t in staged ensures !SameTask(t, s.task) {
      if SameTask(t, s.task) { SecondStageCollides(w, s, staged, date, t); }
    }
  }

  lemma {:induction false} RunKeepsDifferent(w: World, steps: seq<Step>, w': World, before: seq<Task>,
                                             staged: seq<Task>, date: Dating)
    requires Inv(w) && Remembered(w, before, date) && Runs(w, steps, w', before, staged, date)
    requires Unmixed(w, steps) && AllDifferent(before)
    ensures AllDifferent(staged)
    decreases |steps|
  {
    if steps != [] {
      StepKeepsInv(w, steps[0]);
      StepKeepsRemembered(w, steps[0], before, date);
      StepKeepsDifferent(w, steps[0], before, date);
      RunKeepsDifferent(Apply(w, steps[0]), steps[1..], w', StagedBy(before, steps[0]), staged, date);
    }
  }

  /** In every run without a collision every activity gets at most one entry. */
  lemma ActivityStagedOnce(w0: World, steps: seq<Step>, w: World, staged: seq<Task>, date: Dating)
    requires Initial(w0) && Runs(w0, steps, w, [], staged, date) && Unmixed(w0, steps)
    ensures AllDifferent(staged)
  {
    InitialInv(w0);
    RunKeepsDifferent(w0, steps, w, [], staged, date);
  }
}
