/** Safety of copy dispatch over whole runs of the protocol. */
module CopySafety {
  import opened Outbox
  import opened CopyLog
  import opened CopyProtocol

  ghost predicate Reaches(w: World, steps: seq<Step>, w': World)
    decreases |steps|
  {
    if steps == [] then w == w'
    else Enabled(w, steps[0]) && Reaches(Apply(w, steps[0]), steps[1..], w')
  }

  lemma InitialInv(w: World)
    requires Initial(w)
    ensures Inv(w)
  {
  }

  lemma {:induction false} RunKeepsInv(w: World, steps: seq<Step>, w': World)
    requires Inv(w) && Reaches(w, steps, w')
    ensures Inv(w')
    decreases |steps|
  {
    if steps != [] {
      StepKeepsInv(w, steps[0]);
      RunKeepsInv(Apply(w, steps[0]), steps[1..], w');
    }
  }

  // ----- how many dispatches -----

  /** In every run, with any number of processes, crashes and rival writers, the dispatches of one
      entry never exceed one plus the operator's clearances of it. */
  lemma AtMostOncePerClearance(w: World, steps: seq<Step>, w': World, id: nat)
    requires Initial(w) && Reaches(w, steps, w')
    ensures Count(w'.log, id, IsDispatch) <= 1 + Count(w'.log, id, IsClear)
  {
    InitialInv(w);
    RunKeepsInv(w, steps, w');
    DispatchesBounded(w'.log, id);
  }

  /** Every venue call was preceded by the durable move of exactly that attempt to `ambiguous`. */
  lemma DispatchAfterDurableIntent(w: World, steps: seq<Step>, w': World, n: nat)
    requires Initial(w) && Reaches(w, steps, w') && n < |w'.log| && w'.log[n].Dispatch?
    ensures Intent(w'.log[n].id, w'.log[n].attempt) in w'.log[..n]
    ensures w'.log[n] !in w'.log[..n]
  {
    InitialInv(w);
    RunKeepsInv(w, steps, w');
    assert LegalAt(w'.log, n);
  }

  // ----- separation of dispatches -----

  /** A process holds a durable permission to call the venue for this entry. */
  ghost predicate Held(w: World, id: nat) {
    exists q :: q in w.procs && w.procs[q].pc.InFlight? && w.procs[q].pc.cur.id == id
  }

  ghost predicate Clears(s: Step) { s.Reconcile? && s.state.Retryable? && !s.save.Refused? }

  /** The operator clears an entry only while no process holds a permission for it. */
  ghost predicate Careful(w: World, steps: seq<Step>)
    decreases |steps|
  {
    steps == [] ||
    (Enabled(w, steps[0]) && (Clears(steps[0]) ==> !Held(w, steps[0].entry.id))
     && Careful(Apply(w, steps[0]), steps[1..]))
  }

  /** Every holder's intent is the open one. */
  ghost predicate HoldersOpen(w: World) {
    forall q :: q in w.procs && w.procs[q].pc.InFlight? ==>
      PhaseOf(w.log, w.procs[q].pc.cur.id) == Intended(w.procs[q].pc.cur.attempts)
  }

  lemma PromptAppend(log: seq<Event>, ev: Event)
    requires Prompt(log) && (ev.Dispatch? ==> PhaseOf(log, ev.id) == Intended(ev.attempt))
    ensures Prompt(log + [ev])
  {
    var l := log + [ev];
    forall n | 0 <= n < |l| && l[n].Dispatch? ensures PhaseOf(l[..n], l[n].id) == Intended(l[n].attempt) {
      if n < |log| { assert l[..n] == log[..n]; } else { assert l[..n] == log; }
    }
  }

  lemma IntendOpens(w: World, s: Step)
    requires Inv(w) && Enabled(w, s) && s.Intend? && HoldersOpen(w) && Prompt(w.log)
    ensures HoldersOpen(Apply(w, s)) && Prompt(Apply(w, s).log)
  {
    if s.save.Refused? {
      assert Apply(w, s).log == w.log;
    } else {
      BoundaryOpens(w, s);
    }
  }

  lemma BoundaryOpens(w: World, s: Step)
    requires Inv(w) && Enabled(w, s) && s.Intend? && !s.save.Refused? && HoldersOpen(w) && Prompt(w.log)
    ensures HoldersOpen(Apply(w, s)) && Prompt(Apply(w, s).log)
  {
    var cur := w.procs[s.p].pc.cur;
    var ev := Intent(cur.id, cur.attempts);
    BoundaryAlone(w, s);
    PhaseAppend(w.log, ev, cur.id);
    EventOpens(w, Apply(w, s), s.p, ev);
    PromptAppend(w.log, ev);
  }

  /** Nobody else holds a permission for an entry that is still replayable. */
  lemma BoundaryAlone(w: World, s: Step)
    requires Inv(w) && Enabled(w, s) && s.Intend? && !s.save.Refused? && HoldersOpen(w)
    ensures forall q :: q in w.procs && w.procs[q].pc.InFlight? ==>
      w.procs[q].pc.cur.id != w.procs[s.p].pc.cur.id
  {
    assert ProcOk(w.procs[s.p], w.used);
    assert EntryOk(w.procs[s.p].pc.base, w.log);
  }

  lemma SoleHolder(w: World, p: nat)
    requires PermitsOk(w) && HoldersOpen(w) && p in w.procs && w.procs[p].pc.InFlight?
    ensures forall q :: q in w.procs && q != p && w.procs[q].pc.InFlight? ==>
      w.procs[q].pc.cur.id != w.procs[p].pc.cur.id
  {
  }

  /** Holders of other entries do not notice an event. */
  lemma EventOpens(w: World, w': World, p: nat, ev: Event)
    requires HoldersOpen(w) && w'.log == w.log + [ev]
    requires forall q :: q in w'.procs && w'.procs[q].pc.InFlight? && q != p ==>
      q in w.procs && w.procs[q] == w'.procs[q] && w.procs[q].pc.cur.id != ev.id
    requires p in w'.procs && w'.procs[p].pc.InFlight? ==>
      PhaseOf(w'.log, w'.procs[p].pc.cur.id) == Intended(w'.procs[p].pc.cur.attempts)
    ensures HoldersOpen(w')
  {
    forall q | q in w'.procs && w'.procs[q].pc.InFlight?
      ensures PhaseOf(w'.log, w'.procs[q].pc.cur.id) == Intended(w'.procs[q].pc.cur.attempts)
    {
      if q != p { PhaseAppend(w.log, ev, w'.procs[q].pc.cur.id); }
    }
  }

  lemma WithdrawOpens(w: World, s: Step)
    requires Inv(w) && Enabled(w, s) && s.Finish? && HoldersOpen(w) && Prompt(w.log)
    requires w.procs[s.p].pc.InFlight? && s.state.Retryable? && !s.save.Refused?
    ensures HoldersOpen(Apply(w, s)) && Prompt(Apply(w, s).log)
  {
    var cur := w.procs[s.p].pc.cur;
    SoleHolder(w, s.p);
    EventOpens(w, Apply(w, s), s.p, Withdraw(cur.id, cur.attempts));
    PromptAppend(w.log, Withdraw(cur.id, cur.attempts));
  }

  lemma FinishOpens(w: World, s: Step)
    requires Enabled(w, s) && s.Finish? && HoldersOpen(w) && Prompt(w.log)
    requires !(w.procs[s.p].pc.InFlight? && s.state.Retryable? && !s.save.Refused?)
    ensures HoldersOpen(Apply(w, s)) && Prompt(Apply(w, s).log)
  {
    assert Apply(w, s).log == w.log;
  }

  lemma CallOpens(w: World, s: Step)
    requires Inv(w) && Enabled(w, s) && s.Call? && HoldersOpen(w) && Prompt(w.log)
    ensures HoldersOpen(Apply(w, s)) && Prompt(Apply(w, s).log)
  {
    var cur := w.procs[s.p].pc.cur;
    SoleHolder(w, s.p);
    EventOpens(w, Apply(w, s), s.p, Dispatch(cur.id, cur.attempts));
    PromptAppend(w.log, Dispatch(cur.id, cur.attempts));
  }

  lemma ReconcileOpens(w: World, s: Step)
    requires Inv(w) && Enabled(w, s) && s.Reconcile? && HoldersOpen(w) && Prompt(w.log)
    requires Clears(s) ==> !Held(w, s.entry.id)
    ensures HoldersOpen(Apply(w, s)) && Prompt(Apply(w, s).log)
  {
    if Clears(s) {
      ClearOpens(w, s);
    } else {
      assert Apply(w, s).log == w.log;
    }
  }

  lemma ClearOpens(w: World, s: Step)
    requires Enabled(w, s) && Clears(s) && HoldersOpen(w) && Prompt(w.log) && !Held(w, s.entry.id)
    ensures HoldersOpen(Apply(w, s)) && Prompt(Apply(w, s).log)
  {
    EventOpens(w, Apply(w, s), s.p, Clear(s.entry.id));
    PromptAppend(w.log, Clear(s.entry.id));
  }

  lemma OtherStepsOpen(w: World, s: Step)
    requires Enabled(w, s) && HoldersOpen(w) && Prompt(w.log)
    requires s.Load? || s.Crash? || s.Edit? || s.Persist? || s.StageNew? || s.Resume?
    ensures HoldersOpen(Apply(w, s)) && Prompt(Apply(w, s).log)
  {
  }

  lemma StepKeepsPrompt(w: World, s: Step)
    requires Inv(w) && Enabled(w, s) && HoldersOpen(w) && Prompt(w.log)
    requires Clears(s) ==> !Held(w, s.entry.id)
    ensures HoldersOpen(Apply(w, s)) && Prompt(Apply(w, s).log)
  {
    match s
    case Intend(_, _, _, _) => IntendOpens(w, s);
    case Finish(p, state, _, _, save) =>
      if w.procs[p].pc.InFlight? && state.Retryable? && !save.Refused? {
        WithdrawOpens(w, s);
      } else {
        FinishOpens(w, s);
      }
    case Call(_) => CallOpens(w, s);
    case Reconcile(_, _, _, _, _, _) => ReconcileOpens(w, s);
    case _ => OtherStepsOpen(w, s);
  }

  lemma {:induction false} CarefulKeepsPrompt(w: World, steps: seq<Step>, w': World)
    requires Inv(w) && HoldersOpen(w) && Prompt(w.log) && Reaches(w, steps, w') && Careful(w, steps)
    ensures Inv(w') && HoldersOpen(w') && Prompt(w'.log)
    decreases |steps|
  {
    if steps != [] {
      StepKeepsInv(w, steps[0]);
      StepKeepsPrompt(w, steps[0]);
      CarefulKeepsPrompt(Apply(w, steps[0]), steps[1..], w');
    }
  }

  /** If the operator clears only entries nobody holds a permission for, two dispatches of the same
      entry always have a clearance between them. */
  lemma DispatchesSeparated(w: World, steps: seq<Step>, w': World)
    requires Initial(w) && Reaches(w, steps, w') && Careful(w, steps)
    ensures Separated(w'.log)
  {
    InitialInv(w);
    CarefulKeepsPrompt(w, steps, w');
    PromptSeparates(w'.log);
  }

  // ----- the condition is exact -----

  lemma FreshPid(procs: map<nat, Proc>) returns (r: nat)
    ensures r !in procs
  {
    r := 0;
    var below := {};
    while r in procs
      invariant below <= procs.Keys && |below| == r && forall k :: k in below ==> k < r
      decreases |procs.Keys| - r
    {
      below := below + {r};
      SubsetSize(below, procs.Keys);
      r := r + 1;
    }
  }

  lemma TwoSteps(w: World, s: Step, rest: seq<Step>, w': World)
    requires Enabled(w, s) && Reaches(Apply(w, s), rest, w') && Careful(Apply(w, s), rest) && !Clears(s)
    ensures Reaches(w, [s] + rest, w') && Careful(w, [s] + rest)
  {
    assert ([s] + rest)[1..] == rest;
  }

  /** A fresh process `r` loads the file and resumes a replayable entry. */
  lemma RivalResumes(w: World, x: Entry, r: nat) returns (w': World)
    requires Inv(w) && x in Base(w.disk).outbox && Replayable(x.state) && r !in w.procs
    ensures Enabled(w, Load(r)) && Enabled(Apply(w, Load(r)), Resume(r, x, 0))
    ensures w' == Apply(Apply(w, Load(r)), Resume(r, x, 0)) && Enabled(w', Intend(r, "", 0, Confirmed))
    ensures w'.procs.Keys == w.procs.Keys + {r} && forall q :: q in w.procs ==> w'.procs[q] == w.procs[q]
    ensures w'.log == w.log && w'.procs[r].pc.Handling? && w'.procs[r].pc.cur.id == x.id
    ensures w'.procs[r].pc.cur.attempts == x.attempts + 1 && w'.procs[r].rev == w'.disk
  {
    var w1 := Apply(w, Load(r));
    assert x in w1.procs[r].mem.outbox;
    w' := Apply(w1, Resume(r, x, 0));
  }

  /** Committing a boundary and calling the venue, seen from outside. */
  lemma BoundaryEffect(w: World, r: nat)
    requires Inv(w) && r in w.procs && w.procs[r].pc.Handling? && !w.procs[r].paused && w.procs[r].rev == w.disk
    ensures Enabled(w, Intend(r, "", 0, Confirmed))
    ensures var w' := Apply(w, Intend(r, "", 0, Confirmed));
            var cur := w.procs[r].pc.cur;
            && w'.procs.Keys == w.procs.Keys && (forall q :: q in w.procs && q != r ==> w'.procs[q] == w.procs[q])
            && w'.procs[r].pc.InFlight? && w'.procs[r].pc.cur.id == cur.id
            && w'.procs[r].pc.cur.attempts == cur.attempts && w'.procs[r].rev == w'.disk
            && w'.log == w.log + [Intent(cur.id, cur.attempts)]
  {
  }

  /** It then commits its boundary. */
  lemma RivalCommits(w: World, x: Entry, r: nat) returns (steps: seq<Step>, w': World)
    requires Inv(w) && x in Base(w.disk).outbox && Replayable(x.state) && r !in w.procs
    ensures Reaches(w, steps, w') && Careful(w, steps) && Inv(w')
    ensures w'.procs.Keys == w.procs.Keys + {r} && forall q :: q in w.procs ==> w'.procs[q] == w.procs[q]
    ensures w'.procs[r].pc.InFlight? && w'.procs[r].pc.cur.id == x.id
    ensures w'.procs[r].pc.cur.attempts == x.attempts + 1 && w'.procs[r].rev == w'.disk
    ensures w'.log == w.log + [Intent(x.id, x.attempts + 1)]
  {
    var w2 := RivalResumes(w, x, r);
    StepKeepsInv(w, Load(r));
    StepKeepsInv(Apply(w, Load(r)), Resume(r, x, 0));
    BoundaryEffect(w2, r);
    var s3 := Intend(r, "", 0, Confirmed);
    w' := Apply(w2, s3);
    StepKeepsInv(w2, s3);
    steps := ThreeSteps(w, Load(r), Resume(r, x, 0), s3);
  }

  lemma ThreeSteps(w: World, a: Step, b: Step, c: Step) returns (steps: seq<Step>)
    requires Enabled(w, a) && Enabled(Apply(w, a), b) && Enabled(Apply(Apply(w, a), b), c)
    requires !Clears(a) && !Clears(b) && !Clears(c)
    ensures var w' := Apply(Apply(Apply(w, a), b), c); Reaches(w, steps, w') && Careful(w, steps)
  {
    var w' := Apply(Apply(Apply(w, a), b), c);
    assert [c][1..] == [] && Careful(w', []) && Reaches(w', [], w');
    TwoSteps(Apply(w, a), b, [c], w');
    TwoSteps(w, a, [b] + [c], w');
    steps := [a] + ([b] + [c]);
  }

  lemma CallEffect(w: World, r: nat)
    requires r in w.procs && w.procs[r].pc.InFlight?
    ensures Enabled(w, Call(r))
    ensures var w', cur := Apply(w, Call(r)), w.procs[r].pc.cur;
            && w'.log == w.log + [Dispatch(cur.id, cur.attempts)]
            && w'.procs.Keys == w.procs.Keys && forall q :: q in w.procs && q != r ==> w'.procs[q] == w.procs[q]
  {
  }

  /** The rival then calls the venue, while the earlier holder `q` is still waiting. */
  lemma RivalDispatches(w: World, x: Entry, q: nat, r: nat) returns (steps: seq<Step>, w': World)
    requires Inv(w) && x in Base(w.disk).outbox && Replayable(x.state) && r !in w.procs
    requires q in w.procs
    ensures Reaches(w, steps, w') && Careful(w, steps)
    ensures q in w'.procs && w'.procs[q] == w.procs[q]
    ensures w'.log == w.log + [Intent(x.id, x.attempts + 1), Dispatch(x.id, x.attempts + 1)]
  {
    var before, mid := RivalCommits(w, x, r);
    CallEffect(mid, r);
    ReachesAppend(w, before, mid, Call(r));
    steps, w' := before + [Call(r)], Apply(mid, Call(r));
    TwoEvents(w.log, Intent(x.id, x.attempts + 1), Dispatch(x.id, x.attempts + 1));
  }

  lemma TwoEvents(log: seq<Event>, a: Event, b: Event)
    ensures log + [a] + [b] == log + [a, b]
  {
  }

  lemma {:induction false} ReachesAppend(w: World, steps: seq<Step>, mid: World, s: Step)
    requires Reaches(w, steps, mid) && Careful(w, steps) && Enabled(mid, s) && !Clears(s)
    ensures Reaches(w, steps + [s], Apply(mid, s)) && Careful(w, steps + [s])
    decreases |steps|
  {
    var all := steps + [s];
    if steps == [] {
      assert all == [s] && all[1..] == [];
    } else {
      assert all[1..] == steps[1..] + [s];
      ReachesAppend(Apply(w, steps[0]), steps[1..], mid, s);
    }
  }

  lemma ClearanceRevives(w: World, s: Step, q: nat)
    requires Inv(w) && Enabled(w, s) && Clears(s) && q in w.procs && w.procs[q].pc.InFlight?
    ensures var x := Cleared(s.entry, s.state, s.note, s.now);
            && x in Base(Apply(w, s).disk).outbox && Replayable(x.state) && x.id == s.entry.id
    ensures q in Apply(w, s).procs && Apply(w, s).procs[q] == w.procs[q]
  {
    assert ProcOk(w.procs[s.p], w.used);
    SubstFacts(Base(w.disk).outbox, s.entry, Cleared(s.entry, s.state, s.note, s.now));
  }

  lemma AdjacentDispatches(log: seq<Event>, id: nat, a: nat, b: nat)
    requires |log| >= 2 && log[|log| - 2] == Dispatch(id, a) && log[|log| - 1] == Dispatch(id, b)
    ensures !Separated(log)
  {
    assert !ClearBetween(log, id, |log| - 2, |log| - 1);
  }

  /** After a clearance under a held permission there is a continuation, with no further operator
      action, in which two dispatches of the entry have no clearance between them. */
  lemma HeldClearanceBreaks(w: World, s: Step) returns (rest: seq<Step>, w': World)
    requires Inv(w) && Enabled(w, s) && Clears(s) && Held(w, s.entry.id)
    ensures Reaches(Apply(w, s), rest, w') && Careful(Apply(w, s), rest) && !Separated(w'.log)
  {
    var q :| q in w.procs && w.procs[q].pc.InFlight? && w.procs[q].pc.cur.id == s.entry.id;
    StepKeepsInv(w, s);
    ClearanceRevives(w, s, q);
    rest, w' := BothDispatch(Apply(w, s), Cleared(s.entry, s.state, s.note, s.now), q);
  }

  lemma BothDispatch(w: World, x: Entry, q: nat) returns (rest: seq<Step>, w': World)
    requires Inv(w) && x in Base(w.disk).outbox && Replayable(x.state)
    requires q in w.procs && w.procs[q].pc.InFlight? && w.procs[q].pc.cur.id == x.id
    ensures Reaches(w, rest, w') && Careful(w, rest) && !Separated(w'.log)
  {
    var r := FreshPid(w.procs);
    var mid: World;
    rest, mid := RivalDispatches(w, x, q, r);
    ReachesAppend(w, rest, mid, Call(q));
    rest, w' := rest + [Call(q)], Apply(mid, Call(q));
    AdjacentDispatches(w'.log, x.id, x.attempts + 1, w.procs[q].pc.cur.attempts);
  }

  lemma {:induction false} CarefulConcat(w: World, first: seq<Step>, mid: World, rest: seq<Step>, w': World)
    requires Reaches(w, first, mid) && Careful(w, first) && Reaches(mid, rest, w') && Careful(mid, rest)
    ensures Reaches(w, first + rest, w') && Careful(w, first + rest)
    decreases |first|
  {
    if first == [] {
      assert first + rest == rest;
    } else {
      assert (first + rest)[1..] == first[1..] + rest;
      CarefulConcat(Apply(w, first[0]), first[1..], mid, rest, w');
    }
  }

  /** Every careful continuation of a world keeps dispatches separated. */
  ghost predicate StaysSeparated(w: World) {
    forall rest, w' :: Reaches(w, rest, w') && Careful(w, rest) ==> Separated(w'.log)
  }

  /** After any careful history, one clearance is safe if and only if nobody holds a permission for
      the cleared entry at that moment. */
  lemma ClearanceSafeIffUnheld(w0: World, before: seq<Step>, w: World, s: Step)
    requires Initial(w0) && Reaches(w0, before, w) && Careful(w0, before)
    requires Enabled(w, s) && Clears(s)
    ensures StaysSeparated(Apply(w, s)) <==> !Held(w, s.entry.id)
  {
    InitialInv(w0);
    RunKeepsInv(w0, before, w);
    if Held(w, s.entry.id) {
      var rest, w' := HeldClearanceBreaks(w, s);
    } else {
      forall rest, w' | Reaches(Apply(w, s), rest, w') && Careful(Apply(w, s), rest)
        ensures Separated(w'.log)
      {
        assert ([s] + rest)[1..] == rest;
        CarefulConcat(w0, before, w, [s] + rest, w');
        DispatchesSeparated(w0, before + ([s] + rest), w');
      }
    }
  }

  /** A concrete run with one entry, two desktop processes and one operator: without care the plain
      separation claim fails. */
  lemma SeparationCanFail() returns (w0: World, steps: seq<Step>, w': World)
    ensures Initial(w0) && Reaches(w0, steps, w') && !Separated(w'.log)
  {
    var x := Entry(7, "polymarket", "watch", "key", "", Pending, 0, "", 1, 1, 0);
    w0 := World(File(Snapshot([x], map[], "")), map[], {7}, []);
    InitialInv(w0);
    var w1: World;
    steps, w1 := RivalCommits(w0, x, 0);
    var s: Step;
    steps, w1, s := OperatorArrives(w0, steps, w1, 0, 1);
    var rest: seq<Step>;
    rest, w' := HeldClearanceBreaks(w1, s);
    ReachesAppendAny(w0, steps, w1, s);
    ReachesConcat(w0, steps + [s], Apply(w1, s), rest, w');
    steps := steps + [s] + rest;
  }

  /** An operator process loads the file while `h` holds a permission, and may then clear the entry. */
  lemma OperatorArrives(w0: World, before: seq<Step>, w: World, h: nat, p: nat)
    returns (steps: seq<Step>, w': World, s: Step)
    requires Inv(w) && Reaches(w0, before, w) && Careful(w0, before) && p !in w.procs
    requires h in w.procs && w.procs[h].pc.InFlight? && w.procs[h].rev == w.disk
    ensures Inv(w') && Reaches(w0, steps, w') && Enabled(w', s) && Clears(s) && Held(w', s.entry.id)
  {
    assert ProcOk(w.procs[h], w.used);
    var cur := w.procs[h].pc.cur;
    StepKeepsInv(w, Load(p));
    ReachesAppend(w0, before, w, Load(p));
    steps, w' := before + [Load(p)], Apply(w, Load(p));
    s := Reconcile(p, cur, Retryable, "", 0, Confirmed);
    assert w'.procs[h] == w.procs[h];
  }

  lemma ReachesAppendAny(w: World, steps: seq<Step>, mid: World, s: Step)
    requires Reaches(w, steps, mid) && Enabled(mid, s)
    ensures Reaches(w, steps + [s], Apply(mid, s))
  {
    assert [s][1..] == [];
    assert Reaches(Apply(mid, s), [], Apply(mid, s));
    ReachesConcat(w, steps, mid, [s], Apply(mid, s));
  }

  lemma {:induction false} ReachesConcat(w: World, first: seq<Step>, mid: World, rest: seq<Step>, w': World)
    requires Reaches(w, first, mid) && Reaches(mid, rest, w')
    ensures Reaches(w, first + rest, w')
    decreases |first|
  {
    if first == [] {
      assert first + rest == rest;
    } else {
      assert (first + rest)[1..] == first[1..] + rest;
      ReachesConcat(Apply(w, first[0]), first[1..], mid, rest, w');
    }
  }

  // ----- fail-stop and agreement with the durable snapshot -----

  /** Whenever a process is idle and unpaused, its outbox and wallet cursors are those of the
      snapshot it last loaded or committed. */
  lemma IdleMatchesDurable(w: World, steps: seq<Step>, w': World, p: nat)
    requires Initial(w) && Reaches(w, steps, w')
    requires p in w'.procs && w'.procs[p].pc.Idle? && !w'.procs[p].paused
    ensures w'.procs[p].mem.outbox == Base(w'.procs[p].rev).outbox
    ensures w'.procs[p].mem.watches == Base(w'.procs[p].rev).watches
  {
    InitialInv(w);
    RunKeepsInv(w, steps, w');
    assert ProcOk(w'.procs[p], w'.used);
  }

  predicate Saves(s: Step) { s.Persist? || s.StageNew? || s.Intend? || s.Finish? || s.Reconcile? }

  /** A step by `p` that replaced the file. */
  predicate Writes(s: Step, p: nat) { s.p == p && Saves(s) && !s.save.Refused? }

  /** A save by `p` that raised: nothing was replaced, or the replacement could not be confirmed. */
  predicate SaveFails(s: Step, p: nat) { s.p == p && Saves(s) && !s.save.Confirmed? }

  /** In every run, a failed save leaves memory truthful: unless it was recording an outcome that was then
      refused, or the handler is still running, the outbox and cursors are exactly those of the snapshot
      last loaded or committed, which after an unconfirmed replacement is what the file now holds. */
  lemma FailedSaveLeavesSnapshot(w0: World, before: seq<Step>, w: World, s: Step, p: nat)
    requires Initial(w0) && Reaches(w0, before, w) && Enabled(w, s) && SaveFails(s, p)
    requires !(s.Finish? && s.save.Refused?) && !Apply(w, s).procs[p].pc.Handling?
    ensures InStep(Apply(w, s).procs[p])
    ensures s.save.Unconfirmed? ==> Apply(w, s).disk == Apply(w, s).procs[p].rev
  {
    InitialInv(w0);
    RunKeepsInv(w0, before, w);
    if s.save.Refused? { RefusalLeavesSnapshot(w, s); } else { CommitLeavesSnapshot(w, s); }
  }

  lemma RefusalLeavesSnapshot(w: World, s: Step)
    requires Inv(w) && Enabled(w, s) && Saves(s) && s.save.Refused? && !s.Finish? && !s.Intend?
    ensures InStep(Apply(w, s).procs[s.p])
  {
    assert ProcOk(w.procs[s.p], w.used);
  }

  lemma CommitLeavesSnapshot(w: World, s: Step)
    requires Enabled(w, s) && Saves(s) && s.save.Unconfirmed?
    ensures InStep(Apply(w, s).procs[s.p]) && Apply(w, s).disk == Apply(w, s).procs[s.p].rev
  {
  }

  lemma FailurePauses(w: World, s: Step, p: nat)
    requires Enabled(w, s) && SaveFails(s, p)
    ensures p in Apply(w, s).procs && Apply(w, s).procs[p].paused
  {
  }

  lemma PauseLasts(w: World, s: Step, p: nat)
    requires Enabled(w, s) && p in w.procs && w.procs[p].paused && s != Crash(p)
    ensures !Writes(s, p) && p in Apply(w, s).procs && Apply(w, s).procs[p].paused
  {
  }

  /** A paused process writes nothing until it is restarted. */
  lemma {:induction false} PausedNeverWrites(w: World, steps: seq<Step>, w': World, p: nat, j: nat)
    requires Reaches(w, steps, w') && p in w.procs && w.procs[p].paused && j < |steps|
    requires forall m :: 0 <= m < j ==> steps[m] != Crash(p)
    ensures !Writes(steps[j], p)
    decreases |steps|
  {
    if j > 0 {
      assert steps[0] != Crash(p);
      PauseLasts(w, steps[0], p);
      PausedNeverWrites(Apply(w, steps[0]), steps[1..], w', p, j - 1);
    } else if steps[0] != Crash(p) {
      PauseLasts(w, steps[0], p);
    }
  }

  /** In every run, once a save of a process failed, whether before or after the replacement, that
      process replaces the file no more until it is restarted. */
  lemma {:induction false} FailStop(w: World, steps: seq<Step>, w': World, p: nat, i: nat, j: nat)
    requires Reaches(w, steps, w') && i < j < |steps| && SaveFails(steps[i], p)
    requires forall m :: i < m < j ==> steps[m] != Crash(p)
    ensures !Writes(steps[j], p)
    decreases |steps|
  {
    var w1 := Apply(w, steps[0]);
    if i > 0 {
      FailStop(w1, steps[1..], w', p, i - 1, j - 1);
    } else {
      FailurePauses(w, steps[0], p);
      PausedNeverWrites(w1, steps[1..], w', p, j - 1);
    }
  }
}
