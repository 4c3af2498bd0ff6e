/** The configuration store, with its locks, temporary files and hashes, behaves as a compare-and-swap
    file, and a compare-and-swap file is all that the copy protocol uses. */
module StoreRefinement {
  import opened Options
  import opened CasStore
  import CS = ConfigStore
  import CP = CopyProtocol

  // ----- the store is a compare-and-swap file -----

  /** Objects and what they last loaded or committed. */
  function StoreView(w: CS.World): Store<Option<CS.Bytes>> {
    Store(w.target, map c | c in w.configs :: w.configs[c].known)
  }

  /** The move a step of `save_config` makes: only the replacement swaps. */
  ghost function StoreMove(w: CS.World, s: CS.Step): Move<Option<CS.Bytes>>
    requires CS.Enabled(w, s)
  {
    match s
    case Create(c, _, _) => Join(c, None)
    case Load(c, _, _) => Join(c, w.target)
    case Replace(t) => Swap(w.savers[t].cfg, Some(w.savers[t].pc.tmp))
    case Crash(process) => Part(set c | c in w.configs && w.configs[c].process == process)
    case _ => Stay
  }

  lemma ReplaceIsSwap(hash: CS.Bytes -> string, first: Option<CS.Bytes>, w: CS.World, s: CS.Step)
    requires CS.CollisionFree(hash) && CS.Inv(hash, first, w) && CS.Enabled(w, s) && s.Replace?
    ensures Allowed(StoreView(w), StoreMove(w, s), None)
    ensures Moved(StoreView(w), StoreMove(w, s)) == StoreView(CS.Apply(hash, w, s))
  {
    assert CS.SaverOk(hash, w, s.t);
    CS.SameFile(hash, w.target, CS.Owner(w, s.t).known);
  }

  lemma ObjectsComeAndGo(hash: CS.Bytes -> string, w: CS.World, s: CS.Step)
    requires CS.Enabled(w, s) && (s.Create? || s.Load? || s.Crash?)
    ensures Allowed(StoreView(w), StoreMove(w, s), None)
    ensures Moved(StoreView(w), StoreMove(w, s)) == StoreView(CS.Apply(hash, w, s))
  {
  }

  lemma OthersStay(hash: CS.Bytes -> string, w: CS.World, s: CS.Step)
    requires CS.Enabled(w, s) && !(s.Create? || s.Load? || s.Crash? || s.Replace?)
    ensures StoreMove(w, s) == Stay && StoreView(w) == StoreView(CS.Apply(hash, w, s))
  {
  }

  /** The revision check, made long before the replacement, still holds when it happens: nobody else has
      replaced the file in between, so the whole save is one atomic swap. */
  lemma StoreStepIsMove(hash: CS.Bytes -> string, first: Option<CS.Bytes>, w: CS.World, s: CS.Step)
    requires CS.CollisionFree(hash) && CS.Inv(hash, first, w) && CS.Enabled(w, s)
    ensures Allowed(StoreView(w), StoreMove(w, s), None)
    ensures Moved(StoreView(w), StoreMove(w, s)) == StoreView(CS.Apply(hash, w, s))
  {
    if s.Replace? {
      ReplaceIsSwap(hash, first, w, s);
    } else if s.Create? || s.Load? || s.Crash? {
      ObjectsComeAndGo(hash, w, s);
    } else {
      OthersStay(hash, w, s);
    }
  }

  /** Over every run the store takes only moves of a compare-and-swap file. */
  lemma {:induction false} StoreRefinesCas(hash: CS.Bytes -> string, first: Option<CS.Bytes>, w: CS.World,
                                           steps: seq<CS.Step>, w': CS.World, n: nat)
      returns (at: CS.World)
    requires CS.CollisionFree(hash) && CS.Inv(hash, first, w) && CS.Reaches(hash, w, steps, w') && n < |steps|
    ensures CS.Reaches(hash, w, steps[..n], at) && CS.Enabled(at, steps[n])
    ensures Steps(StoreView(at), StoreView(CS.Apply(hash, at, steps[n])), None)
    decreases |steps|
  {
    if n == 0 {
      at := w;
      assert steps[..0] == [];
      StoreStepIsMove(hash, first, w, steps[0]);
    } else {
      CS.StepKeepsInv(hash, first, w, steps[0]);
      at := StoreRefinesCas(hash, first, CS.Apply(hash, w, steps[0]), steps[1..], w', n - 1);
      assert steps[..n][1..] == steps[1..][..n - 1] && steps[n] == steps[1..][n - 1];
    }
  }

  // ----- the protocol uses nothing else -----

  function ProtocolView(w: CP.World): Store<CP.Durable> {
    Store(w.disk, map p | p in w.procs :: w.procs[p].rev)
  }

  predicate Commits(s: CP.Step) {
    (s.Persist? || s.StageNew? || s.Intend? || s.Finish? || s.Reconcile?) && !s.save.Refused?
  }

  ghost function ProtocolMove(w: CP.World, s: CP.Step): Move<CP.Durable>
    requires CP.Enabled(w, s)
  {
    if s.Load? then Join(s.p, w.disk)
    else if s.Crash? then Part({s.p})
    else if Commits(s) then Swap(s.p, CP.Apply(w, s).disk)
    else Stay
  }

  lemma ProcessesComeAndGo(w: CP.World, s: CP.Step)
    requires CP.Enabled(w, s) && (s.Load? || s.Crash?)
    ensures Allowed(ProtocolView(w), ProtocolMove(w, s), CP.Missing)
    ensures Moved(ProtocolView(w), ProtocolMove(w, s)) == ProtocolView(CP.Apply(w, s))
  {
  }

  /** A commit leaves its process knowing exactly what it wrote. */
  lemma CommitEffect(w: CP.World, s: CP.Step)
    requires CP.Enabled(w, s) && Commits(s)
    ensures var w' := CP.Apply(w, s);
            && s.p in w.procs && w.procs[s.p].rev == w.disk && w'.procs.Keys == w.procs.Keys
            && w'.procs[s.p].rev == w'.disk && forall q :: q in w.procs && q != s.p ==> w'.procs[q] == w.procs[q]
  {
  }

  lemma CommitIsSwap(w: CP.World, s: CP.Step)
    requires CP.Enabled(w, s) && Commits(s)
    ensures Allowed(ProtocolView(w), ProtocolMove(w, s), CP.Missing)
    ensures Moved(ProtocolView(w), ProtocolMove(w, s)) == ProtocolView(CP.Apply(w, s))
  {
    CommitEffect(w, s);
  }

  /** Any other step leaves the file and everybody's knowledge of it alone. */
  lemma RestStays(w: CP.World, s: CP.Step)
    requires CP.Enabled(w, s) && !s.Load? && !s.Crash? && !Commits(s)
    ensures ProtocolMove(w, s) == Stay && ProtocolView(w) == ProtocolView(CP.Apply(w, s))
  {
    var w' := CP.Apply(w, s);
    assert w'.disk == w.disk && w'.procs.Keys == w.procs.Keys;
    assert forall q :: q in w.procs ==> w'.procs[q].rev == w.procs[q].rev;
  }

  /** Every step of the copy protocol touches the file by such a move: loading, swapping its own last
      content for the next, or not at all. */
  lemma ProtocolStepIsMove(w: CP.World, s: CP.Step)
    requires CP.Enabled(w, s)
    ensures Allowed(ProtocolView(w), ProtocolMove(w, s), CP.Missing)
    ensures Moved(ProtocolView(w), ProtocolMove(w, s)) == ProtocolView(CP.Apply(w, s))
  {
    if s.Load? || s.Crash? {
      ProcessesComeAndGo(w, s);
    } else if Commits(s) {
      CommitIsSwap(w, s);
    } else {
      RestStays(w, s);
    }
  }
}
