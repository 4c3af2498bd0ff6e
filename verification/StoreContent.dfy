/** What the configuration store writes: an object that was not edited writes back what it read, and a save
    that nobody disturbs succeeds. */
module StoreContent {
  import opened Options
  import opened ConfigStore

  // ----- unedited objects -----

  /** Serializing the object, now or in a save under way, gives what it last loaded or committed. */
  ghost predicate Unedited(w: World, c: nat) {
    && c in w.configs && w.configs[c].known == Some(w.configs[c].text)
    && forall t :: t in w.savers && w.savers[t].cfg == c && HasSnapshot(w.savers[t].pc) ==>
         w.savers[t].pc.data == w.configs[c].text
  }

  /** A loaded object is unedited: it holds the very content whose revision it carries. */
  lemma LoadIsUnedited(hash: Bytes -> string, first: Option<Bytes>, w: World, s: Step)
    requires Inv(hash, first, w) && Enabled(w, s) && s.Load? && w.target.Some?
    ensures var w' := Apply(hash, w, s);
            && Unedited(w', s.c) && w'.configs[s.c].text == w.target.value
            && w'.configs[s.c].rev == hash(w.target.value)
  {
    forall t | t in w.savers ensures w.savers[t].cfg != s.c { assert SaverOk(hash, w, t); }
  }

  /** Where there is no file, a load gives the defaults under the revision of a missing file. */
  lemma LoadWithoutFile(hash: Bytes -> string, w: World, s: Step)
    requires Enabled(w, s) && s.Load? && w.target.None?
    ensures var cfg := Apply(hash, w, s).configs[s.c];
            cfg.text == s.fallback && cfg.rev == "missing" && cfg.known.None?
  {
  }

  /** So is one that committed what it still holds. */
  lemma CommitIsUnedited(hash: Bytes -> string, first: Option<Bytes>, w: World, s: Step)
    requires Inv(hash, first, w) && Enabled(w, s) && s.Replace? && Owner(w, s.t).text == w.savers[s.t].pc.data
    ensures Unedited(Apply(hash, w, s), w.savers[s.t].cfg)
  {
    forall t | t in w.savers && t != s.t ensures w.savers[t].cfg != w.savers[s.t].cfg {
      LocksExclude(hash, first, w, s.t, t);
    }
  }

  predicate Spares(s: Step, c: nat, process: nat) { !(s.Mutate? && s.c == c) && s != Crash(process) }

  lemma StepKeepsUnedited(hash: Bytes -> string, first: Option<Bytes>, w: World, s: Step, c: nat)
    requires Inv(hash, first, w) && Enabled(w, s) && Unedited(w, c) && Spares(s, c, w.configs[c].process)
    ensures Unedited(Apply(hash, w, s), c) && Apply(hash, w, s).configs[c].process == w.configs[c].process
  {
    if s.Replace? {
      if w.savers[s.t].cfg == c { CommitIsUnedited(hash, first, w, s); }
    }
  }

  /** What an unedited object commits is what the file held. */
  lemma UneditedCommit(hash: Bytes -> string, first: Option<Bytes>, w: World, s: Step, c: nat)
    requires CollisionFree(hash) && Inv(hash, first, w) && Enabled(w, s) && Unedited(w, c)
    requires s.Replace? && w.savers[s.t].cfg == c
    ensures var w' := Apply(hash, w, s);
            |w'.commits| == |w.commits| + 1 && w'.commits[|w.commits|].cfg == c && w'.target == w.target
            && w'.commits[|w.commits|].before == Some(w'.commits[|w.commits|].after)
  {
    assert SaverOk(hash, w, s.t);
    SameFile(hash, w.target, Owner(w, s.t).known);
  }

  lemma StepCommits(hash: Bytes -> string, w: World, s: Step)
    requires Enabled(w, s)
    ensures !s.Replace? ==> Apply(hash, w, s).commits == w.commits
    ensures s.Replace? ==>
      |Apply(hash, w, s).commits| == |w.commits| + 1 && w.commits <= Apply(hash, w, s).commits
      && Apply(hash, w, s).commits[|w.commits|].cfg == w.savers[s.t].cfg
  {
  }

  /** In every interleaving, however many other objects, threads and processes save in between: an object
      that nobody edits since it held what it loaded or committed changes nothing by saving. A commit of it
      that changes the file therefore has an edit of it before. */
  lemma {:induction false} UneditedSavesChangeNothing(hash: Bytes -> string, first: Option<Bytes>, w: World,
                                                      steps: seq<Step>, w': World, c: nat, i: nat)
    requires CollisionFree(hash) && Inv(hash, first, w) && Reaches(hash, w, steps, w') && Unedited(w, c)
    requires forall k :: 0 <= k < |steps| ==> Spares(steps[k], c, w.configs[c].process)
    requires |w.commits| <= i < |w'.commits| && w'.commits[i].cfg == c
    ensures w'.commits[i].before == Some(w'.commits[i].after)
    decreases |steps|
  {
    var w1 := Apply(hash, w, steps[0]);
    assert Spares(steps[0], c, w.configs[c].process);
    StepKeepsInv(hash, first, w, steps[0]);
    StepKeepsUnedited(hash, first, w, steps[0], c);
    StepCommits(hash, w, steps[0]);
    CommitsGrow(hash, w1, steps[1..], w');
    if i < |w1.commits| {
      assert w'.commits[i] == w1.commits[i];
      UneditedCommit(hash, first, w, steps[0], c);
    } else {
      UneditedSavesChangeNothing(hash, first, w1, steps[1..], w', c, i);
    }
  }

  lemma {:induction false} CommitsGrow(hash: Bytes -> string, w: World, steps: seq<Step>, w': World)
    requires Reaches(hash, w, steps, w')
    ensures w.commits <= w'.commits
    decreases |steps|
  {
    if steps != [] {
      StepCommits(hash, w, steps[0]);
      CommitsGrow(hash, Apply(hash, w, steps[0]), steps[1..], w');
    }
  }

  // ----- locks are never left behind -----

  ghost predicate LockOwned(w: World, process: nat)
    requires process in w.threadLock
  {
    var t := w.threadLock[process];
    Saving(w, t) && Owner(w, t).process == process
  }

  /** Every lock that is held belongs to a call under way. */
  ghost predicate LocksOwned(w: World) {
    && (forall process :: process in w.threadLock ==> LockOwned(w, process))
    && (w.fileLock.Some? ==> Saving(w, w.fileLock.value) && HoldsFile(w.savers[w.fileLock.value].pc))
  }

  lemma StepKeepsLocks(hash: Bytes -> string, first: Option<Bytes>, w: World, s: Step)
    requires Inv(hash, first, w) && LocksOwned(w) && Enabled(w, s)
    ensures LocksOwned(Apply(hash, w, s))
  {
    assert forall t :: t in w.savers ==> SaverOk(hash, w, t);
    forall process | process in Apply(hash, w, s).threadLock ensures LockOwned(Apply(hash, w, s), process) {
      StepKeepsThreadLock(hash, first, w, s, process);
    }
    StepKeepsFileLock(hash, first, w, s);
  }

  lemma StepKeepsThreadLock(hash: Bytes -> string, first: Option<Bytes>, w: World, s: Step, process: nat)
    requires Inv(hash, first, w) && LocksOwned(w) && Enabled(w, s) && process in Apply(hash, w, s).threadLock
    ensures LockOwned(Apply(hash, w, s), process)
  {
    if process in w.threadLock { assert LockOwned(w, process); }
    if s.Raise? || s.Complete? || s.Compare? { assert SaverOk(hash, w, s.t); }
  }

  lemma StepKeepsFileLock(hash: Bytes -> string, first: Option<Bytes>, w: World, s: Step)
    requires Inv(hash, first, w) && LocksOwned(w) && Enabled(w, s)
    ensures var w' := Apply(hash, w, s);
            w'.fileLock.Some? ==> Saving(w', w'.fileLock.value) && HoldsFile(w'.savers[w'.fileLock.value].pc)
  {
    if w.fileLock.Some? { assert SaverOk(hash, w, w.fileLock.value); }
  }

  /** Over every run, with crashes at any point, a lock is held only by a call that is under way, so that once
      the calls of a process and the holder of the file lock have ended or died, it can save again. */
  lemma {:induction false} NoLockLeftBehind(hash: Bytes -> string, first: Option<Bytes>, w: World, steps: seq<Step>,
                                            w': World)
    requires CollisionFree(hash) && Inv(hash, first, w) && LocksOwned(w) && Reaches(hash, w, steps, w')
    ensures LocksOwned(w')
    ensures forall t, c :: t !in w'.savers && c in w'.configs && w'.savers == map[] ==> MayStart(w', t, c)
    decreases |steps|
  {
    if steps != [] {
      StepKeepsInv(hash, first, w, steps[0]);
      StepKeepsLocks(hash, first, w, steps[0]);
      NoLockLeftBehind(hash, first, Apply(hash, w, steps[0]), steps[1..], w');
    }
    if w'.savers == map[] { IdleStoreIsFree(w'); }
  }

  lemma IdleStoreIsFree(w: World)
    requires LocksOwned(w) && w.savers == map[]
    ensures w.threadLock == map[] && w.fileLock.None?
  {
    assert forall t :: !Saving(w, t);
    assert forall process :: process !in w.threadLock;
  }

  /** A new object holds the given text and knows no file. */
  lemma CreateExactly(hash: Bytes -> string, w: World, s: Step)
    requires Enabled(w, s) && s.Create?
    ensures var cfg := Apply(hash, w, s).configs[s.c];
            cfg.text == s.text && cfg.rev == "missing" && cfg.known.None? && cfg.process == s.process
  {
  }

  /** An edit changes the text of one object and nothing else. */
  lemma EditExactly(hash: Bytes -> string, w: World, s: Step)
    requires Enabled(w, s) && s.Mutate?
    ensures var w' := Apply(hash, w, s);
            && w' == w.(configs := w'.configs) && w'.configs.Keys == w.configs.Keys
            && w'.configs[s.c] == w.configs[s.c].(text := s.text)
            && forall c :: c in w.configs && c != s.c ==> w'.configs[c] == w.configs[c]
  {
  }

  // ----- an undisturbed save -----


  ghost predicate MayStart(w: World, t: nat, c: nat) {
    t !in w.savers && c in w.configs && w.configs[c].process !in w.threadLock && w.fileLock.None?
  }

  lemma FirstHalf(hash: Bytes -> string, w: World, t: nat, c: nat) returns (w': World)
    requires MayStart(w, t, c)
    ensures Reaches(hash, w, [Enter(t, c), Serialize(t), LockFile(t)], w')
    ensures w'.target == w.target && w'.configs == w.configs && w'.results == w.results
    ensures Saving(w', t) && w'.savers[t].cfg == c && w'.savers[t].save == w.saves
    ensures w'.savers[t].began == w.configs[c].rev
    ensures w'.savers[t].pc == FileLocked(w.configs[c].text, w.configs[c].version)
  {
    var w1 := Apply(hash, w, Enter(t, c));
    var w2 := Apply(hash, w1, Serialize(t));
    w' := Apply(hash, w2, LockFile(t));
    OneStep(hash, w2, LockFile(t));
    PrependStep(hash, w1, Serialize(t), [LockFile(t)], w');
    PrependStep(hash, w, Enter(t, c), [Serialize(t), LockFile(t)], w');
  }

  lemma OneStep(hash: Bytes -> string, w: World, s: Step)
    requires Enabled(w, s)
    ensures Reaches(hash, w, [s], Apply(hash, w, s))
  {
    assert [s][1..] == [];
    assert Reaches(hash, Apply(hash, w, s), [], Apply(hash, w, s));
  }

  lemma PrependStep(hash: Bytes -> string, w: World, s: Step, rest: seq<Step>, w': World)
    requires Enabled(w, s) && Reaches(hash, Apply(hash, w, s), rest, w')
    ensures Reaches(hash, w, [s] + rest, w')
  {
    assert ([s] + rest)[1..] == rest;
  }

  /** A save by an object whose revision is that of the file, with nobody in its way, returns, leaves exactly
      the object's text in the file and the matching revision on the object. */
  lemma UndisturbedSaveSucceeds(hash: Bytes -> string, w: World, t: nat, c: nat) returns (w': World, steps: seq<Step>)
    requires MayStart(w, t, c) && w.configs[c].rev == RevisionOf(hash, w.target)
    ensures Reaches(hash, w, steps, w') && w'.target == Some(w.configs[c].text)
    ensures c in w'.configs && w'.configs[c].text == w.configs[c].text
    ensures w'.configs[c].rev == hash(w.configs[c].text) && w'.configs[c].known == w'.target
    ensures w'.results == w.results + [Result(w.saves, Returned, w.configs[c].rev, hash(w.configs[c].text))]
  {
    var data := w.configs[c].text;
    var w3 := FirstHalf(hash, w, t, c);
    var w4 := Apply(hash, w3, Compare(t));
    var w5 := Apply(hash, w4, Write(t, |data|));
    assert data[..|data|] == data;
    var w6 := Apply(hash, w5, Replace(t));
    w' := Apply(hash, w6, Complete(t));
    OneStep(hash, w6, Complete(t));
    PrependStep(hash, w5, Replace(t), [Complete(t)], w');
    PrependStep(hash, w4, Write(t, |data|), [Replace(t)] + [Complete(t)], w');
    PrependStep(hash, w3, Compare(t), [Write(t, |data|)] + ([Replace(t)] + [Complete(t)]), w');
    var first := [Enter(t, c), Serialize(t), LockFile(t)];
    var rest := [Compare(t)] + ([Write(t, |data|)] + ([Replace(t)] + [Complete(t)]));
    Concat(hash, w, first, w3, rest, w');
    steps := first + rest;
  }

  lemma {:induction false} Concat(hash: Bytes -> string, w: World, a: seq<Step>, mid: World, b: seq<Step>, w': World)
    requires Reaches(hash, w, a, mid) && Reaches(hash, mid, b, w')
    ensures Reaches(hash, w, a + b, w')
    decreases |a|
  {
    if a == [] {
      assert a + b == b;
    } else {
      assert (a + b)[1..] == a[1..] + b;
      Concat(hash, Apply(hash, w, a[0]), a[1..], mid, b, w');
    }
  }

  /** A save by an object whose revision is not that of the file fails at the comparison and changes neither. */
  lemma OutdatedSaveFails(hash: Bytes -> string, w: World, t: nat, c: nat) returns (w': World, steps: seq<Step>)
    requires MayStart(w, t, c) && w.configs[c].rev != RevisionOf(hash, w.target)
    ensures Reaches(hash, w, steps, w') && w'.target == w.target && w'.configs == w.configs
    ensures w'.results == w.results + [Result(w.saves, Failed, w.configs[c].rev, w.configs[c].rev)]
  {
    var w3 := FirstHalf(hash, w, t, c);
    w' := Apply(hash, w3, Compare(t));
    OneStep(hash, w3, Compare(t));
    var first := [Enter(t, c), Serialize(t), LockFile(t)];
    Concat(hash, w, first, w3, [Compare(t)], w');
    steps := first + [Compare(t)];
  }
}
