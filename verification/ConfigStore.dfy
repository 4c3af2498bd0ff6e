/** Interleaved loads, saves and crashes over one configuration file: thread lock, file lock, revision
    check, temporary file and atomic replacement, one source step at a time. */
module ConfigStore {
  import opened Options

  type Bytes = seq<char>

  const MISSING := "missing"

  /** What is assumed of the content hash. */
  ghost predicate CollisionFree(hash: Bytes -> string) {
    && (forall a, b :: hash(a) == hash(b) ==> a == b)
    && (forall a :: hash(a) != MISSING)
  }

  function RevisionOf(hash: Bytes -> string, file: Option<Bytes>): string {
    if file.Some? then hash(file.value) else MISSING
  }

  /** A configuration object in some process. `text` is what serializing it now would give, `rev` the
      revision attribute. `known` (what it last loaded or committed) and `version` (how often that
      happened) are history only: no step reads them. */
  datatype Config = Config(process: nat, text: Bytes, rev: string, known: Option<Bytes>, version: nat)

  /** Where a thread is inside `save_config`. `taken` is the object's version when it was serialized. */
  datatype Pc =
    | Entered                                   // thread lock held
    | Serialized(data: Bytes, taken: nat)       // snapshot taken
    | FileLocked(data: Bytes, taken: nat)       // file lock held
    | Writing(data: Bytes, taken: nat, tmp: Bytes) // revision matched, temporary file partly written
    | Replaced(taken: nat)                      // committed, not yet synchronized or cleaned up

  /** One call of `save_config`: its number, the object saved, and that object's revision on entry. The
      number and the revision are history only. */
  datatype Saver = Saver(save: nat, cfg: nat, began: string, pc: Pc)

  datatype Commit = Commit(save: nat, cfg: nat, known: Option<Bytes>, before: Option<Bytes>, after: Bytes,
                           taken: nat, version: nat)

  datatype Outcome = Returned | Failed | CommitError

  /** How a call ended, with the object's revision on entry and on leaving. */
  datatype Result = Result(save: nat, outcome: Outcome, began: string, left: string)

  datatype World = World(
    target: Option<Bytes>, configs: map<nat, Config>, savers: map<nat, Saver>,
    threadLock: map<nat, nat>, fileLock: Option<nat>,
    commits: seq<Commit>, results: seq<Result>, saves: nat)

  datatype Step =
    | Create(c: nat, process: nat, text: Bytes)       // an object that never loaded a file
    | Load(c: nat, process: nat, fallback: Bytes)
    | Mutate(c: nat, text: Bytes)
    | Enter(t: nat, c: nat)
    | Serialize(t: nat)
    | LockFile(t: nat)
    | Compare(t: nat)
    | Write(t: nat, n: nat)
    | Replace(t: nat)
    | Raise(t: nat)
    | Complete(t: nat)
    | Crash(process: nat)

  predicate Saving(w: World, t: nat) { t in w.savers && w.savers[t].cfg in w.configs }

  function Owner(w: World, t: nat): Config
    requires Saving(w, t)
  {
    w.configs[w.savers[t].cfg]
  }

  ghost predicate Enabled(w: World, s: Step) {
    match s
    case Create(c, _, _) => c !in w.configs
    case Load(c, _, _) => c !in w.configs
    case Mutate(c, _) => c in w.configs
    case Enter(t, c) => t !in w.savers && c in w.configs && w.configs[c].process !in w.threadLock
    case Serialize(t) => Saving(w, t) && w.savers[t].pc.Entered?
    case LockFile(t) => Saving(w, t) && w.savers[t].pc.Serialized? && w.fileLock.None?
    case Compare(t) => Saving(w, t) && w.savers[t].pc.FileLocked?
    case Write(t, n) => Saving(w, t) && w.savers[t].pc.Writing? && n <= |w.savers[t].pc.data|
    case Replace(t) => Saving(w, t) && w.savers[t].pc.Writing? && w.savers[t].pc.tmp == w.savers[t].pc.data
    case Raise(t) => Saving(w, t)
    case Complete(t) => Saving(w, t) && w.savers[t].pc.Replaced?
    case Crash(_) => true
  }

  function At(w: World, t: nat, pc: Pc): World
    requires t in w.savers
  {
    w.(savers := w.savers[t := w.savers[t].(pc := pc)])
  }

  /** Leaving `save_config`: both locks are released on every path. */
  function Leave(w: World, t: nat, outcome: Outcome): World
    requires Saving(w, t)
  {
    w.(savers := w.savers - {t},
       threadLock := w.threadLock - {Owner(w, t).process},
       fileLock := if w.fileLock == Some(t) then None else w.fileLock,
       results := w.results + [Result(w.savers[t].save, outcome, w.savers[t].began, Owner(w, t).rev)])
  }

  function Committed(hash: Bytes -> string, w: World, t: nat): World
    requires Saving(w, t) && w.savers[t].pc.Writing?
  {
    var cfg, pc := Owner(w, t), w.savers[t].pc;
    At(w.(target := Some(pc.tmp),
          configs := w.configs[w.savers[t].cfg :=
            cfg.(rev := hash(pc.data), known := Some(pc.tmp), version := cfg.version + 1)],
          commits := w.commits + [Commit(w.savers[t].save, w.savers[t].cfg, cfg.known, w.target, pc.tmp,
                                         pc.taken, cfg.version)]),
       t, Replaced(pc.taken))
  }

  ghost function Apply(hash: Bytes -> string, w: World, s: Step): World
    requires Enabled(w, s)
  {
    match s
    case Create(c, process, text) => w.(configs := w.configs[c := Config(process, text, MISSING, None, 0)])
    case Load(c, process, fallback) =>
      w.(configs := w.configs[c :=
           Config(process, if w.target.Some? then w.target.value else fallback,
                  RevisionOf(hash, w.target), w.target, 0)])
    case Mutate(c, text) => w.(configs := w.configs[c := w.configs[c].(text := text)])
    case Enter(t, c) =>
      w.(savers := w.savers[t := Saver(w.saves, c, w.configs[c].rev, Entered)], saves := w.saves + 1,
         threadLock := w.threadLock[w.configs[c].process := t])
    case Serialize(t) => At(w, t, Serialized(Owner(w, t).text, Owner(w, t).version))
    case LockFile(t) =>
      At(w.(fileLock := Some(t)), t, FileLocked(w.savers[t].pc.data, w.savers[t].pc.taken))
    case Compare(t) =>
      if RevisionOf(hash, w.target) == Owner(w, t).rev
      then At(w, t, Writing(w.savers[t].pc.data, w.savers[t].pc.taken, []))
      else Leave(w, t, Failed)
    case Write(t, n) => At(w, t, w.savers[t].pc.(tmp := w.savers[t].pc.data[..n]))
    case Replace(t) => Committed(hash, w, t)
    case Raise(t) => Leave(w, t, if w.savers[t].pc.Replaced? then CommitError else Failed)
    case Complete(t) => Leave(w, t, Returned)
    case Crash(process) =>
      var dead := set t | t in w.savers && (w.savers[t].cfg !in w.configs
                                            || w.configs[w.savers[t].cfg].process == process);
      w.(configs := map c | c in w.configs && w.configs[c].process != process :: w.configs[c],
         savers := w.savers - dead,
         threadLock := w.threadLock - {process},
         fileLock := if w.fileLock.Some? && w.fileLock.value in dead then None else w.fileLock)
  }

  // ----- invariant -----

  predicate HasSnapshot(pc: Pc) { pc.Serialized? || pc.FileLocked? || pc.Writing? }

  predicate HoldsFile(pc: Pc) { pc.FileLocked? || pc.Writing? || pc.Replaced? }

  ghost predicate SaverOk(hash: Bytes -> string, w: World, t: nat)
    requires t in w.savers
  {
    && Saving(w, t)
    && Owner(w, t).process in w.threadLock && w.threadLock[Owner(w, t).process] == t
    && (HoldsFile(w.savers[t].pc) ==> w.fileLock == Some(t))
    && (HasSnapshot(w.savers[t].pc) ==> w.savers[t].pc.taken == Owner(w, t).version)
    && (w.savers[t].pc.Writing? ==> RevisionOf(hash, w.target) == Owner(w, t).rev)
  }

  /** One commit neither loses an update nor replays an old snapshot. */
  ghost predicate CommitOk(c: Commit) { c.before == c.known && c.taken == c.version }

  /** What the file held after the first `i` commits. */
  function Content(first: Option<Bytes>, commits: seq<Commit>, i: nat): Option<Bytes>
    requires i <= |commits|
  {
    if i == 0 then first else Some(commits[i - 1].after)
  }

  ghost predicate Chain(first: Option<Bytes>, commits: seq<Commit>, last: Option<Bytes>) {
    && (forall i :: 0 <= i < |commits| ==> commits[i].before == Content(first, commits, i))
    && last == Content(first, commits, |commits|)
  }

  ghost predicate Inv(hash: Bytes -> string, first: Option<Bytes>, w: World) {
    && (forall c :: c in w.configs ==> w.configs[c].rev == RevisionOf(hash, w.configs[c].known))
    && (forall t :: t in w.savers ==> SaverOk(hash, w, t))
    && (forall c :: c in w.commits ==> CommitOk(c))
    && Chain(first, w.commits, w.target)
  }

  ghost predicate Initial(first: Option<Bytes>, w: World) {
    w == World(first, map[], map[], map[], None, [], [], 0)
  }

  lemma SameFile(hash: Bytes -> string, a: Option<Bytes>, b: Option<Bytes>)
    requires CollisionFree(hash) && RevisionOf(hash, a) == RevisionOf(hash, b)
    ensures a == b
  {
  }

  /** The two locks keep every other saver of the same object, and every other writer, away. */
  lemma LocksExclude(hash: Bytes -> string, first: Option<Bytes>, w: World, t: nat, u: nat)
    requires Inv(hash, first, w) && t in w.savers && u in w.savers && t != u
    ensures w.savers[t].cfg != w.savers[u].cfg
    ensures !(HoldsFile(w.savers[t].pc) && HoldsFile(w.savers[u].pc))
  {
    assert SaverOk(hash, w, t) && SaverOk(hash, w, u);
  }

  lemma ChainAppend(first: Option<Bytes>, commits: seq<Commit>, last: Option<Bytes>, c: Commit)
    requires Chain(first, commits, last) && c.before == last
    ensures Chain(first, commits + [c], Some(c.after))
  {
    var all := commits + [c];
    forall i | 0 <= i < |all| ensures all[i].before == Content(first, all, i) {
      assert Content(first, all, i) == Content(first, commits, i);
      if i < |commits| { assert all[i] == commits[i]; }
    }
  }

  lemma ReplaceStep(hash: Bytes -> string, first: Option<Bytes>, w: World, s: Step)
    requires CollisionFree(hash) && Inv(hash, first, w) && Enabled(w, s) && s.Replace?
    ensures Inv(hash, first, Apply(hash, w, s))
  {
    var w' := Apply(hash, w, s);
    assert SaverOk(hash, w, s.t);
    SameFile(hash, w.target, Owner(w, s.t).known);
    forall t | t in w'.savers ensures SaverOk(hash, w', t) {
      assert SaverOk(hash, w, t);
      if t != s.t { LocksExclude(hash, first, w, s.t, t); }
    }
    var c := w'.commits[|w.commits|];
    assert w'.commits == w.commits + [c] && CommitOk(c);
    ChainAppend(first, w.commits, w.target, c);
  }

  lemma LeaveStep(hash: Bytes -> string, first: Option<Bytes>, w: World, t: nat, outcome: Outcome)
    requires Inv(hash, first, w) && Saving(w, t)
    ensures Inv(hash, first, Leave(w, t, outcome))
  {
    var w' := Leave(w, t, outcome);
    assert SaverOk(hash, w, t);
    forall u | u in w'.savers ensures SaverOk(hash, w', u) {
      assert SaverOk(hash, w, u);
    }
  }

  lemma CrashStep(hash: Bytes -> string, first: Option<Bytes>, w: World, s: Step)
    requires Inv(hash, first, w) && Enabled(w, s) && s.Crash?
    ensures Inv(hash, first, Apply(hash, w, s))
  {
    var w' := Apply(hash, w, s);
    forall u | u in w'.savers ensures SaverOk(hash, w', u) {
      assert SaverOk(hash, w, u);
    }
  }

  lemma ObjectStep(hash: Bytes -> string, first: Option<Bytes>, w: World, s: Step)
    requires Inv(hash, first, w) && Enabled(w, s) && (s.Create? || s.Load? || s.Mutate?)
    ensures Inv(hash, first, Apply(hash, w, s))
  {
    var w' := Apply(hash, w, s);
    forall u | u in w'.savers ensures SaverOk(hash, w', u) {
      assert SaverOk(hash, w, u);
    }
  }

  lemma SaverStep(hash: Bytes -> string, first: Option<Bytes>, w: World, s: Step)
    requires Inv(hash, first, w) && Enabled(w, s)
    requires s.Enter? || s.Serialize? || s.LockFile? || s.Write?
             || (s.Compare? && RevisionOf(hash, w.target) == Owner(w, s.t).rev)
    ensures Inv(hash, first, Apply(hash, w, s))
  {
    var w' := Apply(hash, w, s);
    assert s.t in w.savers ==> SaverOk(hash, w, s.t);
    forall u | u in w'.savers ensures SaverOk(hash, w', u) {
      if u != s.t { assert SaverOk(hash, w, u); }
    }
  }

  lemma StepKeepsInv(hash: Bytes -> string, first: Option<Bytes>, w: World, s: Step)
    requires CollisionFree(hash) && Inv(hash, first, w) && Enabled(w, s)
    ensures Inv(hash, first, Apply(hash, w, s))
  {
    match s
    case Create(_, _, _) => ObjectStep(hash, first, w, s);
    case Load(_, _, _) => ObjectStep(hash, first, w, s);
    case Mutate(_, _) => ObjectStep(hash, first, w, s);
    case Compare(t) =>
      if RevisionOf(hash, w.target) == Owner(w, t).rev { SaverStep(hash, first, w, s); }
      else { LeaveStep(hash, first, w, t, Failed); }
    case Replace(_) => ReplaceStep(hash, first, w, s);
    case Raise(t) => LeaveStep(hash, first, w, t, if w.savers[t].pc.Replaced? then CommitError else Failed);
    case Complete(t) => LeaveStep(hash, first, w, t, Returned);
    case Crash(_) => CrashStep(hash, first, w, s);
    case _ => SaverStep(hash, first, w, s);
  }

  ghost predicate Reaches(hash: Bytes -> string, w: World, steps: seq<Step>, w': World)
    decreases |steps|
  {
    if steps == [] then w == w'
    else Enabled(w, steps[0]) && Reaches(hash, Apply(hash, w, steps[0]), steps[1..], w')
  }

  lemma {:induction false} RunKeepsInv(hash: Bytes -> string, first: Option<Bytes>, w: World, steps: seq<Step>,
                                       w': World)
    requires CollisionFree(hash) && Inv(hash, first, w) && Reaches(hash, w, steps, w')
    ensures Inv(hash, first, w')
    decreases |steps|
  {
    if steps != [] {
      StepKeepsInv(hash, first, w, steps[0]);
      RunKeepsInv(hash, first, Apply(hash, w, steps[0]), steps[1..], w');
    }
  }

  /** In every interleaving the commits form one chain from the first file to the present one; each
      replaces exactly what its object last loaded or committed, with a snapshot taken since then;
      an object that never loaded a file can only create one. */
  lemma NoLostUpdate(hash: Bytes -> string, first: Option<Bytes>, w: World, steps: seq<Step>, w': World)
    requires CollisionFree(hash) && Initial(first, w) && Reaches(hash, w, steps, w')
    ensures Chain(first, w'.commits, w'.target)
    ensures forall c :: c in w'.commits ==>
      c.before == c.known && c.taken == c.version && (c.known.None? ==> c.before.None?)
  {
    RunKeepsInv(hash, first, w, steps, w');
    forall c | c in w'.commits ensures CommitOk(c) { }
  }

  // ----- what each call reports -----

  /** The call numbered `save` replaced the file. */
  ghost predicate Wrote(commits: seq<Commit>, save: nat) {
    exists i :: 0 <= i < |commits| && commits[i].save == save
  }

  /** It did, and `rev` is the revision of what it wrote. */
  ghost predicate WroteRevision(hash: Bytes -> string, commits: seq<Commit>, save: nat, rev: string) {
    exists i :: 0 <= i < |commits| && commits[i].save == save && hash(commits[i].after) == rev
  }

  ghost predicate CallOk(hash: Bytes -> string, w: World, t: nat)
    requires t in w.savers
  {
    && Saving(w, t) && w.savers[t].save < w.saves
    && (w.savers[t].pc.Replaced? ==> WroteRevision(hash, w.commits, w.savers[t].save, Owner(w, t).rev))
    && (!w.savers[t].pc.Replaced? ==>
          !Wrote(w.commits, w.savers[t].save) && Owner(w, t).rev == w.savers[t].began)
  }

  ghost predicate ReportOk(hash: Bytes -> string, commits: seq<Commit>, r: Result) {
    && (r.outcome.Failed? ==> !Wrote(commits, r.save) && r.left == r.began)
    && (!r.outcome.Failed? ==> WroteRevision(hash, commits, r.save, r.left))
  }

  ghost predicate Numbered(w: World) {
    && (forall i :: 0 <= i < |w.commits| ==> w.commits[i].save < w.saves)
    && (forall i, j :: 0 <= i < j < |w.commits| ==> w.commits[i].save != w.commits[j].save)
    && (forall t, u :: t in w.savers && u in w.savers && t != u ==> w.savers[t].save != w.savers[u].save)
    && (forall r, t :: r in w.results && t in w.savers ==> r.save != w.savers[t].save)
    && (forall r :: r in w.results ==> r.save < w.saves)
  }

  ghost predicate Reported(hash: Bytes -> string, w: World) {
    && Numbered(w)
    && (forall t :: t in w.savers ==> CallOk(hash, w, t))
    && (forall r :: r in w.results ==> ReportOk(hash, w.commits, r))
  }

  lemma WroteAppend(hash: Bytes -> string, commits: seq<Commit>, c: Commit, save: nat, rev: string)
    ensures Wrote(commits + [c], save) <==> Wrote(commits, save) || c.save == save
    ensures WroteRevision(hash, commits + [c], save, rev) <==>
      WroteRevision(hash, commits, save, rev) || (c.save == save && hash(c.after) == rev)
  {
    var all := commits + [c];
    assert all[|commits|] == c;
    assert forall i :: 0 <= i < |commits| ==> all[i] == commits[i];
  }

  lemma ReplaceReports(hash: Bytes -> string, first: Option<Bytes>, w: World, s: Step)
    requires Inv(hash, first, w) && Reported(hash, w) && Enabled(w, s) && s.Replace?
    ensures Reported(hash, Apply(hash, w, s))
  {
    var w' := Apply(hash, w, s);
    var c := w'.commits[|w.commits|];
    assert CallOk(hash, w, s.t) && w'.commits == w.commits + [c];
    forall i | 0 <= i < |w.commits| ensures w.commits[i].save != c.save {
      assert !Wrote(w.commits, c.save);
    }
    forall t | t in w'.savers ensures CallOk(hash, w', t) {
      assert CallOk(hash, w, t);
      WroteAppend(hash, w.commits, c, w.savers[t].save, Owner(w', t).rev);
      if t != s.t { LocksExclude(hash, first, w, s.t, t); }
    }
    forall r | r in w'.results ensures ReportOk(hash, w'.commits, r) {
      WroteAppend(hash, w.commits, c, r.save, r.left);
    }
  }

  lemma LeaveReports(hash: Bytes -> string, w: World, t: nat, outcome: Outcome)
    requires Reported(hash, w) && Saving(w, t) && (outcome.Failed? <==> !w.savers[t].pc.Replaced?)
    ensures Reported(hash, Leave(w, t, outcome))
  {
    var w' := Leave(w, t, outcome);
    assert CallOk(hash, w, t);
    forall u | u in w'.savers ensures CallOk(hash, w', u) { assert CallOk(hash, w, u); }
  }

  /** Steps that neither start, end nor commit a call. */
  ghost predicate Inner(hash: Bytes -> string, w: World, s: Step)
    requires Enabled(w, s)
  {
    && !s.Enter? && !s.Replace? && !s.Raise? && !s.Complete?
    && (s.Compare? ==> RevisionOf(hash, w.target) == Owner(w, s.t).rev)
  }

  /** They keep logs, numbers and revisions, though a crash may end calls without a report. */
  lemma InnerKeeps(hash: Bytes -> string, w: World, s: Step, t: nat)
    requires Enabled(w, s) && Inner(hash, w, s) && t in Apply(hash, w, s).savers
    requires forall u :: u in w.savers ==> Saving(w, u)
    ensures t in w.savers && Saving(Apply(hash, w, s), t)
    ensures var w' := Apply(hash, w, s);
            && w'.savers[t].save == w.savers[t].save && w'.savers[t].began == w.savers[t].began
            && Owner(w', t).rev == Owner(w, t).rev && !w'.savers[t].pc.Replaced? == !w.savers[t].pc.Replaced?
  {
  }

  lemma InnerReports(hash: Bytes -> string, first: Option<Bytes>, w: World, s: Step)
    requires Inv(hash, first, w) && Reported(hash, w) && Enabled(w, s) && Inner(hash, w, s)
    ensures Reported(hash, Apply(hash, w, s))
  {
    var w' := Apply(hash, w, s);
    assert w'.commits == w.commits && w'.results == w.results && w'.saves == w.saves;
    forall t | t in w'.savers
      ensures t in w.savers && w'.savers[t].save == w.savers[t].save && CallOk(hash, w', t)
    {
      InnerCall(hash, w, s, t);
    }
  }

  lemma InnerCall(hash: Bytes -> string, w: World, s: Step, t: nat)
    requires Reported(hash, w) && Enabled(w, s) && Inner(hash, w, s) && t in Apply(hash, w, s).savers
    ensures t in w.savers && Apply(hash, w, s).savers[t].save == w.savers[t].save
    ensures CallOk(hash, Apply(hash, w, s), t)
  {
    assert forall u :: u in w.savers ==> CallOk(hash, w, u);
    InnerKeeps(hash, w, s, t);
  }

  lemma EnterReports(hash: Bytes -> string, w: World, s: Step)
    requires Reported(hash, w) && Enabled(w, s) && s.Enter?
    ensures Reported(hash, Apply(hash, w, s))
  {
    var w' := Apply(hash, w, s);
    assert !Wrote(w.commits, w.saves);
    forall t | t in w'.savers ensures CallOk(hash, w', t) {
      if t != s.t { assert CallOk(hash, w, t); }
    }
    assert forall t :: t in w.savers ==> CallOk(hash, w, t);
  }

  lemma StepReports(hash: Bytes -> string, first: Option<Bytes>, w: World, s: Step)
    requires Inv(hash, first, w) && Reported(hash, w) && Enabled(w, s)
    ensures Reported(hash, Apply(hash, w, s))
  {
    match s
    case Replace(_) => ReplaceReports(hash, first, w, s);
    case Raise(t) => LeaveReports(hash, w, t, if w.savers[t].pc.Replaced? then CommitError else Failed);
    case Complete(t) => LeaveReports(hash, w, t, Returned);
    case Compare(t) =>
      if RevisionOf(hash, w.target) == Owner(w, t).rev { InnerReports(hash, first, w, s); }
      else { LeaveReports(hash, w, t, Failed); }
    case Enter(_, _) => EnterReports(hash, w, s);
    case _ => InnerReports(hash, first, w, s);
  }

  lemma {:induction false} RunReports(hash: Bytes -> string, first: Option<Bytes>, w: World, steps: seq<Step>,
                                      w': World)
    requires CollisionFree(hash) && Inv(hash, first, w) && Reported(hash, w) && Reaches(hash, w, steps, w')
    ensures Reported(hash, w')
    decreases |steps|
  {
    if steps != [] {
      StepKeepsInv(hash, first, w, steps[0]);
      StepReports(hash, first, w, steps[0]);
      RunReports(hash, first, Apply(hash, w, steps[0]), steps[1..], w');
    }
  }

  /** In every interleaving, what a call of `save_config` reports tells what it did to the file: it
      appears in the log of replacements exactly if it returned or raised the commit error, and then
      once, and its object carries the revision of what it wrote; after any other error it replaced
      nothing and its object's revision is the one it had on entry. */
  lemma OutcomesClassified(hash: Bytes -> string, first: Option<Bytes>, w: World, steps: seq<Step>, w': World,
                           r: Result)
    requires CollisionFree(hash) && Initial(first, w) && Reaches(hash, w, steps, w') && r in w'.results
    ensures Wrote(w'.commits, r.save) <==> r.outcome.Returned? || r.outcome.CommitError?
    ensures forall i, j :: 0 <= i < j < |w'.commits| ==> w'.commits[i].save != w'.commits[j].save
    ensures Wrote(w'.commits, r.save) ==> WroteRevision(hash, w'.commits, r.save, r.left)
    ensures !Wrote(w'.commits, r.save) ==> r.left == r.began
  {
    RunReports(hash, first, w, steps, w');
    assert ReportOk(hash, w'.commits, r);
  }

  /** Every content of the file after the first is one whole serialization: some object serialized to
      exactly that text earlier in the run. */
  ghost predicate Whole(hash: Bytes -> string, w: World, steps: seq<Step>, after: Bytes)
    decreases |steps|
  {
    steps != [] && Enabled(w, steps[0]) &&
    ((steps[0].Serialize? && Owner(w, steps[0].t).text == after)
     || Whole(hash, Apply(hash, w, steps[0]), steps[1..], after))
  }

  ghost predicate DataFrom(w: World, seen: iset<Bytes>) {
    && (forall t :: t in w.savers && HasSnapshot(w.savers[t].pc) ==> w.savers[t].pc.data in seen)
    && (forall c :: c in w.commits ==> c.after in seen)
  }

  ghost function Seen(w: World, s: Step, seen: iset<Bytes>): iset<Bytes>
    requires Enabled(w, s)
  {
    if s.Serialize? then seen + iset{Owner(w, s.t).text} else seen
  }

  lemma DataStep(hash: Bytes -> string, w: World, s: Step, seen: iset<Bytes>)
    requires Enabled(w, s) && DataFrom(w, seen)
    ensures DataFrom(Apply(hash, w, s), Seen(w, s, seen))
  {
  }

  lemma {:induction false} WholeFiles(hash: Bytes -> string, w: World, steps: seq<Step>, w': World,
                                      seen: iset<Bytes>, after: Bytes)
    requires Reaches(hash, w, steps, w') && DataFrom(w, seen)
    requires exists c :: c in w'.commits && c.after == after
    ensures after in seen || Whole(hash, w, steps, after)
    decreases |steps|
  {
    if steps != [] {
      DataStep(hash, w, steps[0], seen);
      WholeFiles(hash, Apply(hash, w, steps[0]), steps[1..], w', Seen(w, steps[0], seen), after);
    }
  }

  /** The file always holds one complete snapshot: its content is the first one or a whole
      serialization, never part of a temporary file. */
  lemma FileIsComplete(hash: Bytes -> string, first: Option<Bytes>, w: World, steps: seq<Step>, w': World)
    requires CollisionFree(hash) && Initial(first, w) && Reaches(hash, w, steps, w')
    ensures w'.target == first || (w'.target.Some? && Whole(hash, w, steps, w'.target.value))
  {
    RunKeepsInv(hash, first, w, steps, w');
    if w'.commits != [] {
      assert w'.commits[|w'.commits| - 1] in w'.commits;
      WholeFiles(hash, w, steps, w', iset{}, w'.target.value);
    }
  }
}
