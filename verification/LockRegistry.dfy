/** The process-wide registry of per-path locks with user counts, under every interleaving of threads
    that enter, wait, leave or give up. */
module LockRegistry {

  datatype Slot = Slot(lock: nat, users: nat)

  type Registry = map<string, Slot>

  /** Both updates run while the guard lock is held. `next` is the identity a new lock object gets. */
  function Registered(reg: Registry, path: string, next: nat): Registry {
    if path in reg then reg[path := reg[path].(users := reg[path].users + 1)]
    else reg[path := Slot(next, 1)]
  }

  function Unregistered(reg: Registry, path: string): Registry
    requires path in reg && reg[path].users >= 1
  {
    if reg[path].users == 1 then reg - {path}
    else reg[path := reg[path].(users := reg[path].users - 1)]
  }

  class LockTable {
    var slots: Registry

    constructor ()
      ensures slots == map[]
    {
      slots := map[];
    }

    method Register(path: string, next: nat) returns (lock: nat)
      modifies this
      ensures slots == Registered(old(slots), path, next) && path in slots && lock == slots[path].lock
    {
      var users := 0;
      lock := next;
      if path in slots { lock, users := slots[path].lock, slots[path].users; }
      slots := slots[path := Slot(lock, users + 1)];
    }

    method Unregister(path: string)
      requires path in slots && slots[path].users >= 1
      modifies this
      ensures slots == Unregistered(old(slots), path)
    {
      var slot := slots[path];
      if slot.users == 1 { slots := slots - {path}; }
      else { slots := slots[path := Slot(slot.lock, slot.users - 1)]; }
    }
  }

  // ----- interleavings -----

  datatype Place = Waiting | Inside | Leaving

  datatype Visit = Visit(path: string, lock: nat, place: Place)

  /** `holder` maps each lock object that is held to its thread; lock objects are numbered by `made`. */
  datatype World = World(reg: Registry, visits: map<nat, Visit>, holder: map<nat, nat>, made: nat)

  datatype Step =
    | Enter(t: nat, path: string)
    | Acquire(t: nat)
    | Abandon(t: nat)   // interrupted while waiting
    | Release(t: nat)
    | Leave(t: nat)

  ghost predicate Enabled(w: World, s: Step) {
    match s
    case Enter(t, _) => t !in w.visits
    case Acquire(t) => t in w.visits && w.visits[t].place.Waiting? && w.visits[t].lock !in w.holder
    case Abandon(t) => t in w.visits && w.visits[t].place.Waiting?
    case Release(t) => t in w.visits && w.visits[t].place.Inside?
    case Leave(t) => t in w.visits && w.visits[t].place.Leaving?
  }

  ghost predicate Safe(w: World, s: Step) {
    s.Leave? && s.t in w.visits ==> w.visits[s.t].path in w.reg && w.reg[w.visits[s.t].path].users >= 1
  }

  ghost function Apply(w: World, s: Step): World
    requires Enabled(w, s) && Safe(w, s)
  {
    match s
    case Enter(t, path) =>
      var reg := Registered(w.reg, path, w.made);
      World(reg, w.visits[t := Visit(path, reg[path].lock, Waiting)], w.holder,
            if path in w.reg then w.made else w.made + 1)
    case Acquire(t) =>
      w.(visits := w.visits[t := w.visits[t].(place := Inside)], holder := w.holder[w.visits[t].lock := t])
    case Abandon(t) => w.(visits := w.visits[t := w.visits[t].(place := Leaving)])
    case Release(t) =>
      w.(visits := w.visits[t := w.visits[t].(place := Leaving)], holder := w.holder - {w.visits[t].lock})
    case Leave(t) => w.(reg := Unregistered(w.reg, w.visits[t].path), visits := w.visits - {t})
  }

  function Users(w: World, path: string): set<nat> {
    set t | t in w.visits && w.visits[t].path == path
  }

  ghost predicate PathOk(w: World, path: string) {
    && (path in w.reg <==> Users(w, path) != {})
    && (path in w.reg ==> w.reg[path].users == |Users(w, path)| && w.reg[path].lock < w.made)
  }

  ghost predicate VisitOk(w: World, t: nat)
    requires t in w.visits
  {
    && w.visits[t].path in w.reg && w.reg[w.visits[t].path].lock == w.visits[t].lock
    && (w.visits[t].place.Inside? <==> w.visits[t].lock in w.holder && w.holder[w.visits[t].lock] == t)
  }

  ghost predicate Inv(w: World) {
    && (forall path :: PathOk(w, path))
    && (forall t :: t in w.visits ==> VisitOk(w, t))
    && (forall a, b :: a in w.reg && b in w.reg && w.reg[a].lock == w.reg[b].lock ==> a == b)
    && (forall l :: l in w.holder ==> l < w.made && w.holder[l] in w.visits && w.visits[w.holder[l]].lock == l)
  }

  lemma LeaveIsSafe(w: World, s: Step)
    requires Inv(w) && Enabled(w, s)
    ensures Safe(w, s)
  {
    if s.Leave? {
      assert VisitOk(w, s.t);
      var path := w.visits[s.t].path;
      assert PathOk(w, path) && s.t in Users(w, path);
    }
  }

  lemma UsersAfterEnter(w: World, s: Step, path: string)
    requires Enabled(w, s) && s.Enter?
    ensures s.t !in Users(w, path)
    ensures Users(Apply(w, s), path) == if path == s.path then Users(w, path) + {s.t} else Users(w, path)
  {
  }

  lemma EnterPaths(w: World, s: Step, path: string)
    requires Inv(w) && Enabled(w, s) && s.Enter?
    ensures PathOk(Apply(w, s), path)
  {
    assert PathOk(w, path);
    UsersAfterEnter(w, s, path);
    var users := Users(w, path);
    assert s.t !in users ==> |users + {s.t}| == |users| + 1;
  }

  lemma EnterVisits(w: World, s: Step, t: nat)
    requires Inv(w) && Enabled(w, s) && s.Enter? && t in Apply(w, s).visits
    ensures VisitOk(Apply(w, s), t)
  {
    assert PathOk(w, s.path);
    if t != s.t { assert VisitOk(w, t); }
  }

  lemma EnterStep(w: World, s: Step)
    requires Inv(w) && Enabled(w, s) && s.Enter?
    ensures Inv(Apply(w, s))
  {
    var w' := Apply(w, s);
    forall path ensures PathOk(w', path) { EnterPaths(w, s, path); }
    forall t | t in w'.visits ensures VisitOk(w', t) { EnterVisits(w, s, t); }
    assert PathOk(w, s.path);
    forall a, b | a in w'.reg && b in w'.reg && w'.reg[a].lock == w'.reg[b].lock ensures a == b {
      assert PathOk(w, a) && PathOk(w, b);
    }
  }

  lemma LeaveStep(w: World, s: Step)
    requires Inv(w) && Enabled(w, s) && Safe(w, s) && s.Leave?
    ensures Inv(Apply(w, s))
  {
    var w' := Apply(w, s);
    var here := w.visits[s.t].path;
    assert VisitOk(w, s.t);
    assert s.t in Users(w, here) && |Users(w, here) - {s.t}| == |Users(w, here)| - 1;
    forall path ensures PathOk(w', path) {
      assert PathOk(w, path);
      assert Users(w', path) == if path == here then Users(w, path) - {s.t} else Users(w, path);
    }
    forall t | t in w'.visits ensures VisitOk(w', t) {
      assert VisitOk(w, t);
      if w.visits[t].path == here {
        assert t in Users(w, here) && s.t in Users(w, here) && PathOk(w, here);
        assert t in Users(w, here) - {s.t};
      }
    }
  }

  lemma MoveStep(w: World, s: Step)
    requires Inv(w) && Enabled(w, s) && (s.Acquire? || s.Abandon? || s.Release?)
    ensures Inv(Apply(w, s))
  {
    var w' := Apply(w, s);
    assert VisitOk(w, s.t) && PathOk(w, w.visits[s.t].path);
    forall path ensures PathOk(w', path) { MovePaths(w, s, path); }
    forall t | t in w'.visits ensures VisitOk(w', t) { MoveVisits(w, s, t); }
  }

  lemma MovePaths(w: World, s: Step, path: string)
    requires Inv(w) && Enabled(w, s) && (s.Acquire? || s.Abandon? || s.Release?)
    ensures PathOk(Apply(w, s), path)
  {
    assert PathOk(w, path);
    assert Users(Apply(w, s), path) == Users(w, path);
  }

  lemma MoveVisits(w: World, s: Step, t: nat)
    requires Inv(w) && Enabled(w, s) && (s.Acquire? || s.Abandon? || s.Release?) && t in w.visits
    ensures VisitOk(Apply(w, s), t)
  {
    assert VisitOk(w, t) && VisitOk(w, s.t);
  }

  lemma StepKeepsInv(w: World, s: Step)
    requires Inv(w) && Enabled(w, s)
    ensures Safe(w, s) && Inv(Apply(w, s))
  {
    LeaveIsSafe(w, s);
    if s.Enter? { EnterStep(w, s); } else if s.Leave? { LeaveStep(w, s); } else { MoveStep(w, s); }
  }

  ghost predicate Reaches(w: World, steps: seq<Step>, w': World)
    decreases |steps|
  {
    if steps == [] then w == w'
    else Enabled(w, steps[0]) && (Safe(w, steps[0]) ==> Reaches(Apply(w, steps[0]), steps[1..], w'))
  }

  lemma {:induction false} RunKeepsInv(w: World, steps: seq<Step>, w': World)
    requires Inv(w) && Reaches(w, steps, w')
    ensures Inv(w')
    decreases |steps|
  {
    if steps != [] {
      StepKeepsInv(w, steps[0]);
      RunKeepsInv(Apply(w, steps[0]), steps[1..], w');
    }
  }

  predicate InSection(w: World, t: nat) { t in w.visits && w.visits[t].place.Inside? }

  /** For any threads and paths: the count of a path is the number of threads between entering and
      leaving it, its entry exists exactly while there is one, all of them share one lock object, no
      two paths share one, and at most one thread is inside the save section of a path. */
  lemma MutualExclusion(steps: seq<Step>, w: World)
    requires Reaches(World(map[], map[], map[], 0), steps, w)
    ensures forall path :: path in w.reg <==> Users(w, path) != {}
    ensures forall path :: path in w.reg ==> w.reg[path].users == |Users(w, path)|
    ensures forall t :: t in w.visits ==>
      w.visits[t].path in w.reg && w.visits[t].lock == w.reg[w.visits[t].path].lock
    ensures forall a, b :: a in w.reg && b in w.reg && a != b ==> w.reg[a].lock != w.reg[b].lock
    ensures forall t, u :: InSection(w, t) && InSection(w, u) && w.visits[t].path == w.visits[u].path ==> t == u
  {
    var w0 := World(map[], map[], map[], 0);
    assert Inv(w0) by {
      forall path ensures PathOk(w0, path) { assert Users(w0, path) == {}; }
    }
    RunKeepsInv(w0, steps, w);
    forall path
      ensures path in w.reg <==> Users(w, path) != {}
      ensures path in w.reg ==> w.reg[path].users == |Users(w, path)|
    {
      assert PathOk(w, path);
    }
    forall t, u | InSection(w, t) && InSection(w, u) && w.visits[t].path == w.visits[u].path ensures t == u
    {
      assert VisitOk(w, t) && VisitOk(w, u);
    }
    forall t | t in w.visits ensures VisitOk(w, t) { }
  }

  /** A thread can always leave: the registry entry it needs is still there. */
  lemma LeavingNeverFails(steps: seq<Step>, w: World, s: Step)
    requires Reaches(World(map[], map[], map[], 0), steps, w) && Enabled(w, s)
    ensures Safe(w, s)
  {
    var w0 := World(map[], map[], map[], 0);
    assert Inv(w0) by {
      forall path ensures PathOk(w0, path) { assert Users(w0, path) == {}; }
    }
    RunKeepsInv(w0, steps, w);
    LeaveIsSafe(w, s);
  }

  /** A thread that finds the path's lock free comes in and leaves again, and nothing of it remains. */
  lemma UndisturbedVisit(w: World, t: nat, path: string)
    requires Inv(w) && t !in w.visits && path !in w.reg
    ensures var w1 := Apply(w, Enter(t, path));
            && Enabled(w1, Acquire(t))
            && var w2 := Apply(w1, Acquire(t));
            && InSection(w2, t) && Enabled(w2, Release(t))
            && var w3 := Apply(w2, Release(t));
            && Enabled(w3, Leave(t)) && Safe(w3, Leave(t))
            && Apply(w3, Leave(t)).reg == w.reg && Apply(w3, Leave(t)).visits == w.visits
  {
    var w1 := Apply(w, Enter(t, path));
    assert w.made !in w.holder;
    var w3 := Apply(Apply(w1, Acquire(t)), Release(t));
    assert w3.reg == w1.reg;
    assert w.reg[path := Slot(w.made, 1)] - {path} == w.reg;
  }
}
