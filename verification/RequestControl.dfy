/** Deadline and cancellation control of one HTTP request: a write-once verdict and duplicated socket
    handles ("guards") whose ownership moves between threads. Every locked region is one step. */
module RequestControl {
  import opened Options

  datatype Reason = Cancelled | Deadline

  /** The control's fields together with what happened to handles: `made` are the guards ever
      duplicated, `pending` those a thread still owns before attaching them, `closes` counts the close
      calls on each guard, `shuts` the shutdown calls on each guard and its original socket. */
  datatype Control = Control(
    closed: bool, finished: bool, reason: Option<Reason>, sockets: map<nat, nat>,
    made: set<nat>, pending: map<nat, nat>, closes: multiset<nat>, shuts: multiset<(nat, nat)>)

  datatype Step =
    | Duplicate(guard: nat, sock: nat)
    | Discard(guard: nat)    // wrapping the duplicated descriptor failed
    | Attach(guard: nat)
    | Unwatch(guard: nat)
    | Abort(why: Reason)
    | Close

  function Add<T>(m: multiset<T>, x: T): multiset<T> { m[x := m[x] + 1] }

  function Fresh(): Control { Control(false, false, None, map[], {}, map[], multiset{}, multiset{}) }

  ghost predicate Enabled(c: Control, s: Step) {
    match s
    case Duplicate(g, _) => g !in c.made
    case Discard(g) => g in c.pending
    case Attach(g) => g in c.pending
    case _ => true
  }

  function Apply(c: Control, s: Step): Control
    requires s.Attach? ==> s.guard in c.pending
  {
    match s
    case Duplicate(g, sock) => c.(made := c.made + {g}, pending := c.pending[g := sock])
    case Discard(g) => c.(pending := c.pending - {g}, closes := Add(c.closes, g))
    case Attach(g) =>
      if c.finished then c.(pending := c.pending - {g}, closes := Add(c.closes, g))
      else c.(pending := c.pending - {g}, sockets := c.sockets[g := c.pending[g]])
    case Unwatch(g) =>
      if g in c.sockets then c.(sockets := c.sockets - {g}, closes := Add(c.closes, g)) else c
    case Abort(why) =>
      if c.closed || c.reason.Some? then c
      else c.(reason := Some(why), finished := true, sockets := map[],
              closes := c.closes + multiset(c.sockets.Keys), shuts := c.shuts + multiset(c.sockets.Items))
    case Close =>
      c.(closed := true, finished := true, sockets := map[], closes := c.closes + multiset(c.sockets.Keys))
  }

  // ----- the object -----

  ghost function Pairs(sockets: map<nat, nat>, guards: set<nat>): set<(nat, nat)>
    requires guards <= sockets.Keys
  {
    set g | g in guards :: (g, sockets[g])
  }

  /** One turn of a loop over tracked handles. */
  lemma OneMore(sockets: map<nat, nat>, done: set<nat>, g: nat)
    requires done <= sockets.Keys && g in sockets && g !in done
    ensures multiset(done + {g}) == Add(multiset(done), g)
    ensures multiset(Pairs(sockets, done + {g})) == Add(multiset(Pairs(sockets, done)), (g, sockets[g]))
  {
    assert Pairs(sockets, done + {g}) == Pairs(sockets, done) + {(g, sockets[g])};
  }

  lemma AddPlus<T>(a: multiset<T>, b: multiset<T>, x: T)
    ensures Add(a + b, x) == a + Add(b, x)
  {
  }

  lemma AllPairs(sockets: map<nat, nat>)
    ensures Pairs(sockets, sockets.Keys) == sockets.Items
  {
    forall p | p in sockets.Items ensures p in Pairs(sockets, sockets.Keys) {
      assert p == (p.0, sockets[p.0]);
    }
  }

  /** The loop over tracked handles when a control is closed. */
  method CloseEach(sockets: map<nat, nat>, ghost before: multiset<nat>) returns (ghost closes: multiset<nat>)
    ensures closes == before + multiset(sockets.Keys)
  {
    var todo := sockets.Keys;
    ghost var done: set<nat> := {};
    closes := before;
    while todo != {}
      invariant done + todo == sockets.Keys && done !! todo
      invariant closes == before + multiset(done)
      decreases todo
    {
      var g :| g in todo;
      OneMore(sockets, done, g);
      AddPlus(before, multiset(done), g);
      closes := Add(closes, g);
      todo, done := todo - {g}, done + {g};
    }
    assert done == sockets.Keys;
  }

  /** The loop over tracked handles when a control aborts: shut down, then close. */
  method ShutAndCloseEach(sockets: map<nat, nat>, ghost closed: multiset<nat>, ghost shut: multiset<(nat, nat)>)
    returns (ghost closes: multiset<nat>, ghost shuts: multiset<(nat, nat)>)
    ensures closes == closed + multiset(sockets.Keys)
    ensures shuts == shut + multiset(sockets.Items)
  {
    var todo := sockets.Keys;
    ghost var done: set<nat> := {};
    closes, shuts := closed, shut;
    while todo != {}
      invariant done + todo == sockets.Keys && done !! todo
      invariant closes == closed + multiset(done)
      invariant shuts == shut + multiset(Pairs(sockets, done))
      decreases todo
    {
      var g :| g in todo;
      OneMore(sockets, done, g);
      AddPlus(closed, multiset(done), g);
      AddPlus(shut, multiset(Pairs(sockets, done)), (g, sockets[g]));
      shuts := Add(shuts, (g, sockets[g]));
      closes := Add(closes, g);
      todo, done := todo - {g}, done + {g};
    }
    assert done == sockets.Keys;
    AllPairs(sockets);
  }

  class Request {
    var closed: bool
    var finished: bool
    var reason: Option<Reason>
    var sockets: map<nat, nat>
    ghost var made: set<nat>
    ghost var pending: map<nat, nat>
    ghost var closes: multiset<nat>
    ghost var shuts: multiset<(nat, nat)>

    ghost function State(): Control
      reads this
    {
      Control(closed, finished, reason, sockets, made, pending, closes, shuts)
    }

    constructor ()
      ensures State() == Fresh()
    {
      closed, finished, reason, sockets := false, false, None, map[];
      made, pending, closes, shuts := {}, map[], multiset{}, multiset{};
    }

    /** `_abort`: shuts down and closes every tracked handle, then forgets them. */
    method AbortWith(why: Reason)
      modifies this
      ensures State() == Apply(old(State()), Abort(why))
    {
      if closed || reason.Some? { return; }
      ghost var c := State();
      ghost var closed', shut' := ShutAndCloseEach(sockets, closes, shuts);
      assert Apply(c, Abort(why)) == c.(reason := Some(why), finished := true, sockets := map[],
                                        closes := closed', shuts := shut');
      reason, finished, sockets, closes, shuts := Some(why), true, map[], closed', shut';
    }

    /** The locked part of `watch_socket`. */
    method AttachGuard(g: nat, sock: nat) returns (attached: bool)
      requires g in pending && pending[g] == sock
      modifies this
      ensures State() == Apply(old(State()), Attach(g))
      ensures attached <==> !old(finished)
    {
      attached := !finished;
      if finished { closes := Add(closes, g); } else { sockets := sockets[g := sock]; }
      pending := pending - {g};
    }

    method UnwatchGuard(g: nat)
      modifies this
      ensures State() == Apply(old(State()), Unwatch(g))
    {
      if g in sockets {
        sockets := sockets - {g};
        closes := Add(closes, g);
      }
    }

    method CloseControl()
      modifies this
      ensures State() == Apply(old(State()), Close)
    {
      closed, finished := true, true;
      closes := CloseEach(sockets, closes);
      sockets := map[];
    }

    /** `check`: the verdict it raises, if any. `cancelled` is the answer of the cancellation callback
        (an exception counts as yes), `late` whether the deadline has passed. */
    method Check(cancelled: bool, late: bool) returns (verdict: Option<Reason>)
      modifies this
      ensures verdict == reason && closed == old(closed)
      ensures old(reason).Some? ==> State() == old(State())
      ensures old(closed) && old(reason).None? ==> State() == old(State())
      ensures !old(closed) && old(reason).None? ==>
        State() == if cancelled then Apply(old(State()), Abort(Cancelled))
                   else if late then Apply(old(State()), Abort(Deadline)) else old(State())
    {
      if closed && reason.None? { return None; }
      if cancelled { AbortWith(Cancelled); }
      if late { AbortWith(Deadline); }
      return reason;
    }
  }

  // ----- every interleaving -----

  ghost predicate Owned(c: Control, g: nat) {
    c.closes[g] + (if g in c.sockets then 1 else 0) + (if g in c.pending then 1 else 0)
      == if g in c.made then 1 else 0
  }

  ghost predicate Inv(c: Control) {
    && (forall g :: Owned(c, g))
    && (c.finished ==> c.sockets == map[])
    && (c.closed || c.reason.Some? ==> c.finished)
  }

  lemma StepKeepsInv(c: Control, s: Step)
    requires Inv(c) && Enabled(c, s)
    ensures Inv(Apply(c, s))
  {
    var c' := Apply(c, s);
    forall g ensures Owned(c', g) { assert Owned(c, g); }
  }

  ghost predicate Reaches(c: Control, steps: seq<Step>, c': Control)
    decreases |steps|
  {
    if steps == [] then c == c'
    else Enabled(c, steps[0]) && Reaches(Apply(c, steps[0]), steps[1..], c')
  }

  lemma {:induction false} RunKeepsInv(c: Control, steps: seq<Step>, c': Control)
    requires Inv(c) && Reaches(c, steps, c')
    ensures Inv(c')
    decreases |steps|
  {
    if steps != [] {
      StepKeepsInv(c, steps[0]);
      RunKeepsInv(Apply(c, steps[0]), steps[1..], c');
    }
  }

  /** In every run each duplicated handle has exactly one owner: the thread that made it, the control
      that tracks it, or nobody because it was closed once. A finished control tracks none. */
  lemma HandlesClosedOnce(steps: seq<Step>, c: Control)
    requires Reaches(Fresh(), steps, c)
    ensures forall g :: g in c.made && g !in c.sockets && g !in c.pending ==> c.closes[g] == 1
    ensures forall g :: g !in c.made || g in c.sockets || g in c.pending ==> c.closes[g] == 0
    ensures c.finished ==> c.sockets == map[]
    ensures c.closed || c.reason.Some? ==> c.finished
  {
    RunKeepsInv(Fresh(), steps, c);
    forall g
      ensures g in c.made && g !in c.sockets && g !in c.pending ==> c.closes[g] == 1
      ensures g !in c.made || g in c.sockets || g in c.pending ==> c.closes[g] == 0
    {
      assert Owned(c, g);
    }
  }

  /** The first abort of an open control records exactly its reason, shuts down every tracked handle together
      with its original once, closes it once, and touches nothing else. */
  lemma AbortExactly(c: Control, why: Reason)
    requires !c.closed && c.reason.None?
    ensures var c' := Apply(c, Abort(why));
            && c'.reason == Some(why) && c'.finished && c'.sockets == map[] && c'.closed == c.closed
            && c'.made == c.made && c'.pending == c.pending
            && (forall g :: c'.closes[g] == c.closes[g] + if g in c.sockets then 1 else 0)
            && (forall g, sock :: c'.shuts[(g, sock)]
                  == c.shuts[(g, sock)] + if g in c.sockets && c.sockets[g] == sock then 1 else 0)
  {
    forall g, sock ensures (g, sock) in c.sockets.Items <==> g in c.sockets && c.sockets[g] == sock { }
  }

  /** Nothing but an abort shuts anything down: unwatching, closing and attaching only close. */
  lemma OnlyAbortShuts(c: Control, s: Step)
    requires Enabled(c, s) && !s.Abort?
    ensures Apply(c, s).shuts == c.shuts && Apply(c, s).reason == c.reason
  {
  }

  /** An open control attaches what it is given, under its own socket. */
  lemma AttachExactly(c: Control, g: nat)
    requires g in c.pending && !c.finished
    ensures var c' := Apply(c, Attach(g)); g in c'.sockets && c'.sockets[g] == c.pending[g] && c'.closes == c.closes
  {
  }

  /** Step `i` aborts for this reason, and nothing before it aborts or closes. */
  ghost predicate FirstAbort(steps: seq<Step>, i: int, why: Reason) {
    && 0 <= i < |steps| && steps[i] == Abort(why)
    && forall j :: 0 <= j < i ==> !steps[j].Abort? && !steps[j].Close?
  }

  /** In every run a reason that is set was given by an abort step, the first one before any close. */
  lemma {:induction false} ReasonWasGiven(c: Control, steps: seq<Step>, c': Control)
    requires Reaches(c, steps, c') && c.reason.None? && c'.reason.Some?
    ensures !c.closed && exists i :: FirstAbort(steps, i, c'.reason.value)
    decreases |steps|
  {
    VerdictStable(c, steps, c');
    var c1 := Apply(c, steps[0]);
    VerdictStable(c1, steps[1..], c');
    if steps[0].Abort? {
      assert FirstAbort(steps, 0, c'.reason.value);
    } else {
      ReasonWasGiven(c1, steps[1..], c');
      var i :| FirstAbort(steps[1..], i, c'.reason.value);
      forall j | 0 <= j < i + 1 ensures !steps[j].Abort? && !steps[j].Close? {
        if j > 0 { assert steps[j] == steps[1..][j - 1]; }
      }
      assert FirstAbort(steps, i + 1, c'.reason.value);
    }
  }

  /** The first reason is never overwritten, and none appears after a clean close. */
  lemma {:induction false} VerdictStable(c: Control, steps: seq<Step>, c': Control)
    requires Reaches(c, steps, c')
    ensures c.reason.Some? ==> c'.reason == c.reason
    ensures c.closed && c.reason.None? ==> c'.reason.None? && c'.closed
    decreases |steps|
  {
    if steps != [] { VerdictStable(Apply(c, steps[0]), steps[1..], c'); }
  }

  ghost predicate Retired(c: Control, g: nat) { g in c.made && g !in c.sockets && g !in c.pending }

  lemma RetiredStep(c: Control, s: Step, g: nat)
    requires Inv(c) && Enabled(c, s) && Retired(c, g)
    ensures Retired(Apply(c, s), g)
    ensures forall sock :: Apply(c, s).shuts[(g, sock)] == c.shuts[(g, sock)]
  {
    assert forall sock :: (g, sock) !in c.sockets.Items;
  }

  /** Once a handle was disarmed, discarded or closed, neither it nor the socket it guarded is shut
      down through it again. */
  lemma {:induction false} NoShutdownAfterDisarm(c: Control, steps: seq<Step>, c': Control, g: nat)
    requires Inv(c) && Reaches(c, steps, c') && Retired(c, g)
    ensures Retired(c', g) && forall sock :: c'.shuts[(g, sock)] == c.shuts[(g, sock)]
    decreases |steps|
  {
    if steps != [] {
      StepKeepsInv(c, steps[0]);
      RetiredStep(c, steps[0], g);
      NoShutdownAfterDisarm(Apply(c, steps[0]), steps[1..], c', g);
    }
  }

  /** After the control closed or gave its verdict, nothing is shut down any more. */
  lemma {:induction false} NoShutdownAfterEnd(c: Control, steps: seq<Step>, c': Control)
    requires Inv(c) && Reaches(c, steps, c') && (c.closed || c.reason.Some?)
    ensures c'.shuts == c.shuts && c'.sockets == map[]
    decreases |steps|
  {
    if steps != [] {
      StepKeepsInv(c, steps[0]);
      NoShutdownAfterEnd(Apply(c, steps[0]), steps[1..], c');
    }
  }
}
