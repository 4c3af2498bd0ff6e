/** Concurrent deadline-bounded DNS lookups sharing a bounded pool of worker slots. */
module DnsSlots {

  const MAX_LOOKUPS: nat := 16

  datatype Caller = Queued | Acquired | Waiting | Returned | Raised

  /** The worker thread: recorded its result, then gave the slot back, then signalled completion. */
  datatype Worker = Absent | Running | Recorded | Freed | Signalled

  /** `taken` and `given` count the acquire and release calls made for this lookup. */
  datatype Lookup = Lookup(caller: Caller, worker: Worker, results: nat, taken: nat, given: nat)

  datatype World = World(inUse: nat, lookups: map<nat, Lookup>)

  datatype Step =
    | Arrive(c: nat)
    | Acquire(c: nat)
    | Expire(c: nat)        // deadline or cancellation while queued or waiting
    | Start(c: nat)
    | StartFails(c: nat)    // control check or thread start raised; the caller releases
    | Record(c: nat)        // resolver returned or raised
    | Release(c: nat)
    | Signal(c: nat)
    | Collect(c: nat)       // the caller saw completion and takes the result

  /** Whether a lookup can take the step, given the slots in use. */
  predicate Ready(l: Lookup, inUse: nat, s: Step) {
    match s
    case Arrive(_) => false
    case Acquire(_) => l.caller.Queued? && inUse < MAX_LOOKUPS
    case Expire(_) => l.caller.Queued? || l.caller.Waiting?
    case Start(_) => l.caller.Acquired?
    case StartFails(_) => l.caller.Acquired?
    case Record(_) => l.worker.Running?
    case Release(_) => l.worker.Recorded?
    case Signal(_) => l.worker.Freed?
    case Collect(_) => l.caller.Waiting? && l.worker.Signalled?
  }

  ghost predicate Enabled(w: World, s: Step) {
    if s.Arrive? then s.c !in w.lookups else s.c in w.lookups && Ready(w.lookups[s.c], w.inUse, s)
  }

  /** A release without a slot in use would be an error of the bounded semaphore. */
  function Minus(n: nat): nat { if n == 0 then 0 else n - 1 }

  const NEWCOMER := Lookup(Queued, Absent, 0, 0, 0)

  function Next(l: Lookup, s: Step): Lookup {
    match s
    case Arrive(_) => NEWCOMER
    case Acquire(_) => l.(caller := Acquired, taken := l.taken + 1)
    case Expire(_) => l.(caller := Raised)
    case Start(_) => l.(caller := Waiting, worker := Running)
    case StartFails(_) => l.(caller := Raised, given := l.given + 1)
    case Record(_) => l.(worker := Recorded, results := l.results + 1)
    case Release(_) => l.(worker := Freed, given := l.given + 1)
    case Signal(_) => l.(worker := Signalled)
    case Collect(_) => l.(caller := Returned)
  }

  function Counted(inUse: nat, s: Step): nat {
    if s.Acquire? then inUse + 1 else if s.StartFails? || s.Release? then Minus(inUse) else inUse
  }

  ghost function Apply(w: World, s: Step): World
    requires Enabled(w, s)
  {
    var l := if s.Arrive? then NEWCOMER else Next(w.lookups[s.c], s);
    World(Counted(w.inUse, s), w.lookups[s.c := l])
  }

  predicate Holding(l: Lookup) { l.caller.Acquired? || l.worker.Running? || l.worker.Recorded? }

  function Holders(w: World): set<nat> { set c | c in w.lookups && Holding(w.lookups[c]) }

  ghost predicate LookupOk(l: Lookup) {
    && (l.caller.Queued? || l.caller.Acquired? ==> l.worker.Absent?)
    && (l.caller.Waiting? || l.caller.Returned? ==> !l.worker.Absent?)
    && (l.caller.Queued? ==> l.taken == 0)
    && l.given <= l.taken <= 1 && (Holding(l) <==> l.taken == l.given + 1)
    && (l.results == if l.worker.Absent? || l.worker.Running? then 0 else 1)
  }

  ghost predicate Inv(w: World) {
    && (forall c :: c in w.lookups ==> LookupOk(w.lookups[c]))
    && w.inUse == |Holders(w)| <= MAX_LOOKUPS
  }

  /** A step keeps its own lookup sound, and the counter moves exactly with the lookup's claim. */
  lemma NextKeepsLookup(l: Lookup, inUse: nat, s: Step)
    requires LookupOk(l) && Ready(l, inUse, s)
    ensures LookupOk(Next(l, s))
    ensures Counted(inUse, s) == if Holding(Next(l, s)) && !Holding(l) then inUse + 1
                                 else if Holding(l) && !Holding(Next(l, s)) then Minus(inUse) else inUse
    ensures Holding(Next(l, s)) && !Holding(l) ==> inUse < MAX_LOOKUPS
  {
  }

  lemma HoldersAfter(lookups: map<nat, Lookup>, inUse: nat, c: nat, l: Lookup, n: nat)
    ensures Holders(World(n, lookups[c := l]))
         == if Holding(l) then Holders(World(inUse, lookups)) + {c} else Holders(World(inUse, lookups)) - {c}
  {
  }

  /** Replacing one lookup keeps the count if the counter moves with the claim. */
  lemma HoldersCount(w: World, c: nat, l: Lookup, n: nat)
    requires w.inUse == |Holders(w)| <= MAX_LOOKUPS
    requires n == if Holding(l) && c !in Holders(w) then w.inUse + 1
                  else if c in Holders(w) && !Holding(l) then Minus(w.inUse) else w.inUse
    requires Holding(l) && c !in Holders(w) ==> w.inUse < MAX_LOOKUPS
    ensures n == |Holders(World(n, w.lookups[c := l]))| <= MAX_LOOKUPS
  {
    HoldersAfter(w.lookups, w.inUse, c, l, n);
    var h := Holders(w);
    if c in h {
      assert |h - {c}| == |h| - 1 && h + {c} == h;
    } else {
      assert h - {c} == h;
    }
  }

  lemma StepKeepsInv(w: World, s: Step)
    requires Inv(w) && Enabled(w, s)
    ensures Inv(Apply(w, s))
  {
    if s.Arrive? {
      PutKeepsInv(w, s.c, NEWCOMER, w.inUse);
    } else {
      var l := w.lookups[s.c];
      NextKeepsLookup(l, w.inUse, s);
      PutKeepsInv(w, s.c, Next(l, s), Counted(w.inUse, s));
    }
  }

  lemma PutKeepsInv(w: World, c: nat, l: Lookup, n: nat)
    requires Inv(w) && LookupOk(l)
    requires var was := c in w.lookups && Holding(w.lookups[c]);
             && n == (if Holding(l) && !was then w.inUse + 1
                      else if was && !Holding(l) then Minus(w.inUse) else w.inUse)
             && (Holding(l) && !was ==> w.inUse < MAX_LOOKUPS)
    ensures Inv(World(n, w.lookups[c := l]))
  {
    assert c in Holders(w) <==> c in w.lookups && Holding(w.lookups[c]);
    HoldersCount(w, c, l, n);
  }

  ghost predicate Reaches(w: World, steps: seq<Step>, w': World)
    decreases |steps|
  {
    if steps == [] then w == w'
    else Enabled(w, steps[0]) && Reaches(Apply(w, steps[0]), steps[1..], w')
  }

  lemma {:induction false} RunKeepsInv(w: World, steps: seq<Step>, w': World)
    requires Inv(w) && Reaches(w, steps, w')
    ensures Inv(w')
    decreases |steps|
  {
    if steps != [] {
      StepKeepsInv(w, steps[0]);
      RunKeepsInv(Apply(w, steps[0]), steps[1..], w');
    }
  }

  predicate Over(l: Lookup) {
    (l.caller.Returned? || l.caller.Raised?) && (l.worker.Absent? || l.worker.Freed? || l.worker.Signalled?)
  }

  /** In every run the slots in use are exactly the callers between acquire and worker start plus the
      workers that have not released, never more than 16; no slot is released twice or while unused; a
      lookup that is over has released exactly what it acquired; and a caller that saw completion finds
      exactly one result. */
  lemma SlotsConserved(steps: seq<Step>, w: World)
    requires Reaches(World(0, map[]), steps, w)
    ensures w.inUse == |Holders(w)| <= 16
    ensures forall c :: c in w.lookups ==> w.lookups[c].given <= w.lookups[c].taken <= 1
    ensures forall c :: c in w.lookups && Over(w.lookups[c]) ==> w.lookups[c].given == w.lookups[c].taken
    ensures forall c :: c in w.lookups && w.lookups[c].worker.Recorded? ==> w.inUse > 0
    ensures forall c :: c in w.lookups && w.lookups[c].caller.Acquired? ==> w.inUse > 0
    ensures forall c :: c in w.lookups && w.lookups[c].worker.Signalled? ==> w.lookups[c].results == 1
  {
    assert Holders(World(0, map[])) == {};
    RunKeepsInv(World(0, map[]), steps, w);
    forall c | c in w.lookups ensures LookupOk(w.lookups[c]) { }
    forall c | c in w.lookups && Holding(w.lookups[c]) ensures w.inUse > 0 {
      assert c in Holders(w);
    }
  }

  lemma Then(w: World, s: Step, rest: seq<Step>, w': World)
    requires Enabled(w, s) && Reaches(Apply(w, s), rest, w')
    ensures Reaches(w, [s] + rest, w')
  {
    assert ([s] + rest)[1..] == rest;
  }

  /** While fewer than 16 slots are in use, a new lookup that nothing disturbs takes one, gets its result and
      gives the slot back; while 16 are, nobody takes another. */
  lemma UndisturbedLookup(w: World, c: nat) returns (steps: seq<Step>, w': World)
    requires c !in w.lookups && w.inUse < 16
    ensures Reaches(w, steps, w') && w'.inUse == w.inUse
    ensures w'.lookups == w.lookups[c := Lookup(Returned, Signalled, 1, 1, 1)]
  {
    var w2 := World(w.inUse + 1, w.lookups[c := Lookup(Acquired, Absent, 0, 1, 0)]);
    var first := EarlyHalf(w, c);
    var second;
    second, w' := LateHalf(w2, c);
    Concat(w, first, w2, second, w');
    steps := first + second;
  }

  lemma EarlyHalf(w: World, c: nat) returns (steps: seq<Step>)
    requires c !in w.lookups && w.inUse < 16
    ensures Reaches(w, steps, World(w.inUse + 1, w.lookups[c := Lookup(Acquired, Absent, 0, 1, 0)]))
  {
    var w1 := Apply(w, Arrive(c));
    var w2 := Apply(w1, Acquire(c));
    Then(w1, Acquire(c), [], w2);
    Then(w, Arrive(c), [Acquire(c)] + [], w2);
    steps := [Arrive(c)] + ([Acquire(c)] + []);
    assert w2.lookups == w.lookups[c := Lookup(Acquired, Absent, 0, 1, 0)];
  }

  lemma LateHalf(w: World, c: nat) returns (steps: seq<Step>, w': World)
    requires c in w.lookups && w.lookups[c] == Lookup(Acquired, Absent, 0, 1, 0) && w.inUse > 0
    ensures Reaches(w, steps, w')
    ensures w' == World(w.inUse - 1, w.lookups[c := Lookup(Returned, Signalled, 1, 1, 1)])
  {
    var w3 := Apply(w, Start(c));
    var w4 := Apply(w3, Record(c));
    var w5 := Apply(w4, Release(c));
    var w6 := Apply(w5, Signal(c));
    w' := Apply(w6, Collect(c));
    Then(w6, Collect(c), [], w');
    steps := [Collect(c)] + [];
    Then(w5, Signal(c), steps, w');
    steps := [Signal(c)] + steps;
    Then(w4, Release(c), steps, w');
    steps := [Release(c)] + steps;
    Then(w3, Record(c), steps, w');
    steps := [Record(c)] + steps;
    Then(w, Start(c), steps, w');
    steps := [Start(c)] + steps;
    assert w'.lookups == w.lookups[c := Lookup(Returned, Signalled, 1, 1, 1)];
  }

  lemma {:induction false} Concat(w: World, a: seq<Step>, mid: World, b: seq<Step>, w': World)
    requires Reaches(w, a, mid) && Reaches(mid, b, w')
    ensures Reaches(w, a + b, w')
    decreases |a|
  {
    if a == [] {
      assert a + b == b;
    } else {
      assert (a + b)[1..] == a[1..] + b;
      Concat(Apply(w, a[0]), a[1..], mid, b, w');
    }
  }

  lemma FullPoolWaits(w: World, c: nat)
    requires w.inUse >= 16
    ensures !Enabled(w, Acquire(c))
  {
  }
}
