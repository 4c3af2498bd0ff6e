/** One polled batch of wallet activities, oldest first, handed by the poller thread to the UI thread
    one at a time. Each step is one thread's action; a crash or a stop may come at any point. */
module PollBatch {

  /** Activities are named by their position in the batch. */
  datatype Poller =
    | Ready(next: nat)      // about to queue activity `next`
    | Waiting(task: nat)    // blocked on the acknowledgement of `task`
    | Finished              // batch exhausted, refused, or abandoned after a stop

  datatype Ui =
    | Idle
    | Handling(task: nat)   // checkpoint applied in memory or refused, nothing durable yet
    | Settled(task: nat)    // checkpoint confirmed durable, or the activity was already known

  datatype Reply = NoReply | Reply(task: nat, ok: bool)

  /** `settled` holds the activities durably staged or found already known. */
  datatype World = World(size: nat, poller: Poller, queue: seq<nat>, ui: Ui, reply: Reply,
                         stopped: bool, settled: set<nat>)

  datatype Step =
    | Queue | Exhaust | Take | Commit | Answer(ok: bool) | Receive | Stop | GiveUp | Crash

  predicate Enabled(w: World, s: Step) {
    match s
    case Queue => w.poller.Ready? && w.poller.next < w.size
    case Exhaust => w.poller.Ready? && w.poller.next >= w.size
    case Take => w.ui.Idle? && w.queue != []
    case Commit => w.ui.Handling?
    // An activity is acknowledged only once settled; it can be refused before and after.
    case Answer(ok) => w.ui.Settled? || (w.ui.Handling? && !ok)
    case Receive => w.poller.Waiting? && w.reply.Reply? && w.reply.task == w.poller.task
    case Stop => true
    case GiveUp => w.poller.Waiting? && w.stopped
    case Crash => true
  }

  function Apply(w: World, s: Step): World
    requires Enabled(w, s)
  {
    match s
    case Queue => w.(poller := Waiting(w.poller.next), queue := w.queue + [w.poller.next])
    case Exhaust => w.(poller := Finished)
    case Take => w.(ui := Handling(w.queue[0]), queue := w.queue[1..])
    case Commit => w.(ui := Settled(w.ui.task), settled := w.settled + {w.ui.task})
    case Answer(ok) => w.(ui := Idle, reply := Reply(w.ui.task, ok))
    case Receive =>
      w.(poller := if w.reply.ok then Ready(w.poller.task + 1) else Finished, reply := NoReply)
    case Stop => w.(stopped := true)
    case GiveUp => w.(poller := Finished)
    // Memory, queue and threads are gone; what was durable stays.
    case Crash => w.(poller := Finished, queue := [], ui := Idle, reply := NoReply)
  }

  ghost predicate Reaches(w: World, steps: seq<Step>, w': World)
    decreases |steps|
  {
    if steps == [] then w == w'
    else Enabled(w, steps[0]) && Reaches(Apply(w, steps[0]), steps[1..], w')
  }

  predicate Initial(w: World) {
    w.poller == Ready(0) && w.queue == [] && w.ui.Idle? && w.reply.NoReply? && w.settled == {}
  }

  /** Exactly the `n` oldest activities. */
  ghost predicate Oldest(s: set<nat>, n: nat) { forall i: nat :: i in s <==> i < n }

  /** The one activity in flight, if any: queued, or in the UI thread's hands, or answered. */
  ghost predicate InFlight(w: World, k: nat) {
    || (w.queue == [k] && w.ui.Idle? && w.reply.NoReply? && Oldest(w.settled, k))
    || (w.queue == [] && w.ui == Handling(k) && w.reply.NoReply? && Oldest(w.settled, k))
    || (w.queue == [] && w.ui == Settled(k) && w.reply.NoReply? && Oldest(w.settled, k + 1))
    || (w.queue == [] && w.ui.Idle? && w.reply == Reply(k, true) && Oldest(w.settled, k + 1))
    || (w.queue == [] && w.ui.Idle? && w.reply == Reply(k, false)
        && (Oldest(w.settled, k) || Oldest(w.settled, k + 1)))
  }

  ghost predicate Quiet(w: World, n: nat) {
    n <= w.size && w.queue == [] && w.ui.Idle? && w.reply.NoReply? && Oldest(w.settled, n)
  }

  ghost predicate Inv(w: World) {
    match w.poller
    case Ready(i) => Quiet(w, i)
    case Waiting(k) => k < w.size && InFlight(w, k)
    case Finished => (exists k :: 0 <= k < w.size && InFlight(w, k)) || (exists n :: Quiet(w, n))
  }

  lemma InFlightStep(w: World, s: Step, k: nat)
    requires InFlight(w, k) && k < w.size && Enabled(w, s)
    requires s.Take? || s.Commit? || s.Answer?
    ensures InFlight(Apply(w, s), k) && Apply(w, s).poller == w.poller && Apply(w, s).size == w.size
  {
  }

  lemma StepKeepsInv(w: World, s: Step)
    requires Inv(w) && Enabled(w, s)
    ensures Inv(Apply(w, s))
  {
    var w' := Apply(w, s);
    if s.Take? || s.Commit? || s.Answer? {
      var k :| 0 <= k < w.size && InFlight(w, k) && (w.poller.Waiting? ==> k == w.poller.task);
      InFlightStep(w, s, k);
    } else if s.Queue? {
      assert InFlight(w', w.poller.next);
    } else if s.Receive? {
      var k := w.poller.task;
      var n: nat := if k in w.settled then k + 1 else k;
      assert Quiet(w', n);
    } else if s.Crash? {
      CrashQuiet(w);
    } else if s.Stop? {
      StopKeeps(w);
    } else if s.Exhaust? {
      assert Quiet(w', w.poller.next);
    } else {
      assert InFlight(w', w.poller.task);
    }
  }

  lemma CrashQuiet(w: World)
    requires Inv(w)
    ensures exists n :: Quiet(Apply(w, Crash), n)
  {
    if w.poller.Ready? {
      assert Quiet(Apply(w, Crash), w.poller.next);
    } else if exists k :: 0 <= k < w.size && InFlight(w, k) {
      var k :| 0 <= k < w.size && InFlight(w, k);
      assert Quiet(Apply(w, Crash), k) || Quiet(Apply(w, Crash), k + 1);
    } else {
      var n :| Quiet(w, n);
      assert Quiet(Apply(w, Crash), n);
    }
  }

  lemma StopKeeps(w: World)
    requires Inv(w)
    ensures Inv(Apply(w, Stop))
  {
    var w' := Apply(w, Stop);
    assert forall k :: InFlight(w, k) ==> InFlight(w', k);
    assert forall n :: Quiet(w, n) ==> Quiet(w', n);
  }

  lemma {:induction false} RunKeepsInv(w: World, steps: seq<Step>, w': World)
    requires Inv(w) && Reaches(w, steps, w')
    ensures Inv(w') && w'.size == w.size
    decreases |steps|
  {
    if steps != [] {
      StepKeepsInv(w, steps[0]);
      RunKeepsInv(Apply(w, steps[0]), steps[1..], w');
    }
  }

  /** At every point of every run, whatever failed, stopped or crashed, the settled activities are the
      oldest ones of the batch without a gap; none is settled before all those older than it, and the
      poller moves past an activity only once it is settled. */
  lemma SettledIsPrefix(w: World, steps: seq<Step>, w': World)
    requires Initial(w) && Reaches(w, steps, w')
    ensures exists n :: 0 <= n <= w.size && Oldest(w'.settled, n)
    ensures forall i, j :: 0 <= i < j && j in w'.settled ==> i in w'.settled
    ensures w'.poller.Ready? ==> Oldest(w'.settled, w'.poller.next)
  {
    assert Quiet(w, 0);
    RunKeepsInv(w, steps, w');
    if w'.poller.Ready? {
      assert Oldest(w'.settled, w'.poller.next);
    } else if exists k :: 0 <= k < w'.size && InFlight(w', k) {
      var k :| 0 <= k < w'.size && InFlight(w', k);
      assert Oldest(w'.settled, k) || Oldest(w'.settled, k + 1);
    } else {
      var n :| Quiet(w', n);
      assert Oldest(w'.settled, n);
    }
  }

  // ----- an undisturbed batch -----

  /** One activity through queue, checkpoint, acknowledgement and back. */
  lemma OneActivity(w: World, i: nat)
    requires w.poller == Ready(i) && i < w.size && Quiet(w, i)
    ensures var steps := [Queue, Take, Commit, Answer(true), Receive];
            var w' := w.(poller := Ready(i + 1), settled := w.settled + {i});
            Reaches(w, steps, w') && Quiet(w', i + 1)
  {
    var w1 := Apply(w, Queue);
    var w2 := Apply(w1, Take);
    var w3 := Apply(w2, Commit);
    var w4 := Apply(w3, Answer(true));
    var w5 := Apply(w4, Receive);
    assert w5 == w.(poller := Ready(i + 1), settled := w.settled + {i});
    Then(w4, Receive, [], w5);
    Then(w3, Answer(true), [Receive], w5);
    Then(w2, Commit, [Answer(true), Receive], w5);
    Then(w1, Take, [Commit, Answer(true), Receive], w5);
    Then(w, Queue, [Take, Commit, Answer(true), Receive], w5);
  }

  lemma Then(w: World, s: Step, rest: seq<Step>, w': World)
    requires Enabled(w, s) && Reaches(Apply(w, s), rest, w')
    ensures Reaches(w, [s] + rest, w')
  {
    assert ([s] + rest)[1..] == rest;
  }

  lemma {:induction false} Concat(w: World, a: seq<Step>, mid: World, b: seq<Step>, w': World)
    requires Reaches(w, a, mid) && Reaches(mid, b, w')
    ensures Reaches(w, a + b, w')
    decreases |a|
  {
    if a == [] {
      assert a + b == b;
    } else {
      assert (a + b)[1..] == a[1..] + b;
      Concat(Apply(w, a[0]), a[1..], mid, b, w');
    }
  }

  /** Undisturbed, a batch of any size is settled in full and then finished. */
  lemma {:induction false} BatchCanFinish(w: World, i: nat) returns (steps: seq<Step>, w': World)
    requires w.poller == Ready(i) && Quiet(w, i)
    ensures Reaches(w, steps, w') && w'.poller.Finished? && Oldest(w'.settled, w.size)
    decreases w.size - i
  {
    if i == w.size {
      w' := Apply(w, Exhaust);
      Then(w, Exhaust, [], w');
      steps := [Exhaust] + [];
    } else {
      OneActivity(w, i);
      var first := [Queue, Take, Commit, Answer(true), Receive];
      var mid := w.(poller := Ready(i + 1), settled := w.settled + {i});
      var rest;
      rest, w' := BatchCanFinish(mid, i + 1);
      Concat(w, first, mid, rest, w');
      steps := first + rest;
    }
  }
}
