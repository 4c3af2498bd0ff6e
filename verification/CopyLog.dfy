/** The history of dispatch decisions, and what a legal history implies by itself. */
module CopyLog {

  /** Events in the order they become true: the durable move to `ambiguous` (Intent), the venue
      call (Dispatch), a durable retreat before any venue call (Withdraw), and the operator's
      durable `confirmed_not_dispatched` (Clear). */
  datatype Event =
    | Intent(id: nat, attempt: nat)
    | Dispatch(id: nat, attempt: nat)
    | Withdraw(id: nat, attempt: nat)
    | Clear(id: nat)

  datatype Phase = Free | Intended(attempt: nat) | Sent(attempt: nat)

  function Advance(before: Phase, ev: Event, id: nat): Phase {
    if ev.id != id then before
    else match ev
      case Intent(_, a) => Intended(a)
      case Dispatch(_, a) => if before == Intended(a) then Sent(a) else before
      case Withdraw(_, a) => if before == Intended(a) then Free else before
      case Clear(_) => Free
  }

  function PhaseOf(log: seq<Event>, id: nat): Phase {
    if log == [] then Free
    else Advance(PhaseOf(log[..|log| - 1], id), log[|log| - 1], id)
  }

  /** The highest attempt ever intended for an entry. */
  function Top(log: seq<Event>, id: nat): nat {
    if log == [] then 0
    else
      var before := Top(log[..|log| - 1], id);
      var ev := log[|log| - 1];
      if ev.Intent? && ev.id == id && ev.attempt > before then ev.attempt else before
  }

  ghost predicate EventLegal(before: seq<Event>, ev: Event) {
    match ev
    case Intent(id, a) => PhaseOf(before, id).Free? && a > Top(before, id)
    case Dispatch(id, a) => Intent(id, a) in before && Dispatch(id, a) !in before && Withdraw(id, a) !in before
    case Withdraw(id, a) =>
      PhaseOf(before, id) == Intended(a) && Dispatch(id, a) !in before && Withdraw(id, a) !in before
    case Clear(id) => true
  }

  ghost predicate LegalAt(log: seq<Event>, n: nat) {
    n < |log| && EventLegal(log[..n], log[n])
  }

  ghost predicate Legal(log: seq<Event>) {
    forall n :: 0 <= n < |log| ==> LegalAt(log, n)
  }

  lemma LegalAppend(log: seq<Event>, ev: Event)
    requires Legal(log) && EventLegal(log, ev)
    ensures Legal(log + [ev])
  {
    var l := log + [ev];
    forall n | 0 <= n < |l| ensures LegalAt(l, n) {
      if n < |log| { assert LegalAt(log, n) && l[..n] == log[..n]; } else { assert l[..n] == log; }
    }
  }

  lemma LegalPrefix(log: seq<Event>)
    requires Legal(log) && log != []
    ensures Legal(log[..|log| - 1]) && EventLegal(log[..|log| - 1], log[|log| - 1])
  {
    var l := log[..|log| - 1];
    assert LegalAt(log, |log| - 1);
    forall n | 0 <= n < |l| ensures LegalAt(l, n) {
      assert LegalAt(log, n) && l[..n] == log[..n];
    }
  }

  lemma PhaseAppend(log: seq<Event>, ev: Event, id: nat)
    ensures PhaseOf(log + [ev], id) == Advance(PhaseOf(log, id), ev, id)
    ensures ev.Intent? && ev.id == id && ev.attempt > Top(log, id) ==> Top(log + [ev], id) == ev.attempt
    ensures !(ev.Intent? && ev.id == id) ==> Top(log + [ev], id) == Top(log, id)
  {
    assert (log + [ev])[..|log|] == log;
  }

  lemma {:induction false} TopBounds(log: seq<Event>, id: nat, a: nat)
    requires Intent(id, a) in log
    ensures a <= Top(log, id)
  {
    var n := |log| - 1;
    if log[n] != Intent(id, a) {
      assert Intent(id, a) in log[..n];
      TopBounds(log[..n], id, a);
    }
  }

  /** If the phase names an attempt, that attempt was intended; if it is only intended, it was
      neither dispatched nor withdrawn. */
  lemma {:induction false} PhaseMeansIntent(log: seq<Event>, id: nat)
    requires Legal(log)
    ensures !PhaseOf(log, id).Free? ==> Intent(id, PhaseOf(log, id).attempt) in log
  {
    if log != [] {
      LegalPrefix(log);
      PhaseMeansIntent(log[..|log| - 1], id);
    }
  }

  // ----- counting -----

  function Attempts(log: seq<Event>, id: nat, kind: Event -> bool): set<nat> {
    set n | 0 <= n < |log| && !log[n].Clear? && log[n].id == id && kind(log[n]) :: log[n].attempt
  }

  function Count(log: seq<Event>, id: nat, kind: Event -> bool): nat {
    if log == [] then 0
    else Count(log[..|log| - 1], id, kind)
         + (if log[|log| - 1].id == id && kind(log[|log| - 1]) then 1 else 0)
  }

  const IsIntent := (ev: Event) => ev.Intent?
  const IsDispatch := (ev: Event) => ev.Dispatch?
  const IsWithdraw := (ev: Event) => ev.Withdraw?
  const IsClear := (ev: Event) => ev.Clear?

  /** Intents are paid for by clears and withdrawals, one in advance. */
  lemma {:induction false} IntentsPaid(log: seq<Event>, id: nat)
    requires Legal(log)
    ensures Count(log, id, IsIntent) <= Count(log, id, IsClear) + Count(log, id, IsWithdraw)
                                        + (if PhaseOf(log, id).Free? then 0 else 1)
  {
    if log != [] {
      LegalPrefix(log);
      IntentsPaid(log[..|log| - 1], id);
    }
  }

  lemma AttemptsStep(log: seq<Event>, id: nat, kind: Event -> bool)
    requires log != []
    ensures var ev := log[|log| - 1];
            Attempts(log, id, kind) == Attempts(log[..|log| - 1], id, kind)
              + (if !ev.Clear? && ev.id == id && kind(ev) then {ev.attempt} else {})
  {
    var n := |log| - 1;
    var before := log[..n];
    forall a | a in Attempts(log, id, kind)
      ensures a in Attempts(before, id, kind)
        || (!log[n].Clear? && log[n].id == id && kind(log[n]) && a == log[n].attempt)
    {
      var i :| 0 <= i < |log| && !log[i].Clear? && log[i].id == id && kind(log[i]) && log[i].attempt == a;
      if i < n { assert before[i] == log[i]; }
    }
    forall a | a in Attempts(before, id, kind) ensures a in Attempts(log, id, kind) {
      var i :| 0 <= i < n && !before[i].Clear? && before[i].id == id && kind(before[i]) && before[i].attempt == a;
      assert log[i] == before[i];
    }
  }

  lemma AttemptsMember(log: seq<Event>, id: nat, a: nat)
    ensures a in Attempts(log, id, IsIntent) <==> Intent(id, a) in log
    ensures a in Attempts(log, id, IsDispatch) <==> Dispatch(id, a) in log
    ensures a in Attempts(log, id, IsWithdraw) <==> Withdraw(id, a) in log
  {
  }

  /** No event of this kind names an attempt of the entry twice. */
  ghost predicate Once(log: seq<Event>, id: nat, kind: Event -> bool) {
    forall n :: 0 <= n < |log| && log[n].id == id && kind(log[n]) ==>
      !log[n].Clear? && log[n].attempt !in Attempts(log[..n], id, kind)
  }

  lemma {:induction false} CountIsAttempts(log: seq<Event>, id: nat, kind: Event -> bool)
    requires Once(log, id, kind)
    ensures Count(log, id, kind) == |Attempts(log, id, kind)|
  {
    if log != [] {
      var n := |log| - 1;
      var before := log[..n];
      assert forall m :: 0 <= m < n ==> before[m] == log[m] && before[..m] == log[..m];
      CountIsAttempts(before, id, kind);
      AttemptsStep(log, id, kind);
    }
  }

  lemma LegalOnce(log: seq<Event>, id: nat)
    requires Legal(log)
    ensures Once(log, id, IsIntent) && Once(log, id, IsDispatch) && Once(log, id, IsWithdraw)
  {
    forall n | 0 <= n < |log| && log[n].id == id && !log[n].Clear?
      ensures log[n].Intent? ==> log[n].attempt !in Attempts(log[..n], id, IsIntent)
      ensures log[n].Dispatch? ==> log[n].attempt !in Attempts(log[..n], id, IsDispatch)
      ensures log[n].Withdraw? ==> log[n].attempt !in Attempts(log[..n], id, IsWithdraw)
    {
      assert LegalAt(log, n);
      AttemptsMember(log[..n], id, log[n].attempt);
      if log[n].Intent? && log[n] in log[..n] { TopBounds(log[..n], id, log[n].attempt); }
    }
  }

  /** Dispatched and withdrawn attempts were intended and do not overlap. */
  lemma AttemptsRelate(log: seq<Event>, id: nat)
    requires Legal(log)
    ensures Attempts(log, id, IsDispatch) <= Attempts(log, id, IsIntent)
    ensures Attempts(log, id, IsWithdraw) <= Attempts(log, id, IsIntent)
    ensures Attempts(log, id, IsDispatch) !! Attempts(log, id, IsWithdraw)
  {
    forall a
      ensures Dispatch(id, a) in log ==> Intent(id, a) in log && Withdraw(id, a) !in log
      ensures Withdraw(id, a) in log ==> Intent(id, a) in log
    {
      AttemptRelates(log, id, a);
    }
    forall a { AttemptsMember(log, id, a); }
  }

  lemma {:induction false} AttemptRelates(log: seq<Event>, id: nat, a: nat)
    requires Legal(log)
    ensures Dispatch(id, a) in log ==> Intent(id, a) in log && Withdraw(id, a) !in log
    ensures Withdraw(id, a) in log ==> Intent(id, a) in log
  {
    if log != [] {
      var n := |log| - 1;
      LegalPrefix(log);
      AttemptRelates(log[..n], id, a);
      PhaseMeansIntent(log[..n], id);
      assert log == log[..n] + [log[n]];
    }
  }

  /** In a legal history every intent, dispatch and withdrawal of an entry names a new attempt, so
      counting events is counting attempts. */
  lemma AttemptsDistinct(log: seq<Event>, id: nat)
    requires Legal(log)
    ensures Count(log, id, IsIntent) == |Attempts(log, id, IsIntent)|
    ensures Count(log, id, IsDispatch) == |Attempts(log, id, IsDispatch)|
    ensures Count(log, id, IsWithdraw) == |Attempts(log, id, IsWithdraw)|
    ensures Attempts(log, id, IsDispatch) <= Attempts(log, id, IsIntent)
    ensures Attempts(log, id, IsWithdraw) <= Attempts(log, id, IsIntent)
    ensures Attempts(log, id, IsDispatch) !! Attempts(log, id, IsWithdraw)
  {
    LegalOnce(log, id);
    CountIsAttempts(log, id, IsIntent);
    CountIsAttempts(log, id, IsDispatch);
    CountIsAttempts(log, id, IsWithdraw);
    AttemptsRelate(log, id);
  }

  /** At most one dispatch, plus one for every operator clearance. */
  lemma DispatchesBounded(log: seq<Event>, id: nat)
    requires Legal(log)
    ensures Count(log, id, IsDispatch) <= 1 + Count(log, id, IsClear)
  {
    AttemptsDistinct(log, id);
    IntentsPaid(log, id);
    var d, w, i := Attempts(log, id, IsDispatch), Attempts(log, id, IsWithdraw), Attempts(log, id, IsIntent);
    SubsetSize(d + w, i);
  }

  lemma SubsetSize(a: set<nat>, b: set<nat>)
    requires a <= b
    ensures |a| <= |b|
  {
    assert b == a + (b - a);
  }

  // ----- separation -----

  /** Every dispatch happened while its own intent was still the open one. */
  ghost predicate Prompt(log: seq<Event>) {
    forall n :: 0 <= n < |log| && log[n].Dispatch? ==>
      PhaseOf(log[..n], log[n].id) == Intended(log[n].attempt)
  }

  ghost predicate ClearBetween(log: seq<Event>, id: nat, i: nat, j: nat) {
    exists k :: i < k < j && k < |log| && log[k] == Clear(id)
  }

  /** Two dispatches of one entry always have an operator clearance between them. */
  ghost predicate Separated(log: seq<Event>) {
    forall i, j :: 0 <= i < j < |log| && log[i].Dispatch? && log[j].Dispatch? && log[i].id == log[j].id
      ==> ClearBetween(log, log[i].id, i, j)
  }

  lemma SentStays(before: seq<Event>, ev: Event, id: nat)
    requires EventLegal(before, ev) && PhaseOf(before, id).Sent? && ev != Clear(id)
    ensures Advance(PhaseOf(before, id), ev, id).Sent?
  {
  }

  lemma {:induction false} SentUntilCleared(log: seq<Event>, id: nat, i: nat, j: nat)
    requires Legal(log) && i < j <= |log|
    requires log[i].Dispatch? && log[i].id == id && PhaseOf(log[..i], id) == Intended(log[i].attempt)
    requires forall k :: i < k < j ==> log[k] != Clear(id)
    ensures PhaseOf(log[..j], id).Sent?
  {
    var before := log[..j - 1];
    assert log[..j] == before + [log[j - 1]];
    PhaseAppend(before, log[j - 1], id);
    if j > i + 1 {
      SentUntilCleared(log, id, i, j - 1);
      assert LegalAt(log, j - 1);
      SentStays(before, log[j - 1], id);
    }
  }

  lemma PromptSeparates(log: seq<Event>)
    requires Legal(log) && Prompt(log)
    ensures Separated(log)
  {
    forall i, j | 0 <= i < j < |log| && log[i].Dispatch? && log[j].Dispatch? && log[i].id == log[j].id
      ensures ClearBetween(log, log[i].id, i, j)
    {
      if !ClearBetween(log, log[i].id, i, j) { SentUntilCleared(log, log[i].id, i, j); }
    }
  }
}
