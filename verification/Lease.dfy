/** The lease a run is executed under: renewed in the background, checked before every step. */
module Lease {
  import opened Common
  import opened Outcome

  datatype LeaseState = Active | Uncertain | Lost

  datatype Lease = Lease(state: LeaseState, failures: nat)

  const CLAIMED := Lease(Active, 0)

  // One answer to a renewal. A lost lease is not renewed any more.
  function Renewed(l: Lease, ok: bool): Lease {
    if l.state == Lost then l
    else if ok then CLAIMED
    else
      var failures := l.failures + 1;
      Lease(if failures >= 2 then Lost else if l.state == Active then Uncertain else l.state, failures)
  }

  function RenewedAll(l: Lease, answers: seq<bool>): Lease {
    if answers == [] then l else Renewed(RenewedAll(l, answers[..|answers| - 1]), answers[|answers| - 1])
  }

  ghost predicate TwoInARow(answers: seq<bool>) { exists i :: 0 <= i < |answers| - 1 && !answers[i] && !answers[i + 1] }

  // The state tells exactly what the renewals answered: lost after two failures in a row at any time,
  // otherwise uncertain after a failure and active after a success.
  lemma {:induction false} StateOfAnswers(answers: seq<bool>)
    ensures var l := RenewedAll(CLAIMED, answers);
            && (l.state == Lost <==> TwoInARow(answers))
            && (l.state == Uncertain <==> !TwoInARow(answers) && answers != [] && !answers[|answers| - 1])
            && l.failures == (match l.state case Active => 0 case Uncertain => 1 case Lost => 2)
  {
    if answers != [] {
      var n := |answers| - 1;
      var front := answers[..n];
      StateOfAnswers(front);
      if TwoInARow(front) {
        var i :| 0 <= i < |front| - 1 && !front[i] && !front[i + 1];
        assert !answers[i] && !answers[i + 1];
      }
      if TwoInARow(answers) {
        var i :| 0 <= i < |answers| - 1 && !answers[i] && !answers[i + 1];
        if i < n - 1 { assert !front[i] && !front[i + 1]; } else { assert !front[n - 1]; }
      } else if n > 0 && !answers[n] {
        assert answers[n - 1];
        assert front[n - 1];
      }
    }
  }

  // What happened to a lease, in order: answers to renewals, checks and the state they found, investigations
  // made under it and how they ended, steps of the execution that need it, and commit requests.
  datatype Event = Answer(ok: bool) | Check(found: LeaseState) | Known(brain: Brain) | Step | Request

  function AnswersIn(h: seq<Event>): seq<bool> {
    if h == [] then []
    else AnswersIn(h[..|h| - 1]) + match h[|h| - 1] case Answer(ok) => [ok] case _ => []
  }

  // The lease the answers so far have left.
  function LeaseAfter(h: seq<Event>): Lease {
    if h == [] then CLAIMED
    else
      var before := LeaseAfter(h[..|h| - 1]);
      match h[|h| - 1] case Answer(ok) => Renewed(before, ok) case _ => before
  }

  lemma {:induction false} LeaseAfterAnswers(h: seq<Event>)
    ensures LeaseAfter(h) == RenewedAll(CLAIMED, AnswersIn(h))
  {
    if h != [] {
      var front := h[..|h| - 1];
      LeaseAfterAnswers(front);
      match h[|h| - 1]
      case Answer(ok) => assert (AnswersIn(front) + [ok])[..|AnswersIn(front)|] == AnswersIn(front);
      case _ => assert AnswersIn(front) + [] == AnswersIn(front);
    }
  }

  ghost predicate PassedAt(h: seq<Event>, j: nat) { j < |h| && h[j] == Check(Active) }

  // A check has passed, and no investigation has been made since.
  ghost predicate Cleared(h: seq<Event>) { exists j: nat :: PassedAt(h, j) && forall k :: j < k < |h| ==> !h[k].Known? }

  // A check has passed, and nothing but renewals has happened since.
  ghost predicate AtBoundary(h: seq<Event>) { exists j: nat :: PassedAt(h, j) && forall k :: j < k < |h| ==> h[k].Answer? }

  // How the latest investigation ended, and the outcome that makes.
  function LastBrain(h: seq<Event>): Option<Brain> {
    if h == [] then None
    else match h[|h| - 1] case Known(brain) => Some(brain) case _ => LastBrain(h[..|h| - 1])
  }

  function OutcomeOf(h: seq<Event>): Option<Raw> {
    match LastBrain(h)
    case Some(Returned(raw)) => Some(raw)
    case Some(Raised) => Some(RawOf(Raised))
    case _ => None
  }

  ghost predicate SameOutcome(h: seq<Event>, h': seq<Event>) {
    LastBrain(h') == LastBrain(h) && OutcomeOf(h') == OutcomeOf(h)
  }

  // What the latest check found.
  function LastCheck(h: seq<Event>): Option<LeaseState> {
    if h == [] then None
    else match h[|h| - 1] case Check(found) => Some(found) case _ => LastCheck(h[..|h| - 1])
  }

  lemma LatestThen(h: seq<Event>, e: Event)
    ensures LastBrain(h + [e]) == if e.Known? then Some(e.brain) else LastBrain(h)
    ensures LastCheck(h + [e]) == if e.Check? then Some(e.found) else LastCheck(h)
  {
    assert (h + [e])[..|h|] == h;
  }

  // Checks found what the answers so far amount to, every investigation and every step was cleared, and
  // every commit request was made at the boundary, right behind a check that passed.
  ghost predicate Orderly(h: seq<Event>) {
    h != [] ==> Orderly(h[..|h| - 1]) && MayHappen(h[..|h| - 1], h[|h| - 1])
  }

  lemma {:induction false} OrderlyAt(h: seq<Event>, i: nat)
    requires Orderly(h) && i < |h|
    ensures MayHappen(h[..i], h[i])
  {
    if i < |h| - 1 {
      OrderlyAt(h[..|h| - 1], i);
      assert h[..|h| - 1][..i] == h[..i];
    }
  }

  ghost predicate MayHappen(h: seq<Event>, e: Event) {
    match e
    case Answer(_) => true
    case Check(found) => found == LeaseAfter(h).state
    case Known(_) => Cleared(h)
    case Step => Cleared(h)
    case Request => AtBoundary(h)
  }

  lemma OrderlyThen(h: seq<Event>, e: Event)
    requires Orderly(h) && MayHappen(h, e)
    ensures Orderly(h + [e])
    ensures LeaseAfter(h + [e]) == if e.Answer? then Renewed(LeaseAfter(h), e.ok) else LeaseAfter(h)
  {
    assert (h + [e])[..|h|] == h;
  }

  lemma ClearedThen(h: seq<Event>, e: Event)
    ensures e == Check(Active) ==> AtBoundary(h + [e]) && Cleared(h + [e])
    ensures !e.Known? && Cleared(h) ==> Cleared(h + [e])
    ensures e.Answer? && AtBoundary(h) ==> AtBoundary(h + [e])
  {
    var h' := h + [e];
    if e == Check(Active) { assert PassedAt(h', |h|); }
    if !e.Known? && Cleared(h) {
      var j: nat :| PassedAt(h, j) && forall k :: j < k < |h| ==> !h[k].Known?;
      assert PassedAt(h', j);
    }
    if e.Answer? && AtBoundary(h) {
      var j: nat :| PassedAt(h, j) && forall k :: j < k < |h| ==> h[k].Answer?;
      assert PassedAt(h', j);
    }
  }

  class LeaseContext {
    var state: LeaseState
    var failures: nat
    var stopped: bool
    ghost var history: seq<Event>

    function Snapshot(): Lease reads this { Lease(state, failures) }

    // The fields are what the answers have left, and everything was done in order.
    ghost predicate Valid() reads this { Orderly(history) && Snapshot() == LeaseAfter(history) }

    constructor ()
      ensures Valid() && Snapshot() == CLAIMED && !stopped && history == []
    {
      state, failures, stopped, history := Active, 0, false, [];
    }

    // Asked before every step that must not run without the lease.
    method CheckActive() returns (ok: bool)
      requires Valid()
      modifies this`history
      ensures Valid() && history == old(history) + [Check(state)] && (ok <==> state == Active)
      ensures ok ==> AtBoundary(history) && Cleared(history)
      ensures SameOutcome(old(history), history) && LastCheck(history) == Some(state)
    {
      OrderlyThen(history, Check(state));
      ClearedThen(history, Check(state));
      LatestThen(history, Check(state));
      history := history + [Check(state)];
      ok := state == Active;
    }

    // Notes an answer, an investigation, a step or a request.
    ghost method Note(e: Event)
      requires Orderly(history) && !e.Check? && MayHappen(history, e)
      modifies this`history
      ensures Orderly(history) && history == old(history) + [e]
      ensures LeaseAfter(history) == if e.Answer? then Renewed(LeaseAfter(old(history)), e.ok) else LeaseAfter(old(history))
      ensures if e.Known? then LastBrain(history) == Some(e.brain) else SameOutcome(old(history), history)
      ensures LastCheck(history) == LastCheck(old(history))
      ensures !e.Known? && Cleared(old(history)) ==> Cleared(history)
      ensures e.Answer? && AtBoundary(old(history)) ==> AtBoundary(history)
    {
      OrderlyThen(history, e);
      ClearedThen(history, e);
      LatestThen(history, e);
      history := history + [e];
    }

    // One round of the renewal loop; a round that is already waiting for its answer finishes after a stop.
    method RenewRound(ok: bool, waiting: bool)
      requires Valid()
      modifies this
      ensures Valid() && stopped == old(stopped)
      ensures history == old(history) || history == old(history) + [Answer(ok)]
      ensures Snapshot() == if old(stopped) && !waiting then old(Snapshot()) else Renewed(old(Snapshot()), ok)
      ensures Cleared(old(history)) ==> Cleared(history)
      ensures AtBoundary(old(history)) ==> AtBoundary(history)
      ensures SameOutcome(old(history), history) && LastCheck(history) == LastCheck(old(history))
    {
      if stopped && !waiting { return; }
      if state == Lost { return; }
      Note(Answer(ok));
      if ok {
        state, failures := Active, 0;
        return;
      }
      failures := failures + 1;
      if failures >= 2 {
        state := Lost;
      } else if state == Active {
        state := Uncertain;
      }
    }

    // Any number of renewal rounds, with any answers.
    method Background()
      requires Valid()
      modifies this
      ensures Valid() && stopped == old(stopped) && old(history) <= history
      ensures old(state) == Lost ==> Snapshot() == old(Snapshot())
      ensures Cleared(old(history)) ==> Cleared(history)
      ensures AtBoundary(old(history)) ==> AtBoundary(history)
      ensures SameOutcome(old(history), history) && LastCheck(history) == LastCheck(old(history))
    {
      var answers: seq<bool> := *;
      for i := 0 to |answers|
        invariant Valid() && stopped == old(stopped) && old(history) <= history
        invariant old(state) == Lost ==> Snapshot() == old(Snapshot())
        invariant Cleared(old(history)) ==> Cleared(history)
        invariant AtBoundary(old(history)) ==> AtBoundary(history)
        invariant SameOutcome(old(history), history) && LastCheck(history) == LastCheck(old(history))
      {
        RenewRound(answers[i], true);
      }
    }

    method Close()
      modifies this`stopped
      ensures stopped
    {
      stopped := true;
    }
  }
}
