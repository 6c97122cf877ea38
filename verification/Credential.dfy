/** The one slot for a short-lived Kubernetes token, shared by all execute and reconcile handlers of a
    server that uses a credential broker. */
module Credential {
  import opened Common

  // Where a handler is between taking the credential mutex and releasing it.
  datatype Phase = Outside | Locked | Issued(token: string) | Armed(token: string) | Cleared | Refused | Gone

  datatype Sent = Sent(handler: nat, token: string)

  // issued: the token the broker gave for each handler's own action. sent: the requests to the API
  // server, with the token each one carried.
  datatype State = State(
    slot: string, holder: Option<nat>, phases: map<nat, Phase>, issued: map<nat, string>, armed: bool, sent: seq<Sent>)

  datatype Step =
    | Lock(h: nat)
    | IssueFails(h: nat)
    | Issue(h: nat, token: string)
    | SetSlot(h: nat)
    | Request(h: nat)
    | ClearSlot(h: nat)   // deferred after the mutex release was, so it runs first, also on a panic
    | Unlock(h: nat)

  function PhaseOf(s: State, h: nat): Phase { if h in s.phases then s.phases[h] else Outside }

  predicate Enabled(s: State, step: Step) {
    match step
    case Lock(h) => PhaseOf(s, h) == Outside && s.holder.None?
    case IssueFails(h) => PhaseOf(s, h) == Locked
    case Issue(h, token) => PhaseOf(s, h) == Locked && token != ""
    case SetSlot(h) => PhaseOf(s, h).Issued?
    case Request(h) => PhaseOf(s, h).Armed?
    case ClearSlot(h) => PhaseOf(s, h).Armed?
    case Unlock(h) => PhaseOf(s, h) == Cleared || PhaseOf(s, h) == Refused
  }

  function To(s: State, h: nat, phase: Phase): State { s.(phases := s.phases[h := phase]) }

  function Next(s: State, step: Step): State
    requires Enabled(s, step)
  {
    match step
    case Lock(h) => To(s, h, Locked).(holder := Some(h))
    case IssueFails(h) => To(s, h, Refused)
    case Issue(h, token) => To(s, h, Issued(token)).(issued := s.issued[h := token])
    case SetSlot(h) => To(s, h, Armed(s.phases[h].token)).(slot := s.phases[h].token, armed := true)
    case Request(h) => s.(sent := s.sent + [Sent(h, s.slot)])
    case ClearSlot(h) => To(s, h, Cleared).(slot := "")
    case Unlock(h) => To(s, h, Gone).(holder := None)
  }

  predicate Inside(p: Phase) { !p.Outside? && !p.Gone? }

  // What each step of a handler does to the shared slot, the mutex and the requests on record.
  lemma StepMeans(s: State, step: Step)
    requires Enabled(s, step)
    ensures var s' := Next(s, step);
            && (step.SetSlot? ==> s'.slot == s.phases[step.h].token)
            && (step.ClearSlot? ==> s'.slot == "")
            && (!step.SetSlot? && !step.ClearSlot? ==> s'.slot == s.slot)
            && (step.Lock? ==> s.holder == None && s'.holder == Some(step.h))
            && (step.Unlock? ==> s'.holder == None)
            && (!step.Lock? && !step.Unlock? ==> s'.holder == s.holder)
            && s'.sent == (if step.Request? then s.sent + [Sent(step.h, s.slot)] else s.sent)
            && s'.issued == (if step.Issue? then s.issued[step.h := step.token] else s.issued)
    ensures step.Request? || step.ClearSlot? ==> PhaseOf(s, step.h).Armed?
    ensures step.SetSlot? ==> PhaseOf(s, step.h).Issued?
    ensures step.Issue? || step.IssueFails? ==> PhaseOf(s, step.h) == Locked
  {
  }

  // The mutex admits one handler.
  ghost predicate Exclusive(s: State) {
    && (forall h :: h in s.phases ==> (Inside(s.phases[h]) <==> s.holder == Some(h)))
    && (s.holder.Some? ==> s.holder.value in s.phases)
  }

  // A handler past the broker carries the token issued for it, an armed one finds it in the slot.
  ghost predicate TokensInPlace(s: State) {
    && (forall h :: h in s.phases && s.phases[h].Issued? ==> h in s.issued && s.issued[h] == s.phases[h].token)
    && (forall h :: h in s.issued ==> h in s.phases && !s.phases[h].Outside? && !s.phases[h].Locked? && !s.phases[h].Refused?)
    && (forall h :: h in s.phases && s.phases[h].Armed? ==>
          h in s.issued && s.issued[h] == s.phases[h].token == s.slot && s.armed)
  }

  // With nobody armed the slot is empty, or still holds what the server started with.
  ghost predicate SlotAtRest(s: State, initial: string) {
    (forall h :: h in s.phases ==> !s.phases[h].Armed?) ==> s.slot == if s.armed then "" else initial
  }

  ghost predicate AllOwn(s: State) { forall i :: 0 <= i < |s.sent| ==> OwnToken(s, s.sent[i]) }

  ghost predicate Valid(s: State, initial: string) {
    Exclusive(s) && TokensInPlace(s) && SlotAtRest(s, initial) && AllOwn(s)
  }

  predicate OwnToken(s: State, r: Sent) { r.handler in s.issued && s.issued[r.handler] == r.token }

  function Start(initial: string): State { State(initial, None, map[], map[], false, []) }

  lemma StepKeepsValid(s: State, step: Step, initial: string)
    requires Valid(s, initial) && Enabled(s, step)
    ensures Valid(Next(s, step), initial)
  {
    StepKeepsExclusive(s, step);
    OthersOutside(s, step);
    StepKeepsTokens(s, step);
    StepKeepsSlot(s, step, initial);
    StepKeepsOwn(s, step);
  }

  lemma StepKeepsExclusive(s: State, step: Step)
    requires Exclusive(s) && Enabled(s, step)
    ensures Exclusive(Next(s, step))
  {
  }

  // While one handler steps, no other is inside, so no other is armed.
  lemma OthersOutside(s: State, step: Step)
    requires Exclusive(s) && Enabled(s, step)
    ensures forall h :: h in s.phases && h != step.h ==> !s.phases[h].Armed?
  {
    assert PhaseOf(s, step.h) == Outside || s.holder == Some(step.h);
  }

  lemma StepKeepsTokens(s: State, step: Step)
    requires TokensInPlace(s) && Enabled(s, step)
    requires forall h :: h in s.phases && h != step.h ==> !s.phases[h].Armed?
    ensures TokensInPlace(Next(s, step))
  {
  }

  lemma StepKeepsSlot(s: State, step: Step, initial: string)
    requires SlotAtRest(s, initial) && TokensInPlace(s) && Enabled(s, step)
    requires forall h :: h in s.phases && h != step.h ==> !s.phases[h].Armed?
    ensures SlotAtRest(Next(s, step), initial)
  {
    var s' := Next(s, step);
    if step.SetSlot? || step.Request? {
      assert step.h in s'.phases && s'.phases[step.h].Armed?;
    } else {
      assert forall h :: h in s'.phases && h != step.h ==> h in s.phases && s'.phases[h] == s.phases[h];
    }
  }

  lemma StepKeepsOwn(s: State, step: Step)
    requires AllOwn(s) && TokensInPlace(s) && Enabled(s, step)
    ensures AllOwn(Next(s, step))
  {
    var s' := Next(s, step);
    forall i | 0 <= i < |s'.sent| ensures OwnToken(s', s'.sent[i]) {
      if i < |s.sent| {
        assert OwnToken(s, s.sent[i]);
        assert s'.sent[i] == s.sent[i];
      }
    }
  }

  lemma FreeSlot(s: State, initial: string)
    requires Valid(s, initial) && s.holder.None?
    ensures s.slot == if s.armed then "" else initial
  {
  }

  ghost predicate IsRun(states: seq<State>, steps: seq<Step>, initial: string) {
    && |states| == |steps| + 1 && states[0] == Start(initial)
    && forall i :: 0 <= i < |steps| ==> Enabled(states[i], steps[i]) && states[i + 1] == Next(states[i], steps[i])
  }

  // In every interleaving each request carries the token issued for its own action, and whenever the
  // mutex is free the slot is empty, unless it has held a token from the start and no handler has put
  // one of its own there yet.
  lemma {:induction false} RunKeepsTokensApart(states: seq<State>, steps: seq<Step>, initial: string, k: nat)
    requires IsRun(states, steps, initial) && k <= |steps|
    ensures Valid(states[k], initial)
    ensures AllOwn(states[k])
    ensures states[k].holder.None? ==> (states[k].slot == "" <==> initial == "" || states[k].armed)
    ensures states[k].armed <==> exists j :: 0 <= j < k && steps[j].SetSlot?
  {
    if k > 0 {
      RunKeepsTokensApart(states, steps, initial, k - 1);
      StepKeepsValid(states[k - 1], steps[k - 1], initial);
      assert states[k] == Next(states[k - 1], steps[k - 1]);
      assert states[k].armed <==> states[k - 1].armed || steps[k - 1].SetSlot?;
    }
    if states[k].holder.None? { FreeSlot(states[k], initial); }
  }

  // A handler that the broker refuses finishes without emptying the slot.
  lemma RefusedHandlerLeavesSlot(initial: string)
    requires initial != ""
    ensures var steps := [Lock(0), IssueFails(0), Unlock(0)];
            exists states: seq<State> :: IsRun(states, steps, initial) && states[3].holder.None? && states[3].slot == initial
              && PhaseOf(states[3], 0) == Gone
  {
    var s0 := Start(initial);
    var s1 := Next(s0, Lock(0));
    var s2 := Next(s1, IssueFails(0));
    var s3 := Next(s2, Unlock(0));
    var states := [s0, s1, s2, s3];
    assert IsRun(states, [Lock(0), IssueFails(0), Unlock(0)], initial);
  }
}
