/** Executing one accepted investigation run against the control plane: a register that other clients
    write to as well, changed only by compare-and-set on its version. */
module Runtime {
  import opened Common
  import opened Outcome
  import opened Lease

  // What one of our writes was made with: a move of its own, or a step or commit of an execution, made at
  // that position of its lease's history.
  datatype How =
    | Moved
    | Stepped(at: nat)
    | Committed(at: nat, errorEvent: bool, ended: Status, contextFailed: bool, result: Result)

  datatype Author = Us(how: How) | Others

  datatype Write = Write(status: Status, author: Author)

  // A read and its answer, if there was one, a claim, or a compare-and-set and whether it was confirmed.
  datatype Call = Asked(answer: Option<(Status, nat)>) | Claimed(granted: bool) | Tried(target: Status, expected: nat, ok: bool)

  // The register of a run, and every write it has had; the version counts them.
  class ControlPlane {
    var status: Status
    var version: nat
    ghost var log: seq<Write>
    ghost var claimed: set<LeaseContext>  // every lease handed out for the run
    ghost var calls: seq<Call>            // what it was asked, and how that ended for the caller

    ghost predicate Valid() reads this { log != [] && version == |log| - 1 && status == log[version].status }

    ghost predicate Safe() reads this { Valid() && LogSafe(log) }

    // Other clients may do anything to the run, at any moment.
    method Interference()
      requires Valid()
      modifies this`status, this`version, this`log
      ensures Valid() && Grew(old(log), log)
      ensures forall i :: |old(log)| <= i < |log| ==> log[i].author.Others?
    {
      var theirs: seq<Status> := *;
      for i := 0 to |theirs|
        invariant Valid() && Grew(old(log), log)
        invariant forall i :: |old(log)| <= i < |log| ==> log[i].author.Others?
      {
        status, version := theirs[i], version + 1;
        log := log + [Write(theirs[i], Others)];
      }
    }

    // The run's status and version, or no answer.
    method Get() returns (answer: Option<(Status, nat)>)
      requires Valid()
      modifies this`calls
      ensures calls == old(calls) + [Asked(answer)]
      ensures answer.Some? ==> answer.value == (log[|log| - 1].status, |log| - 1)
    {
      var reached: bool := *;
      answer := if reached then Some((status, version)) else None;
      calls := calls + [Asked(answer)];
    }

    // A new lease on the run, or none.
    method Claim() returns (lease: LeaseContext?)
      modifies this`claimed, this`calls
      ensures calls == old(calls) + [Claimed(lease != null)]
      ensures lease == null ==> claimed == old(claimed)
      ensures lease != null ==> fresh(lease) && claimed == old(claimed) + {lease}
      ensures lease != null ==> lease.Valid() && !lease.stopped && lease.history == []
    {
      var granted: bool := *;
      calls := calls + [Claimed(granted)];
      if !granted { return null; }
      lease := new LeaseContext();
      claimed := claimed + {lease};
    }

    // Compare-and-set. The write may happen although the answer is lost, and an answer need not name
    // the new version.
    method Set(target: Status, expected: nat, ghost how: How) returns (ok: bool, known: nat)
      requires Valid()
      modifies this`status, this`version, this`log, this`calls
      ensures Valid() && calls == old(calls) + [Tried(target, expected, ok)]
      ensures log == old(log) || (expected == |old(log)| - 1 && log == old(log) + [Write(target, Us(how))])
      ensures ok ==> log != old(log) && known == |log| - 1
    {
      var arrives: bool := *;
      ok, known := false, expected + 1;
      if arrives && expected == version {
        status, version := target, version + 1;
        log := log + [Write(target, Us(how))];
        ok := *;
      }
      calls := calls + [Tried(target, expected, ok)];
    }
  }

  // ---------------------------------------------------------------- what our writes respect

  // A write of ours may follow a status: never a terminal one; success and regression only out of
  // verification, success only without an error event; a partial result without verification only when a
  // failed or cancelled run could not store its graph context.
  predicate MayFollow(before: Status, w: Write) {
    w.author.Us? ==>
      && !Terminal(before)
      && match w.author.how
         case Moved => (before == Created && w.status == Planning) || w.status == Failed
         case Stepped(_) =>
           (before == Planning && w.status == Investigating) || (before == Investigating && w.status == Verifying)
         case Committed(_, errorEvent, ended, contextFailed, result) =>
           && (w.status == Success ==> before == Verifying && !errorEvent)
           && (w.status == Regressed ==> before == Verifying)
           && (w.status == Partial && before != Verifying ==> contextFailed && (ended == Failed || ended == Cancelled))
           && (if contextFailed then w.status == Partial && result.errorCode == Given(CONTEXT_FAILED)
               else w.status == ended)
  }

  const CONTEXT_FAILED := "GRAPH_CONTEXT_FINALIZE_FAILED"

  ghost predicate LogSafe(log: seq<Write>) {
    log != [] && forall i :: 0 < i < |log| ==> MayFollow(log[i - 1].status, log[i])
  }

  ghost predicate Grew(before: seq<Write>, after: seq<Write>) { |before| <= |after| && after[..|before|] == before }

  // A write was made as it says: a step or a commit at its place in the history of the lease, the move into
  // verification and every commit with the outcome known, and a commit with the normalised status and code of that
  // outcome and with whether it contained an error.
  ghost predicate Honest(w: Write, h: seq<Event>) {
    w.author.Us? ==>
      match w.author.how
      case Moved => true
      case Stepped(at) => at < |h| && h[at] == Step && (w.status == Verifying ==> OutcomeOf(h[..at]).Some?)
      case Committed(at, errorEvent, ended, contextFailed, result) =>
        && at < |h| && h[at] == Request && OutcomeOf(h[..at]).Some?
        && ended == StatusOf(OutcomeOf(h[..at]).value) && (errorEvent <==> HasError(OutcomeOf(h[..at]).value))
        && (!contextFailed ==> result.errorCode == CodeOf(OutcomeOf(h[..at]).value))
  }

  ghost predicate HonestSince(n: nat, log: seq<Write>, h: seq<Event>) {
    forall i :: n <= i < |log| ==> Honest(log[i], h)
  }

  // A write of ours replaces no terminal status, and what it says is so.
  // - A success or a regression comes out of verification, and so does a partial result, unless a failed or
  //   cancelled run could not store its graph context.
  // - Everything but a failure of the worker and the moves to planning, investigating and verifying is a commit,
  //   requested with the outcome known and right behind a check that found the lease active.
  // - A success was claimed by an investigation that returned, and without an error event.
  // - An investigation that threw is committed as failed, with its own code, unless the graph context could not be
  //   stored.
  ghost predicate Earned(before: Status, w: Write, h: seq<Event>) {
    w.author.Us? ==>
      && !Terminal(before)
      && (w.status == Success || w.status == Regressed ==> before == Verifying && w.author.how.Committed?)
      && (w.status == Planning ==> before == Created) && (w.status == Investigating ==> before == Planning)
      && (w.status == Verifying ==> before == Investigating)
      && (w.author.how.Committed? ==>
            && w.author.how.at < |h|
            && var how, past := w.author.how, h[..w.author.how.at];
               && AtBoundary(past) && LastBrain(past).Some?
               && (w.status == Partial && before != Verifying ==>
                     how.contextFailed && (how.ended == Failed || how.ended == Cancelled))
               && (w.status == Success ==>
                     LastBrain(past).value.Returned? && ReturnedSuccess(LastBrain(past).value.raw))
               && (LastBrain(past).value == Raised ==>
                     && how.ended == Failed && (w.status == Failed || (w.status == Partial && how.contextFailed))
                     && (how.result.errorCode == Given("BRAIN_EXCEPTION") || how.contextFailed)))
  }

  predicate ReturnedSuccess(raw: Raw) {
    && Says(raw, "success")
    && (raw.Mapping? && raw.events.Some? ==> Tagged("error") !in raw.events.value)
    && (raw.Listing? ==> Tagged("error") !in raw.items)
  }

  ghost predicate EarnedSince(n: nat, log: seq<Write>, h: seq<Event>) {
    forall i :: n <= i < |log| && i > 0 ==> Earned(log[i - 1].status, log[i], h)
  }

  lemma HonestIsEarned(before: Status, w: Write, h: seq<Event>)
    requires MayFollow(before, w) && Honest(w, h) && Orderly(h)
    ensures Earned(before, w, h)
  {
    if w.author.Us? && w.author.how.Committed? {
      OrderlyAt(h, w.author.how.at);
      RaisedMeans();
      StatusMeans(OutcomeOf(h[..w.author.how.at]).value);
    }
  }

  // What an execution leaves behind: writes, the history of its lease, and calls.
  datatype Progress = Progress(log: seq<Write>, history: seq<Event>, calls: seq<Call>)

  ghost function Now(cp: ControlPlane, lease: LeaseContext): Progress reads cp, lease {
    Progress(cp.log, lease.history, cp.calls)
  }

  // One stretch of work: all of it only grew, and what was written is honest.
  ghost predicate Honestly(p: Progress, q: Progress) {
    Grew(p.log, q.log) && p.history <= q.history && p.calls <= q.calls && HonestSince(|p.log|, q.log, q.history)
  }

  lemma HonestlyThen(p: Progress, q: Progress, r: Progress)
    requires Honestly(p, q) && Honestly(q, r)
    ensures Honestly(p, r)
    ensures CommittedSince(|q.log|, r.log) ==> CommittedSince(|p.log|, r.log)
    ensures Hindered(r.history, q.calls, r.calls) ==> Hindered(r.history, p.calls, r.calls)
    ensures Confirmed(q.calls, r.calls) ==> Confirmed(p.calls, r.calls)
  {
    forall i | |p.log| <= i < |r.log| ensures Honest(r.log[i], r.history) {
      if i < |q.log| {
        assert r.log[i] == q.log[i];
        HonestLater(q.log[i], q.history, r.history);
      }
    }
  }

  lemma MovesAreHonest(p: Progress, q: Progress)
    requires Grew(p.log, q.log) && OnlyMovesSince(|p.log|, q.log) && p.history <= q.history && p.calls <= q.calls
    ensures Honestly(p, q)
  {
  }

  lemma OneWriteIsHonest(p: Progress, q: Progress, w: Write)
    requires q.history == p.history && p.calls <= q.calls && (q.log == p.log || q.log == p.log + [w])
    requires Honest(w, q.history)
    ensures Honestly(p, q)
    ensures q.log != p.log && w.author.Us? && w.author.how.Committed? ==> CommittedSince(|p.log|, q.log)
  {
    if q.log != p.log { assert q.log[|p.log|] == w; }
  }

  lemma HonestLater(w: Write, h: seq<Event>, h': seq<Event>)
    requires Honest(w, h) && h <= h'
    ensures Honest(w, h')
  {
    assert forall k :: 0 <= k < |h| ==> h'[k] == h[k] && h'[..k] == h[..k];
  }

  // From a version on, we have committed nothing.
  ghost predicate OnlyMovesSince(n: nat, log: seq<Write>) {
    forall i :: n <= i < |log| && log[i].author.Us? ==> log[i].author.how.Moved?
  }

  ghost predicate CommittedSince(n: nat, log: seq<Write>) {
    exists i :: n <= i < |log| && log[i].author.Us? && log[i].author.how.Committed?
  }

  // At that version the run had that status.
  predicate KnownAt(log: seq<Write>, version: nat, status: Status) {
    version < |log| && log[version].status == status
  }

  lemma SafeAppend(log: seq<Write>, w: Write)
    requires LogSafe(log) && MayFollow(log[|log| - 1].status, w)
    ensures LogSafe(log + [w])
  {
  }

  lemma {:induction false} SafeAfterOthers(before: seq<Write>, after: seq<Write>)
    requires LogSafe(before) && Grew(before, after)
    requires forall i :: |before| <= i < |after| ==> after[i].author.Others?
    ensures LogSafe(after)
    decreases |after|
  {
    if |after| > |before| {
      var front := after[..|after| - 1];
      SafeAfterOthers(before, front);
      SafeAppend(front, after[|after| - 1]);
      assert front + [after[|after| - 1]] == after;
    }
  }

  // ---------------------------------------------------------------- the runtime

  // An accepted run as it waits for a worker: the status it was accepted in, and when that was.
  datatype Work = Work(status: Status, version: nat)

  datatype Accepted = Queueable(work: Work, lease: LeaseContext) | AlreadyTerminal | NotAccepted

  datatype Ending = Done | Error | Aborted

  // Others write and the lease is renewed.
  method Interlude(cp: ControlPlane, lease: LeaseContext)
    requires cp.Safe() && lease.Valid()
    modifies cp`status, cp`version, cp`log, lease
    ensures cp.Safe() && Grew(old(cp.log), cp.log) && OnlyMovesSince(|old(cp.log)|, cp.log)
    ensures lease.Valid() && old(lease.history) <= lease.history && lease.stopped == old(lease.stopped)
    ensures Cleared(old(lease.history)) ==> Cleared(lease.history)
    ensures SameOutcome(old(lease.history), lease.history) && LastCheck(lease.history) == LastCheck(old(lease.history))
  {
    cp.Interference();
    SafeAfterOthers(old(cp.log), cp.log);
    lease.Background();
  }

  // A compare-and-set of ours against a status known to have held at the expected version.
  method SafeSet(cp: ControlPlane, status: Status, expected: nat, ghost how: How, ghost known: Status)
    returns (ok: bool, version: nat)
    requires cp.Safe() && KnownAt(cp.log, expected, known)
    requires MayFollow(known, Write(status, Us(how)))
    modifies cp`status, cp`version, cp`log, cp`calls
    ensures cp.calls == old(cp.calls) + [Tried(status, expected, ok)]
    ensures cp.Safe() && Grew(old(cp.log), cp.log)
    ensures cp.log == old(cp.log) || cp.log == old(cp.log) + [Write(status, Us(how))]
    ensures ok ==> KnownAt(cp.log, version, status) && cp.log != old(cp.log)
  {
    ok, version := cp.Set(status, expected, how);
    if cp.log != old(cp.log) { SafeAppend(old(cp.log), Write(status, Us(how))); }
  }

  predicate Executable(status: Status) { status == Planning || status == Investigating || status == Verifying }

  // The calls an acceptance makes: it reads the run, claims a lease if the run can still be executed, and moves a
  // created run to planning. It succeeds exactly if all of them do and the lease can be bound to the request.
  ghost predicate AcceptCalls(calls: seq<Call>, binds: bool, accepted: bool) {
    && calls != [] && calls[0].Asked?
    && match calls[0].answer
       case None => |calls| == 1 && !accepted
       case Some((status, version)) =>
         if status != Created && !Executable(status) then |calls| == 1 && !accepted
         else ClaimCalls(calls[1..], status, version, binds, accepted)
  }

  ghost predicate ClaimCalls(calls: seq<Call>, status: Status, version: nat, binds: bool, accepted: bool) {
    && calls != [] && calls[0].Claimed?
    && if !calls[0].granted then |calls| == 1 && !accepted
       else if status != Created then |calls| == 1 && accepted == binds
       else |calls| == 2 && calls[1].Tried? && calls[1].target == Planning && calls[1].expected == version
            && accepted == (calls[1].ok && binds)
  }

  ghost predicate FoundEnded(calls: seq<Call>) {
    calls != [] && calls[0].Asked? && calls[0].answer.Some? && Terminal(calls[0].answer.value.0)
  }

  // A lease that was claimed is either handed on with its run or closed again.
  method Accept(cp: ControlPlane, binds: bool) returns (out: Accepted)
    requires cp.Safe()
    modifies cp
    ensures cp.Safe() && Grew(old(cp.log), cp.log)
    ensures OnlyMovesSince(|old(cp.log)|, cp.log)
    ensures old(cp.calls) <= cp.calls && AcceptCalls(cp.calls[|old(cp.calls)|..], binds, out.Queueable?)
    ensures out.AlreadyTerminal? <==> FoundEnded(cp.calls[|old(cp.calls)|..])
    ensures HandedOn(old(cp.claimed), cp.claimed, out)
    ensures forall l :: l in cp.claimed && l !in old(cp.claimed) ==> fresh(l) && (l.stopped || (out.Queueable? && out.lease == l))
    ensures out.Queueable? ==>
              && !out.lease.stopped && out.lease.Valid() && LastBrain(out.lease.history).None?
              && Executable(out.work.status) && KnownAt(cp.log, out.work.version, out.work.status)
  {
    cp.Interference();
    SafeAfterOthers(old(cp.log), cp.log);
    ghost var before := cp.calls;
    var snapshot := cp.Get();
    assert cp.calls[|before|..] == [Asked(snapshot)];
    if snapshot.None? { return NotAccepted; }
    var (status, version) := snapshot.value;
    if Terminal(status) { return AlreadyTerminal; }
    if status != Created && status != Planning && status != Investigating && status != Verifying { return NotAccepted; }
    ghost var read, asked := cp.log, cp.calls;
    out := TakeOn(cp, status, version, binds);
    GrewOn(old(cp.log), read, cp.log);
    MovesAfterMoves(|old(cp.log)|, read, cp.log);
    assert cp.calls[|before|..] == [Asked(snapshot)] + cp.calls[|asked|..];
    assert cp.calls[|before|..][1..] == cp.calls[|asked|..];
  }

  ghost predicate HandedOn(before: set<LeaseContext>, after: set<LeaseContext>, out: Accepted) {
    before <= after && (out.Queueable? ==> out.lease in after && out.lease !in before)
  }

  // Claim a lease for a run that can be executed, and get it ready.
  method TakeOn(cp: ControlPlane, status: Status, version: nat, binds: bool) returns (out: Accepted)
    requires cp.Safe() && KnownAt(cp.log, version, status) && (status == Created || Executable(status))
    modifies cp
    ensures cp.Safe() && Grew(old(cp.log), cp.log) && OnlyMovesSince(|old(cp.log)|, cp.log)
    ensures old(cp.calls) <= cp.calls
    ensures ClaimCalls(cp.calls[|old(cp.calls)|..], status, version, binds, out.Queueable?)
    ensures !out.AlreadyTerminal? && HandedOn(old(cp.claimed), cp.claimed, out)
    ensures forall l :: l in cp.claimed && l !in old(cp.claimed) ==> fresh(l) && (l.stopped || (out.Queueable? && out.lease == l))
    ensures out.Queueable? ==>
              && !out.lease.stopped && out.lease.Valid() && LastBrain(out.lease.history).None?
              && Executable(out.work.status) && KnownAt(cp.log, out.work.version, out.work.status)
  {
    ghost var before := cp.calls;
    var lease := cp.Claim();
    assert cp.calls[|before|..] == [Claimed(lease != null)];
    if lease == null { return NotAccepted; }
    ghost var asked := cp.calls;
    var bound, work := PlanAndBind(cp, lease, status, version, binds);
    assert cp.calls[|before|..] == [Claimed(true)] + cp.calls[|asked|..];
    return if bound then Queueable(work, lease) else NotAccepted;
  }

  // Whatever fails once the lease is held closes it.
  method PlanAndBind(cp: ControlPlane, lease: LeaseContext, status: Status, version: nat, binds: bool)
    returns (ok: bool, work: Work)
    requires cp.Safe() && KnownAt(cp.log, version, status) && (status == Created || Executable(status))
    requires lease.Valid() && !lease.stopped
    modifies cp`status, cp`version, cp`log, cp`calls, lease
    ensures cp.Safe() && Grew(old(cp.log), cp.log)
    ensures OnlyMovesSince(|old(cp.log)|, cp.log)
    ensures lease.Valid() && SameOutcome(old(lease.history), lease.history) && (lease.stopped <==> !ok)
    ensures PlanCalls(old(cp.calls), cp.calls, status, version) && (ok <==> binds && Planned(old(cp.calls), cp.calls))
    ensures ok ==> work.status == (if status == Created then Planning else status) && KnownAt(cp.log, work.version, work.status)
  {
    ok, work := Plan(cp, lease, status, version);
    ok := ok && binds;
    if !ok { lease.Close(); }
  }

  // A created run is moved to planning with one call, and any other with none.
  ghost predicate PlanCalls(before: seq<Call>, after: seq<Call>, status: Status, version: nat) {
    if status != Created then after == before
    else after == before + [Tried(Planning, version, true)] || after == before + [Tried(Planning, version, false)]
  }

  ghost predicate Planned(before: seq<Call>, after: seq<Call>) {
    after == before || (after != [] && after[|after| - 1].Tried? && after[|after| - 1].ok)
  }

  // A created run is moved to planning; one found further on is taken up as it is.
  method Plan(cp: ControlPlane, lease: LeaseContext, status: Status, version: nat) returns (ok: bool, work: Work)
    requires cp.Safe() && KnownAt(cp.log, version, status) && (status == Created || Executable(status))
    requires lease.Valid()
    modifies cp`status, cp`version, cp`log, cp`calls, lease
    ensures cp.Safe() && Grew(old(cp.log), cp.log)
    ensures OnlyMovesSince(|old(cp.log)|, cp.log)
    ensures lease.stopped == old(lease.stopped) && lease.Valid()
    ensures SameOutcome(old(lease.history), lease.history)
    ensures PlanCalls(old(cp.calls), cp.calls, status, version) && (ok <==> Planned(old(cp.calls), cp.calls))
    ensures ok ==> work.status == (if status == Created then Planning else status) && KnownAt(cp.log, work.version, work.status)
  {
    Interlude(cp, lease);
    ok, work := true, Work(status, version);
    if status == Created {
      var planned;
      ok, planned := SafeSet(cp, Planning, version, Moved, Created);
      work := Work(Planning, planned);
    }
  }

  // Why an execution may end in an error: the run was not to be executed, its summary could not be built, the
  // latest check did not find the lease active, or the latest call was not confirmed.
  ghost predicate Excused(work: Work, summarises: bool, h: seq<Event>, before: seq<Call>, calls: seq<Call>) {
    || !Executable(work.status)
    || !summarises
    || Hindered(h, before, calls)
  }

  // The latest check did not find the lease active, or the latest call was not confirmed.
  ghost predicate Hindered(h: seq<Event>, before: seq<Call>, calls: seq<Call>) {
    || (LastCheck(h).Some? && LastCheck(h) != Some(Active))
    || (|calls| > |before| && calls[|calls| - 1].Tried? && !calls[|calls| - 1].ok)
  }

  // What an execution that ends this way leaves behind: a commit that was confirmed, an excuse, or an investigation
  // that was cut off.
  ghost predicate Left(ending: Ending, p: Progress, q: Progress, work: Work, summarises: bool) {
    && Honestly(p, q)
    && (ending == Done ==> CommittedSince(|p.log|, q.log) && Confirmed(p.calls, q.calls))
    && (ending == Error ==> Excused(work, summarises, q.history, p.calls, q.calls))
    && (ending == Aborted ==> LastBrain(q.history) == Some(CutOff))
  }

  lemma LeftThen(ending: Ending, p: Progress, q: Progress, r: Progress, work: Work, summarises: bool)
    requires Honestly(p, q) && Left(ending, q, r, work, summarises)
    ensures Left(ending, p, r, work, summarises)
  {
    HonestlyThen(p, q, r);
  }

  ghost predicate Confirmed(before: seq<Call>, calls: seq<Call>) {
    |calls| > |before| && calls[|calls| - 1].Tried? && calls[|calls| - 1].ok
  }

  // Run the investigation and commit what it ends with. The lease is closed however this ends.
  method Execute(cp: ControlPlane, lease: LeaseContext, work: Work, summarises: bool) returns (ending: Ending)
    requires cp.Safe() && KnownAt(cp.log, work.version, work.status) && lease.Valid()
    modifies cp, lease
    ensures cp.Safe() && Left(ending, old(Now(cp, lease)), Now(cp, lease), work, summarises)
    ensures lease.Valid() && lease.stopped
  {
    ending := ExecuteBody(cp, lease, work, summarises);
    lease.Close();
  }

  method ExecuteBody(cp: ControlPlane, lease: LeaseContext, work: Work, summarises: bool) returns (ending: Ending)
    requires cp.Safe() && KnownAt(cp.log, work.version, work.status) && lease.Valid()
    modifies cp, lease
    ensures cp.Safe() && lease.Valid() && Left(ending, old(Now(cp, lease)), Now(cp, lease), work, summarises)
  {
    var alive := lease.CheckActive();
    ghost var p0, p1 := old(Now(cp, lease)), Now(cp, lease);
    MovesAreHonest(p0, p1);
    if !alive { return Error; }
    var ok, version := BeginInvestigating(cp, lease, work);
    ghost var p2 := Now(cp, lease);
    HonestlyThen(p0, p1, p2);
    if !ok { return Error; }
    var brain := Investigate(cp, lease);
    ghost var p3 := Now(cp, lease);
    HonestlyThen(p0, p2, p3);
    if brain.CutOff? { return Aborted; }
    ending := Conclude(cp, lease, work, version, RawOf(brain), summarises);
    LeftThen(ending, p0, p3, Now(cp, lease), work, summarises);
  }

  // The investigation runs only under a lease that was checked; how it ends is known from here on.
  method Investigate(cp: ControlPlane, lease: LeaseContext) returns (brain: Brain)
    requires cp.Safe() && lease.Valid() && Cleared(lease.history)
    modifies cp, lease
    ensures cp.Safe() && Honestly(old(Now(cp, lease)), Now(cp, lease))
    ensures lease.Valid()
    ensures LastBrain(lease.history) == Some(brain) && lease.history[|lease.history| - 1] == Known(brain)
    ensures cp.calls == old(cp.calls)
  {
    Interlude(cp, lease);
    ghost var p0, p1 := old(Now(cp, lease)), Now(cp, lease);
    MovesAreHonest(p0, p1);
    brain := *;
    lease.Note(Known(brain));
    MovesAreHonest(p1, Now(cp, lease));
    HonestlyThen(p0, p1, Now(cp, lease));
  }

  // What follows once the outcome is known.
  method Conclude(cp: ControlPlane, lease: LeaseContext, work: Work, known: nat, raw: Raw, summarises: bool)
    returns (ending: Ending)
    requires cp.Safe() && KnownAt(cp.log, known, if work.status == Verifying then Verifying else Investigating)
    requires lease.Valid() && OutcomeOf(lease.history) == Some(raw)
    modifies cp, lease
    ensures cp.Safe() && lease.Valid() && Left(ending, old(Now(cp, lease)), Now(cp, lease), work, summarises)
    ensures ending != Aborted
  {
    var ended, events, result := Normalize(raw);
    var alive := lease.CheckActive();
    ghost var p0, p1 := old(Now(cp, lease)), Now(cp, lease);
    MovesAreHonest(p0, p1);
    if !alive { return Error; }
    ending := VerifyAndCommit(cp, lease, work, known, ended, events, result, raw, summarises);
    LeftThen(ending, p0, p1, Now(cp, lease), work, summarises);
  }

  method VerifyAndCommit(cp: ControlPlane, lease: LeaseContext, work: Work, known: nat, ended: Status,
                         events: seq<BrainEvent>, result: Result, ghost raw: Raw, summarises: bool)
    returns (ending: Ending)
    requires cp.Safe() && KnownAt(cp.log, known, if work.status == Verifying then Verifying else Investigating)
    requires lease.Valid() && Cleared(lease.history) && OutcomeOf(lease.history) == Some(raw)
    requires events == EventsOf(raw) && ended == StatusOf(raw) && (ended == Success ==> !HasError(raw))
    requires result.errorCode == CodeOf(raw)
    modifies cp, lease
    ensures cp.Safe() && lease.Valid() && Left(ending, old(Now(cp, lease)), Now(cp, lease), work, summarises)
    ensures ending != Aborted
  {
    ghost var p0 := Now(cp, lease);
    var ok, version;
    ghost var at;
    ok, version, at := EnterVerifying(cp, lease, work.status == Verifying, known, ended);
    ghost var p1 := Now(cp, lease);
    if !ok { return Error; }
    ending := Commit(cp, lease, version, ended, result, events, work, summarises, at, raw);
    LeftThen(ending, p0, p1, Now(cp, lease), work, summarises);
  }

  lemma MovesAfterMoves(n: nat, before: seq<Write>, after: seq<Write>)
    requires n <= |before| && Grew(before, after) && OnlyMovesSince(n, before) && OnlyMovesSince(|before|, after)
    ensures OnlyMovesSince(n, after)
  {
    assert forall i :: 0 <= i < |before| ==> after[i] == before[i];
  }

  lemma GrewOn(a: seq<Write>, b: seq<Write>, c: seq<Write>)
    requires Grew(a, b) && Grew(b, c)
    ensures Grew(a, c)
  {
  }

  // A write that was noted in the lease's history is sent off.
  method Send(cp: ControlPlane, lease: LeaseContext, status: Status, expected: nat, ghost how: How, ghost known: Status)
    returns (ok: bool, version: nat)
    requires cp.Safe() && KnownAt(cp.log, expected, known) && lease.Valid()
    requires MayFollow(known, Write(status, Us(how))) && Honest(Write(status, Us(how)), lease.history)
    modifies cp, lease
    ensures cp.Safe() && Honestly(old(Now(cp, lease)), Now(cp, lease))
    ensures lease.Valid()
    ensures Cleared(old(lease.history)) ==> Cleared(lease.history)
    ensures SameOutcome(old(lease.history), lease.history)
    ensures LastCheck(lease.history) == LastCheck(old(lease.history))
    ensures cp.calls == old(cp.calls) + [Tried(status, expected, ok)]
    ensures ok ==> KnownAt(cp.log, version, status) && (how.Committed? ==> CommittedSince(|old(cp.log)|, cp.log))
  {
    Interlude(cp, lease);
    ghost var p0, p1 := old(Now(cp, lease)), Now(cp, lease);
    MovesAreHonest(p0, p1);
    HonestLater(Write(status, Us(how)), p0.history, p1.history);
    ok, version := SafeSet(cp, status, expected, how, known);
    OneWriteIsHonest(p1, Now(cp, lease), Write(status, Us(how)));
    HonestlyThen(p0, p1, Now(cp, lease));
  }

  // One step of the execution that needs the lease.
  method TakeStep(cp: ControlPlane, lease: LeaseContext, status: Status, expected: nat, ghost known: Status)
    returns (ok: bool, version: nat)
    requires cp.Safe() && KnownAt(cp.log, expected, known) && lease.Valid() && Cleared(lease.history)
    requires MayFollow(known, Write(status, Us(Stepped(0))))
    requires status == Verifying ==> OutcomeOf(lease.history).Some?
    modifies cp, lease
    ensures cp.Safe() && Honestly(old(Now(cp, lease)), Now(cp, lease))
    ensures lease.Valid() && Cleared(lease.history) && SameOutcome(old(lease.history), lease.history)
    ensures cp.calls == old(cp.calls) + [Tried(status, expected, ok)]
    ensures ok ==> KnownAt(cp.log, version, status)
  {
    ghost var p0, h := Now(cp, lease), lease.history;
    lease.Note(Step);
    ghost var p1 := Now(cp, lease);
    assert lease.history[..|h|] == h;
    MovesAreHonest(p0, p1);
    ok, version := Send(cp, lease, status, expected, Stepped(|h|), known);
    HonestlyThen(p0, p1, Now(cp, lease));
  }

  // A planned run is moved to investigating; one found there or in verification goes on as it is.
  method BeginInvestigating(cp: ControlPlane, lease: LeaseContext, work: Work)
    returns (ok: bool, version: nat)
    requires cp.Safe() && KnownAt(cp.log, work.version, work.status)
    requires lease.Valid() && Cleared(lease.history)
    modifies cp, lease
    ensures cp.Safe() && Honestly(old(Now(cp, lease)), Now(cp, lease))
    ensures lease.Valid() && Cleared(lease.history) && SameOutcome(old(lease.history), lease.history)
    ensures if work.status == Planning then cp.calls == old(cp.calls) + [Tried(Investigating, work.version, ok)]
            else cp.calls == old(cp.calls) && ok == Executable(work.status)
    ensures ok ==> KnownAt(cp.log, version, if work.status == Verifying then Verifying else Investigating)
  {
    version := work.version;
    if work.status == Planning {
      ok, version := TakeStep(cp, lease, Investigating, version, Planning);
    } else {
      ok := work.status == Investigating || work.status == Verifying;
    }
  }

  // Success, partial results and regressions pass through verification.
  method EnterVerifying(cp: ControlPlane, lease: LeaseContext, already: bool, known: nat, ended: Status)
    returns (ok: bool, version: nat, ghost at: Status)
    requires cp.Safe() && KnownAt(cp.log, known, if already then Verifying else Investigating)
    requires lease.Valid() && Cleared(lease.history) && OutcomeOf(lease.history).Some?
    modifies cp, lease
    ensures cp.Safe() && Honestly(old(Now(cp, lease)), Now(cp, lease))
    ensures lease.Valid() && Cleared(lease.history) && SameOutcome(old(lease.history), lease.history)
    ensures if !already && (ended == Success || ended == Partial || ended == Regressed)
            then cp.calls == old(cp.calls) + [Tried(Verifying, known, ok)] else cp.calls == old(cp.calls) && ok
    ensures ok ==> KnownAt(cp.log, version, at) && (at == Investigating || at == Verifying)
    ensures ok && (ended == Success || ended == Partial || ended == Regressed) ==> at == Verifying
  {
    ok, version, at := true, known, if already then Verifying else Investigating;
    if (ended == Success || ended == Partial || ended == Regressed) && !already {
      ok, version := TakeStep(cp, lease, Verifying, version, Investigating);
      at := Verifying;
    }
  }

  // Store the final graph context of a run that ends; if that fails the result is partial, and says so.
  method StoreFinalContext(lease: LeaseContext, ended: Status, result: Result)
    returns (target: Status, committed: Result, contextFailed: bool)
    requires lease.Valid() && Cleared(lease.history)
    modifies lease`history
    ensures lease.Valid() && lease.history
            == old(lease.history) + if Terminal(ended) && result.graphContext then [Step] else []
    ensures SameOutcome(old(lease.history), lease.history)
    ensures contextFailed ==> Terminal(ended) && result.graphContext && target == Partial
    ensures contextFailed ==> committed == result.(
                errorCode := Given(CONTEXT_FAILED), errorMessage := Some(PublicMessage(CONTEXT_FAILED)))
    ensures !contextFailed ==> target == ended && committed == result
  {
    target, committed, contextFailed := ended, result, false;
    if Terminal(target) && result.graphContext {
      lease.Note(Step);
      var stored: bool := *;
      if !stored {
        contextFailed := true;
        target := Partial;
        committed := committed.(errorCode := Given(CONTEXT_FAILED),
                                errorMessage := Some(PublicMessage(CONTEXT_FAILED)));
      }
    }
  }

  // The terminal boundary: store the final graph context, sum up, check the lease once more, commit.
  method Commit(cp: ControlPlane, lease: LeaseContext, version: nat, ended: Status, result: Result, events: seq<BrainEvent>,
                ghost work: Work, summarises: bool, ghost at: Status, ghost raw: Raw)
    returns (ending: Ending)
    requires cp.Safe() && KnownAt(cp.log, version, at)
    requires at == Investigating || at == Verifying
    requires ended == Success || ended == Partial || ended == Regressed ==> at == Verifying
    requires events == EventsOf(raw) && ended == StatusOf(raw) && (ended == Success ==> !HasError(raw))
    requires result.errorCode == CodeOf(raw)
    requires lease.Valid() && Cleared(lease.history) && OutcomeOf(lease.history) == Some(raw)
    modifies cp, lease
    ensures cp.Safe() && lease.Valid() && Left(ending, old(Now(cp, lease)), Now(cp, lease), work, summarises)
    ensures ending != Aborted
  {
    var target, committed, contextFailed := StoreFinalContext(lease, ended, result);
    ghost var p0, p1 := old(Now(cp, lease)), Now(cp, lease);
    MovesAreHonest(p0, p1);
    Interlude(cp, lease);
    ghost var p2 := Now(cp, lease);
    MovesAreHonest(p1, p2);
    HonestlyThen(p0, p1, p2);
    if !summarises { return Error; }
    ending := CommitUnderLease(cp, lease, target, version, AnyError(events), ended, contextFailed, committed, work, summarises, at, raw);
    LeftThen(ending, p0, p2, Now(cp, lease), work, summarises);
  }

  // The lease's own commit: it checks itself once more, right before the request.
  method CommitUnderLease(cp: ControlPlane, lease: LeaseContext, target: Status, version: nat, errorEvent: bool,
                          ended: Status, contextFailed: bool, result: Result, ghost work: Work, ghost summarises: bool,
                          ghost at: Status, ghost raw: Raw)
    returns (ending: Ending)
    requires cp.Safe() && KnownAt(cp.log, version, at)
    requires MayFollow(at, Write(target, Us(Committed(0, errorEvent, ended, contextFailed, result))))
    requires ended == StatusOf(raw) && errorEvent == HasError(raw)
    requires !contextFailed ==> result.errorCode == CodeOf(raw)
    requires lease.Valid() && OutcomeOf(lease.history) == Some(raw)
    modifies cp, lease
    ensures cp.Safe() && lease.Valid() && Left(ending, old(Now(cp, lease)), Now(cp, lease), work, summarises)
    ensures ending != Aborted && (ending == Done ==> cp.calls == old(cp.calls) + [Tried(target, version, true)])
  {
    var alive := lease.CheckActive();
    ghost var p0, p1 := old(Now(cp, lease)), Now(cp, lease);
    MovesAreHonest(p0, p1);
    if !alive { return Error; }
    var ok := RequestCommit(cp, lease, target, version, errorEvent, ended, contextFailed, result, at, raw);
    HonestlyThen(p0, p1, Now(cp, lease));
    return if ok then Done else Error;
  }

  method RequestCommit(cp: ControlPlane, lease: LeaseContext, target: Status, version: nat, ghost errorEvent: bool,
                       ghost ended: Status, ghost contextFailed: bool, ghost result: Result, ghost at: Status, ghost raw: Raw)
    returns (ok: bool)
    requires cp.Safe() && KnownAt(cp.log, version, at)
    requires MayFollow(at, Write(target, Us(Committed(0, errorEvent, ended, contextFailed, result))))
    requires ended == StatusOf(raw) && errorEvent == HasError(raw)
    requires !contextFailed ==> result.errorCode == CodeOf(raw)
    requires lease.Valid() && AtBoundary(lease.history) && OutcomeOf(lease.history) == Some(raw)
    modifies cp, lease
    ensures cp.Safe() && Honestly(old(Now(cp, lease)), Now(cp, lease))
    ensures lease.Valid() && cp.calls == old(cp.calls) + [Tried(target, version, ok)]
    ensures ok ==> CommittedSince(|old(cp.log)|, cp.log)
  {
    ghost var p0, h := Now(cp, lease), lease.history;
    lease.Note(Request);
    ghost var p1 := Now(cp, lease);
    assert lease.history[..|h|] == h;
    MovesAreHonest(p0, p1);
    var v;
    ok, v := Send(cp, lease, target, version, Committed(|h|, errorEvent, ended, contextFailed, result), at);
    HonestlyThen(p0, p1, Now(cp, lease));
  }

  // After an error: fail the run unless it has ended meanwhile, for instance because the commit went
  // through and only its answer was lost.
  method Fail(cp: ControlPlane, lease: LeaseContext)
    requires cp.Safe() && lease.Valid()
    modifies cp, lease
    ensures cp.Safe() && Grew(old(cp.log), cp.log)
    ensures OnlyMovesSince(|old(cp.log)|, cp.log)
    ensures lease.Valid() && old(lease.history) <= lease.history && lease.stopped
    ensures old(cp.calls) <= cp.calls && FailCalls(cp.calls[|old(cp.calls)|..])
  {
    Interlude(cp, lease);
    ghost var asked := cp.log;
    var snapshot := cp.Get();
    assert cp.calls[|old(cp.calls)|..] == [Asked(snapshot)];
    if snapshot.Some? && !Terminal(snapshot.value.0) {
      ghost var ok := FailFrom(cp, lease, snapshot.value.0, snapshot.value.1);
      assert cp.calls[|old(cp.calls)|..] == [Asked(snapshot), Tried(Failed, snapshot.value.1, ok)];
      GrewOn(old(cp.log), asked, cp.log);
      MovesAfterMoves(|old(cp.log)|, asked, cp.log);
    }
    lease.Close();
  }

  // The run is read, and unless that shows it ended or shows nothing, it is set to failed at the version read.
  ghost predicate FailCalls(calls: seq<Call>) {
    && calls != [] && calls[0].Asked?
    && match calls[0].answer
       case Some((status, version)) =>
         if Terminal(status) then |calls| == 1
         else |calls| == 2 && calls[1].Tried? && calls[1].target == Failed && calls[1].expected == version
       case None => |calls| == 1
  }

  method FailFrom(cp: ControlPlane, lease: LeaseContext, status: Status, version: nat) returns (ghost confirmed: bool)
    requires cp.Safe() && lease.Valid() && KnownAt(cp.log, version, status) && !Terminal(status)
    modifies cp, lease
    ensures cp.Safe() && Grew(old(cp.log), cp.log)
    ensures OnlyMovesSince(|old(cp.log)|, cp.log)
    ensures lease.Valid() && old(lease.history) <= lease.history
    ensures cp.calls == old(cp.calls) + [Tried(Failed, version, confirmed)]
  {
    Interlude(cp, lease);
    ghost var answered := cp.log;
    var ok, v := SafeSet(cp, Failed, version, Moved, status);
    confirmed := ok;
    GrewOn(old(cp.log), answered, cp.log);
    MovesAfterMoves(|old(cp.log)|, answered, cp.log);
  }

  // One piece of work on a worker: every write made on the way is one that may follow, no terminal status is
  // replaced, every success is earned, and the lease is released, whether the investigation succeeds, fails,
  // is cut off, or loses an answer.
  method RunWorker(cp: ControlPlane, lease: LeaseContext, work: Work, summarises: bool) returns (ending: Ending)
    requires cp.Safe() && KnownAt(cp.log, work.version, work.status) && lease.Valid()
    modifies cp, lease
    ensures cp.Safe() && Honestly(old(Now(cp, lease)), Now(cp, lease))
    ensures EarnedSince(|old(cp.log)|, cp.log, lease.history)
    ensures lease.Valid() && lease.stopped
    // a run is left unfinished only if it was cut off; an error is excused, and then the run is failed
    ensures ending == Done ==> CommittedSince(|old(cp.log)|, cp.log)
    ensures ending == Aborted ==> LastBrain(lease.history) == Some(CutOff)
    ensures ending == Error ==>
              exists k, h :: |old(cp.calls)| <= k <= |cp.calls| && h <= lease.history
                && Excused(work, summarises, h, old(cp.calls), cp.calls[..k]) && FailCalls(cp.calls[k..])
  {
    ending := Execute(cp, lease, work, summarises);
    ghost var p0, p1 := old(Now(cp, lease)), Now(cp, lease);
    if ending == Error {
      Fail(cp, lease);
      assert cp.calls[..|p1.calls|] == p1.calls;
      assert Excused(work, summarises, p1.history, p0.calls, cp.calls[..|p1.calls|]);
      MovesAreHonest(p1, Now(cp, lease));
      HonestlyThen(p0, p1, Now(cp, lease));
    }
    forall i | |old(cp.log)| <= i < |cp.log|
      ensures Earned(cp.log[i - 1].status, cp.log[i], lease.history)
    {
      HonestIsEarned(cp.log[i - 1].status, cp.log[i], lease.history);
    }
  }
}
