/** The event writer as a transition system over the log of Wal.dfy: failed first sends are appended
    and queued, a retry pass sends the queue one batch at a time, the log is replayed into the queue,
    and the process may stop at any step. Several goroutines take these steps in any order. */
module Writer {
  import opened Wal

  const MAX_RETRY_BATCHES := 100

  // walSeq 0 marks a batch that lives in memory only.
  datatype Batch = Batch(walSeq: nat, rows: string)

  // What a send does: accepted and known to be, refused, or accepted with the answer lost.
  datatype Reply = Accepted | Refused | AnswerLost

  datatype Pass = Idle | Sending(rest: seq<Batch>, failed: seq<Batch>)

  // waiting: appended batches whose goroutine has not yet found room in the queue.
  // accepted, durable: what ingest has taken in, and what Append reported as synced, over all time.
  datatype Writer = Writer(
    wal: State, retry: seq<Batch>, waiting: seq<Batch>, pass: Pass,
    accepted: multiset<string>, durable: multiset<string>)

  datatype Step =
    | FirstSend(rows: string, reply: Reply, at: int, io: Io)
    | Enqueue(i: nat)
    | GiveUp(i: nat)         // shutdown with a full queue
    | ReplayLog(n: nat)      // with the pending entries that were there when the log was read
    | Take
    | Send(answer: Reply)
    | Finish
    | CloseCompact           // the pass that shutdown starts finds the queue empty, whatever the other pass is doing
    | Stop                   // crash or shutdown at this point, then start again
    | StopInCompact          // the same, in the middle of a compaction

  // ---------------------------------------------------------------- replay

  predicate Queued(retry: seq<Batch>, sq: nat) { exists b :: b in retry && b.walSeq == sq }

  predicate Skipped(retry: seq<Batch>, e: Entry) {
    Queued(retry, e.sq) || |retry| >= MAX_RETRY_BATCHES || e.value.Garbled?
  }

  function Replayed(retry: seq<Batch>, entries: seq<Entry>): seq<Batch>
    decreases |entries|
  {
    if entries == [] then retry
    else
      var e := entries[0];
      Replayed(if Skipped(retry, e) then retry else retry + [Batch(e.sq, e.value.rows)], entries[1..])
  }

  // The same said at once: the batches of the log that are not queued, and how many the queue has room for.
  function Missing(retry: seq<Batch>, entries: seq<Entry>): seq<Batch>
    decreases |entries|
  {
    if entries == [] then []
    else
      var e, rest := entries[0], Missing(retry, entries[1..]);
      if Queued(retry, e.sq) || e.value.Garbled? then rest else [Batch(e.sq, e.value.rows)] + rest
  }

  function Fitting(retry: seq<Batch>, missing: seq<Batch>): seq<Batch> {
    if |retry| >= MAX_RETRY_BATCHES then []
    else if |missing| <= MAX_RETRY_BATCHES - |retry| then missing
    else missing[..MAX_RETRY_BATCHES - |retry|]
  }

  // Start-up queues every pending batch it can decode, without a bound.
  function Recovered(entries: seq<Entry>): seq<Batch> {
    if entries == [] then []
    else
      var e, front := entries[|entries| - 1], Recovered(entries[..|entries| - 1]);
      if e.value.Garbled? then front else front + [Batch(e.sq, e.value.rows)]
  }

  // ---------------------------------------------------------------- steps

  function Start(wal: State, accepted: multiset<string>, durable: multiset<string>): Writer {
    Writer(wal, Recovered(Pending(wal)), [], Idle, accepted, durable)
  }

  function Removed(s: seq<Batch>, i: nat): seq<Batch>
    requires i < |s|
  {
    s[..i] + s[i + 1..]
  }

  predicate Enabled(w: Writer, step: Step) {
    match step
    case Enqueue(i) => i < |w.waiting| && |w.retry| < MAX_RETRY_BATCHES
    case GiveUp(i) => i < |w.waiting| && |w.retry| >= MAX_RETRY_BATCHES
    case ReplayLog(n) => w.pass.Idle? && n <= |Pending(w.wal)|
    case Take => w.pass.Idle?
    case Send(_) => w.pass.Sending? && w.pass.rest != []
    case Finish => w.pass.Sending? && w.pass.rest == []
    case CloseCompact => w.retry == []
    case StopInCompact => w.pass == Sending([], []) || w.retry == []
    case _ => true
  }

  // A batch after its append: with its number if that was synced.
  function NewBatch(wal: State, rows: string, io: Io): Batch {
    Batch(if Reached(wal, io).Synced? then wal.last + 1 else 0, rows)
  }

  function Next(w: Writer, step: Step): Writer
    requires Enabled(w, step)
  {
    match step
    case FirstSend(rows, reply, at, io) =>
      var accepted := if reply.Refused? then w.accepted else w.accepted + multiset{rows};
      if reply.Accepted? then w.(accepted := accepted)
      else
        w.(accepted := accepted,
           wal := AppendStep(w.wal, "event", rows, at, io),
           durable := if Reached(w.wal, io).Synced? then w.durable + multiset{rows} else w.durable,
           waiting := w.waiting + [NewBatch(w.wal, rows, io)])
    case Enqueue(i) => w.(retry := w.retry + [w.waiting[i]], waiting := Removed(w.waiting, i))
    case GiveUp(i) => w.(waiting := Removed(w.waiting, i))
    case ReplayLog(n) => w.(retry := Replayed(w.retry, Pending(w.wal)[..n]))
    case Take => w.(retry := [], pass := Sending(w.retry, []))
    case Send(answer) =>
      var b, rest := w.pass.rest[0], w.pass.rest[1..];
      var accepted := if answer.Refused? then w.accepted else w.accepted + multiset{b.rows};
      if answer.Accepted? then
        w.(accepted := accepted, pass := Sending(rest, w.pass.failed),
           wal := if b.walSeq > 0 then AckStep(w.wal, b.walSeq) else w.wal)
      else w.(accepted := accepted, pass := Sending(rest, w.pass.failed + [b]))
    case Finish =>
      if w.pass.failed != [] then w.(retry := w.pass.failed + w.retry, pass := Idle)
      else w.(wal := CompactStep(w.wal), pass := Idle)
    case CloseCompact => w.(wal := CompactStep(w.wal))
    case Stop => Start(Apply(w.wal, Restart), w.accepted, w.durable)
    case StopInCompact => Start(Apply(w.wal, CrashInCompact), w.accepted, w.durable)
  }

  // The log's own conditions, read off the writer's step.
  ghost predicate StepAdmissible(w: Writer, step: Step)
    requires Enabled(w, step)
  {
    match step
    case Send(answer) =>
      answer.Accepted? && w.pass.rest[0].walSeq > 0 ==> AckAllowed(w.wal, w.pass.rest[0].walSeq)
    case StopInCompact => Admissible(w.wal, CrashInCompact)
    case _ => true
  }

  // ---------------------------------------------------------------- invariant

  function RowsIn(e: Entry): multiset<string> {
    match e.value case Encoded(rows) => multiset{rows} case Garbled => multiset{}
  }

  function RowsOf(log: seq<Entry>): multiset<string> {
    if log == [] then multiset{} else RowsOf(log[..|log| - 1]) + RowsIn(log[|log| - 1])
  }

  function Held(w: Writer): multiset<Batch> {
    multiset(w.retry) + multiset(w.waiting) +
    match w.pass case Idle => multiset{} case Sending(rest, failed) => multiset(rest) + multiset(failed)
  }

  // A batch in memory carries the rows stored under its number.
  ghost predicate Matches(wal: State, b: Batch) {
    b.walSeq <= wal.last && forall e :: e in Pending(wal) && e.sq == b.walSeq ==> e.value == Encoded(b.rows)
  }

  // Every batch that was ever durably appended has reached ingest or can still be read from the log,
  // counted with multiplicity.
  ghost predicate AtLeastOnce(w: Writer) {
    w.durable <= w.accepted + RowsOf(Pending(w.wal))
  }

  ghost predicate Good(w: Writer) {
    && Valid(w.wal)
    && (forall b :: b in Held(w) ==> Matches(w.wal, b))
    && AtLeastOnce(w)
  }

  // The log holds this batch.
  ghost predicate Stored(entries: seq<Entry>, b: Batch) {
    exists e :: e in entries && e.sq == b.walSeq && e.value == Encoded(b.rows)
  }

  // ---------------------------------------------------------------- lemmas about rows and queues

  lemma {:induction false} WithoutMembers(log: seq<Entry>, sq: nat)
    ensures forall e :: e in Without(log, sq) <==> e in log && e.sq != sq
    ensures (forall e :: e in log ==> e.sq != sq) ==> Without(log, sq) == log
  {
    if log != [] {
      var front, e := log[..|log| - 1], log[|log| - 1];
      assert log == front + [e];
      WithoutMembers(front, sq);
    }
  }

  // Taking out an entry takes out its rows once.
  lemma {:induction false} RowsOfWithout(log: seq<Entry>, e: Entry)
    requires Increasing(log) && e in log
    ensures RowsOf(log) == RowsOf(Without(log, e.sq)) + RowsIn(e)
  {
    var front, last := log[..|log| - 1], log[|log| - 1];
    assert log == front + [last];
    if e == last {
      LastSeqBounds(front);
      WithoutMembers(front, e.sq);
      assert Without(log, e.sq) == front;
    } else {
      LastSeqBounds(front);
      assert Without(log, e.sq) == Without(front, e.sq) + [last];
      RowsOfWithout(front, e);
      RowsOfSnoc(Without(front, e.sq), last);
    }
  }

  lemma RowsOfSnoc(log: seq<Entry>, e: Entry)
    ensures RowsOf(log + [e]) == RowsOf(log) + RowsIn(e)
  {
    assert (log + [e])[..|log|] == log;
  }

  lemma {:induction false} RecoveredExact(entries: seq<Entry>)
    requires Increasing(entries)
    ensures forall b :: b in Recovered(entries) <==> Stored(entries, b)
    ensures forall b :: b in Recovered(entries) ==> multiset(Recovered(entries))[b] == 1
  {
    if entries != [] {
      var front, e := entries[..|entries| - 1], entries[|entries| - 1];
      assert entries == front + [e];
      RecoveredExact(front);
      LastSeqBounds(front);
      StoredSnoc(front, e);
      if e.value.Encoded? {
        var b := Batch(e.sq, e.value.rows);
        assert b !in Recovered(front);
        assert multiset(Recovered(front) + [b]) == multiset(Recovered(front)) + multiset{b};
      }
    }
  }

  // Batches in the order of their numbers.
  ghost predicate Rising(bs: seq<Batch>) { forall i, j :: 0 <= i < j < |bs| ==> bs[i].walSeq < bs[j].walSeq }

  ghost predicate NumbersWithin(bs: seq<Batch>, low: nat, high: nat) {
    forall i :: 0 <= i < |bs| ==> low <= bs[i].walSeq <= high
  }

  // Start-up queues them so.
  lemma {:induction false} RecoveredRises(entries: seq<Entry>)
    requires Increasing(entries)
    ensures Rising(Recovered(entries)) && NumbersWithin(Recovered(entries), 0, LastSeq(entries))
  {
    if entries != [] {
      var front, e := entries[..|entries| - 1], entries[|entries| - 1];
      RecoveredRises(front);
      RisingSnoc(Recovered(front), e, LastSeq(front));
    }
  }

  lemma RisingSnoc(bs: seq<Batch>, e: Entry, bound: nat)
    requires Rising(bs) && NumbersWithin(bs, 0, bound) && bound < e.sq
    ensures NumbersWithin(bs, 0, e.sq)
    ensures e.value.Encoded? ==> var bs' := bs + [Batch(e.sq, e.value.rows)]; Rising(bs') && NumbersWithin(bs', 0, e.sq)
  {
  }

  lemma StoredSnoc(front: seq<Entry>, e: Entry)
    ensures forall b :: Stored(front + [e], b) <==>
              Stored(front, b) || (e.value.Encoded? && b == Batch(e.sq, e.value.rows))
  {
    assert e in front + [e];
    assert forall x :: x in front ==> x in front + [e];
  }

  // ---------------------------------------------------------------- replay

  // Replaying keeps the queue as it is and adds pending batches behind it.
  lemma {:induction false} ReplayAddsStored(retry: seq<Batch>, entries: seq<Entry>)
    ensures retry <= Replayed(retry, entries)
    ensures forall i :: |retry| <= i < |Replayed(retry, entries)| ==> Stored(entries, Replayed(retry, entries)[i])
    decreases |entries|
  {
    if entries != [] {
      var e, rest, r := entries[0], entries[1..], Replayed(retry, entries);
      var retry' := if Skipped(retry, e) then retry else retry + [Batch(e.sq, e.value.rows)];
      ReplayAddsStored(retry', rest);
      assert entries == [e] + rest;
      forall i | |retry| <= i < |r| ensures Stored(entries, r[i]) {
        if i < |retry'| {
          assert e in entries;
        } else {
          var x :| x in rest && x.sq == r[i].walSeq && x.value == Encoded(r[i].rows);
          assert x in entries;
        }
      }
    }
  }

  // It never queues a number twice.
  lemma {:induction false} ReplayAddsNoDuplicate(retry: seq<Batch>, entries: seq<Entry>)
    ensures var r := Replayed(retry, entries);
            forall i, j :: 0 <= i < j < |r| && |retry| <= j ==> r[i].walSeq != r[j].walSeq
    decreases |entries|
  {
    if entries != [] {
      var e, rest, r := entries[0], entries[1..], Replayed(retry, entries);
      var retry' := if Skipped(retry, e) then retry else retry + [Batch(e.sq, e.value.rows)];
      ReplayAddsStored(retry', rest);
      ReplayAddsNoDuplicate(retry', rest);
      forall i, j | 0 <= i < j < |r| && |retry| <= j ensures r[i].walSeq != r[j].walSeq {
        if j < |retry'| { assert r[i] == retry[i] && retry[i] in retry && r[j].walSeq == e.sq; }
      }
    }
  }

  // If it stops short of the limit, every decodable entry is queued.
  lemma {:induction false} ReplayComplete(retry: seq<Batch>, entries: seq<Entry>)
    requires |Replayed(retry, entries)| < 100
    ensures forall e :: e in entries && e.value.Encoded? ==> Queued(Replayed(retry, entries), e.sq)
    decreases |entries|
  {
    if entries != [] {
      var e, rest, r := entries[0], entries[1..], Replayed(retry, entries);
      var retry' := if Skipped(retry, e) then retry else retry + [Batch(e.sq, e.value.rows)];
      ReplayAddsStored(retry, entries);
      ReplayAddsStored(retry', rest);
      ReplayComplete(retry', rest);
      assert entries == [e] + rest;
      if e.value.Encoded? {
        if !Skipped(retry, e) { assert retry'[|retry|] in retry'; }
        var b :| b in retry' && b.walSeq == e.sq;
        var k :| 0 <= k < |retry'| && retry'[k] == b;
        assert r[k] in r;
      }
    }
  }

  lemma {:induction false} ReplayNothing(retry: seq<Batch>, entries: seq<Entry>)
    requires forall e :: e in entries ==> Skipped(retry, e)
    ensures Replayed(retry, entries) == retry
    decreases |entries|
  {
    if entries != [] {
      assert entries[0] in entries;
      ReplayNothing(retry, entries[1..]);
    }
  }

  // Replaying twice is replaying once.
  lemma ReplayIdempotent(retry: seq<Batch>, entries: seq<Entry>)
    ensures Replayed(Replayed(retry, entries), entries) == Replayed(retry, entries)
  {
    if |Replayed(retry, entries)| < MAX_RETRY_BATCHES { ReplayComplete(retry, entries); }
    ReplayNothing(Replayed(retry, entries), entries);
  }

  // A replay queues exactly the batches that are missing, oldest first, as far as there is room.
  lemma {:induction false} ReplayExact(retry: seq<Batch>, entries: seq<Entry>)
    requires forall i, j :: 0 <= i < j < |entries| ==> entries[i].sq != entries[j].sq
    ensures Replayed(retry, entries) == retry + Fitting(retry, Missing(retry, entries))
    decreases |entries|
  {
    if entries != [] {
      var e, rest := entries[0], entries[1..];
      ReplayExact(if Skipped(retry, e) then retry else retry + [Batch(e.sq, e.value.rows)], rest);
      if !Skipped(retry, e) {
        MissingOther(retry, Batch(e.sq, e.value.rows), rest);
        FittingFirst(retry, Batch(e.sq, e.value.rows), Missing(retry, rest));
      }
    }
  }

  lemma FittingFirst(retry: seq<Batch>, b: Batch, missing: seq<Batch>)
    requires |retry| < MAX_RETRY_BATCHES
    ensures retry + Fitting(retry, [b] + missing) == retry + [b] + Fitting(retry + [b], missing)
  {
    assert Fitting(retry, [b] + missing) == [b] + Fitting(retry + [b], missing);
  }

  lemma {:induction false} MissingOther(retry: seq<Batch>, b: Batch, entries: seq<Entry>)
    requires forall i :: 0 <= i < |entries| ==> entries[i].sq != b.walSeq
    ensures Missing(retry + [b], entries) == Missing(retry, entries)
    decreases |entries|
  {
    if entries != [] {
      MissingOther(retry, b, entries[1..]);
      QueuedSnoc(retry, b);
    }
  }

  lemma QueuedSnoc(retry: seq<Batch>, b: Batch)
    ensures forall sq :: Queued(retry + [b], sq) <==> Queued(retry, sq) || sq == b.walSeq
  {
    assert b in retry + [b];
    assert forall x :: x in retry ==> x in retry + [b];
  }

  // It fills the queue up to a hundred batches at most, in the order of their numbers.
  lemma ReplayBounded(retry: seq<Batch>, entries: seq<Entry>)
    requires Increasing(entries)
    ensures var r := Replayed(retry, entries); |retry| <= |r| && (|r| == |retry| || |r| <= 100) && Rising(r[|retry|..])
  {
    forall i, j | 0 <= i < j < |entries| ensures entries[i].sq < entries[j].sq { IncreasingAt(entries, i, j); }
    ReplayExact(retry, entries);
    MissingRises(retry, entries, 0);
    assert Replayed(retry, entries)[|retry|..] == Fitting(retry, Missing(retry, entries));
  }

  lemma {:induction false} MissingRises(retry: seq<Batch>, entries: seq<Entry>, low: nat)
    requires forall i, j :: 0 <= i < j < |entries| ==> entries[i].sq < entries[j].sq
    requires forall i :: 0 <= i < |entries| ==> low <= entries[i].sq
    ensures Rising(Missing(retry, entries))
    ensures forall i :: 0 <= i < |Missing(retry, entries)| ==> low <= Missing(retry, entries)[i].walSeq
    decreases |entries|
  {
    if entries != [] {
      var e, rest := entries[0], entries[1..];
      MissingRises(retry, rest, e.sq + 1);
      RisingCons(Missing(retry, rest), e);
    }
  }

  lemma RisingCons(bs: seq<Batch>, e: Entry)
    requires Rising(bs) && forall i :: 0 <= i < |bs| ==> e.sq < bs[i].walSeq
    ensures e.value.Encoded? ==> Rising([Batch(e.sq, e.value.rows)] + bs)
  {
  }

  // Between the reading of the log and the replay other goroutines append and queue, which only makes the
  // log longer.
  lemma OthersOnlyExtendLog(w: Writer, step: Step)
    requires Good(w) && Enabled(w, step) && (step.FirstSend? || step.Enqueue? || step.GiveUp?)
    ensures Pending(w.wal) <= Pending(Next(w, step).wal)
  {
    if step.FirstSend? { AppendedToLog(w.wal, step.rows, step.at, step.io); }
  }

  // ---------------------------------------------------------------- one step

  lemma StoredMatches(wal: State, b: Batch)
    requires Valid(wal) && Stored(Pending(wal), b)
    ensures Matches(wal, b)
    ensures 0 < b.walSeq <= LastSeq(wal.file)
  {
    UnackedExact(wal.file, wal.consecutive, wal.acked);
    LastSeqBounds(wal.file);
    var e :| e in Pending(wal) && e.sq == b.walSeq && e.value == Encoded(b.rows);
    forall x | x in Pending(wal) && x.sq == b.walSeq ensures x.value == Encoded(b.rows) {
      SameSeqSameEntry(wal.file, x, e);
    }
  }

  lemma MatchesKept(wal: State, wal': State, b: Batch)
    requires Matches(wal, b)
    requires wal'.last >= wal.last
    requires forall e :: e in Pending(wal') ==> e in Pending(wal) || e.sq > wal.last
    ensures Matches(wal', b)
  {
  }

  // A first send that fails leaves its rows in the log, and the counting still holds.
  lemma FirstSendKeepsGood(w: Writer, rows: string, reply: Reply, at: int, io: Io)
    requires Good(w)
    ensures Good(Next(w, FirstSend(rows, reply, at, io)))
  {
    if !reply.Accepted? {
      StepKeepsValid(w.wal, Append("event", rows, at, io));
      HeldAfterFirstSend(w, rows, reply, at, io);
      forall x | x in Held(w) ensures Matches(AppendStep(w.wal, "event", rows, at, io), x) {
        AppendKeepsMatches(w.wal, rows, at, io, x);
      }
      NewBatchMatches(w.wal, rows, at, io);
    }
    CountsAfterFirstSend(w, rows, reply, at, io);
  }

  lemma AppendKeepsMatches(wal: State, rows: string, at: int, io: Io, b: Batch)
    requires Valid(wal) && Matches(wal, b)
    ensures Matches(AppendStep(wal, "event", rows, at, io), b)
  {
    AppendedToLog(wal, rows, at, io);
  }

  lemma NewBatchMatches(wal: State, rows: string, at: int, io: Io)
    requires Valid(wal)
    ensures Matches(AppendStep(wal, "event", rows, at, io), NewBatch(wal, rows, io))
  {
    AppendedToLog(wal, rows, at, io);
    var after := AppendStep(wal, "event", rows, at, io);
    AppendIsFresh(after);
    IncreasingPositive(Pending(after));
    forall x | x in Pending(after) && x.sq == NewBatch(wal, rows, io).walSeq ensures x.value == Encoded(rows) {
      assert x !in Pending(wal) && x == NewEntry(wal, "event", rows, at);
    }
  }

  lemma HeldAfterFirstSend(w: Writer, rows: string, reply: Reply, at: int, io: Io)
    requires !reply.Accepted?
    ensures Held(Next(w, FirstSend(rows, reply, at, io)))
         == Held(w) + multiset{NewBatch(w.wal, rows, io)}
  {
    var b, w' := NewBatch(w.wal, rows, io), Next(w, FirstSend(rows, reply, at, io));
    assert w'.waiting == w.waiting + [b] && w'.retry == w.retry && w'.pass == w.pass;
    assert multiset(w'.waiting) == multiset(w.waiting) + multiset{b};
  }

  lemma CountsAfterFirstSend(w: Writer, rows: string, reply: Reply, at: int, io: Io)
    requires Valid(w.wal) && AtLeastOnce(w)
    ensures AtLeastOnce(Next(w, FirstSend(rows, reply, at, io)))
  {
    AppendedToLog(w.wal, rows, at, io);
  }

  // What an append does to the pending log and to the rows in it.
  lemma AppendedToLog(wal: State, rows: string, at: int, io: Io)
    requires Valid(wal)
    ensures var wal', e := AppendStep(wal, "event", rows, at, io), NewEntry(wal, "event", rows, at);
            && Valid(wal') && wal'.last == wal.last + 1
            && Pending(wal') == (if Reached(wal, io).NotWritten? then Pending(wal) else Pending(wal) + [e])
            && RowsOf(Pending(wal')) == (if Reached(wal, io).NotWritten? then RowsOf(Pending(wal)) else RowsOf(Pending(wal)) + multiset{rows})
            && (forall x :: x in Pending(wal) ==> x.sq <= wal.last)
  {
    StepRefines(wal, Append("event", rows, at, io));
    StepKeepsValid(wal, Append("event", rows, at, io));
    AppendIsFresh(wal);
    RowsOfSnoc(Pending(wal), NewEntry(wal, "event", rows, at));
  }

  // What an acknowledgement does to them.
  lemma AckedInLog(wal: State, sq: nat)
    requires Valid(wal)
    ensures var wal' := AckStep(wal, sq);
            && wal'.last == wal.last
            && (forall e :: e in Pending(wal') <==> e in Pending(wal) && e.sq != sq)
            && ((forall e :: e in Pending(wal) ==> e.sq != sq) ==> Pending(wal') == Pending(wal))
            && (forall e :: e in Pending(wal) && e.sq == sq && e.value.Encoded? ==>
                  RowsOf(Pending(wal)) == RowsOf(Pending(wal')) + multiset{e.value.rows})
  {
    StepRefines(wal, Ack(sq));
    AppendIsFresh(wal);
    WithoutMembers(Pending(wal), sq);
    forall e | e in Pending(wal) && e.sq == sq && e.value.Encoded?
      ensures RowsOf(Pending(wal)) == RowsOf(Pending(AckStep(wal, sq))) + multiset{e.value.rows}
    {
      RowsOfWithout(Pending(wal), e);
    }
  }

  // Compaction, restart and a crash inside a compaction leave the pending log alone.
  lemma SilentInLog(wal: State, op: Op)
    requires Valid(wal) && (op.Compact? || op.Restart? || op.CrashInCompact?)
    ensures Pending(Apply(wal, op)) == Pending(wal)
    ensures Valid(Apply(wal, op)) <==> Admissible(wal, op)
    ensures op.Compact? ==> Apply(wal, op).last == wal.last
  {
    StepRefines(wal, op);
    StepKeepsValid(wal, op);
  }

  // A send takes the first batch of the pass out of memory if it went through, else moves it over.
  lemma HeldAfterSend(w: Writer, answer: Reply)
    requires Enabled(w, Send(answer))
    ensures w.pass.rest[0] in Held(w)
    ensures Held(w) == Held(Next(w, Send(answer))) + if answer.Accepted? then multiset{w.pass.rest[0]} else multiset{}
  {
    assert w.pass.rest == [w.pass.rest[0]] + w.pass.rest[1..];
  }

  lemma CountsAfterSend(w: Writer, answer: Reply)
    requires Valid(w.wal) && AtLeastOnce(w) && Enabled(w, Send(answer)) && Matches(w.wal, w.pass.rest[0])
    ensures AtLeastOnce(Next(w, Send(answer)))
  {
    var b, w' := w.pass.rest[0], Next(w, Send(answer));
    AckedInLog(w.wal, b.walSeq);
    if e :| answer.Accepted? && b.walSeq > 0 && e in Pending(w.wal) && e.sq == b.walSeq {
      assert e.value == Encoded(b.rows);
      assert w'.accepted + RowsOf(Pending(w'.wal)) == w.accepted + RowsOf(Pending(w.wal));
    } else {
      assert Pending(w'.wal) == Pending(w.wal) && w.accepted <= w'.accepted;
    }
  }

  lemma SendKeepsGood(w: Writer, answer: Reply)
    requires Good(w) && Enabled(w, Send(answer))
    ensures Good(Next(w, Send(answer))) <==> StepAdmissible(w, Send(answer))
  {
    var w', sq := Next(w, Send(answer)), w.pass.rest[0].walSeq;
    HeldAfterSend(w, answer);
    CountsAfterSend(w, answer);
    StepKeepsValid(w.wal, Ack(sq));
    AckedInLog(w.wal, sq);
    forall x | x in Held(w') ensures Matches(w'.wal, x) { MatchesKept(w.wal, w'.wal, x); }
  }

  lemma RestartKeepsGood(w: Writer, op: Op)
    requires Good(w) && (op.Restart? || op.CrashInCompact?)
    ensures Good(Start(Apply(w.wal, op), w.accepted, w.durable)) <==> Admissible(w.wal, op)
  {
    SilentInLog(w.wal, op);
    var wal := Apply(w.wal, op);
    if Admissible(w.wal, op) {
      AppendIsFresh(wal);
      RecoveredExact(Pending(wal));
      forall b | b in Recovered(Pending(wal)) ensures Matches(wal, b) { StoredMatches(wal, b); }
    }
  }

  lemma FinishKeepsGood(w: Writer)
    requires Good(w) && Enabled(w, Finish)
    ensures Good(Next(w, Finish))
  {
    HeldAfterFinish(w);
    CompactedIsGood(w, Next(w, Finish));
  }

  // Compacting the log, at whatever moment, keeps it too.
  lemma CloseCompactKeepsGood(w: Writer)
    requires Good(w) && Enabled(w, CloseCompact)
    ensures Good(Next(w, CloseCompact))
  {
    assert Held(Next(w, CloseCompact)) == Held(w);
    CompactedIsGood(w, Next(w, CloseCompact));
  }

  lemma CompactedIsGood(w: Writer, w': Writer)
    requires Good(w) && Held(w') == Held(w) && w'.accepted == w.accepted && w'.durable == w.durable
    requires w'.wal == w.wal || w'.wal == CompactStep(w.wal)
    ensures Good(w')
  {
    SilentInLog(w.wal, Compact);
    forall x | x in Held(w') ensures Matches(w'.wal, x) { assert x in Held(w); MatchesKept(w.wal, w'.wal, x); }
  }

  lemma QueueStepKeepsGood(w: Writer, step: Step)
    requires Good(w) && Enabled(w, step) && (step.Enqueue? || step.GiveUp? || step.Take?)
    ensures Good(Next(w, step))
    ensures Held(Next(w, step)) <= Held(w)
  {
    HeldAfterQueueStep(w, step);
  }

  lemma HeldAfterQueueStep(w: Writer, step: Step)
    requires Enabled(w, step) && (step.Enqueue? || step.GiveUp? || step.Take?)
    ensures Held(w) == Held(Next(w, step)) + if step.GiveUp? then multiset{w.waiting[step.i]} else multiset{}
    ensures Next(w, step).wal == w.wal && Next(w, step).accepted == w.accepted && Next(w, step).durable == w.durable
  {
    match step
    case Take =>
    case Enqueue(i) =>
      RemovedOne(w.waiting, i);
      assert multiset(w.retry + [w.waiting[i]]) == multiset(w.retry) + multiset{w.waiting[i]};
    case GiveUp(i) => RemovedOne(w.waiting, i);
  }

  // As long as the process lives, a batch leaves memory only when ingest has accepted it, or when it is
  // given up at shutdown because the queue is full; a replay only adds.
  lemma MemoryLedger(w: Writer, step: Step)
    requires Valid(w.wal) && Enabled(w, step) && !step.Stop? && !step.StopInCompact?
    ensures step == Send(Accepted) ==> Held(w) == Held(Next(w, step)) + multiset{w.pass.rest[0]}
    ensures step.GiveUp? ==> Held(w) == Held(Next(w, step)) + multiset{w.waiting[step.i]}
    ensures step != Send(Accepted) && !step.GiveUp? ==> Held(w) <= Held(Next(w, step))
    ensures step.Enqueue? || step.Take? || step.Finish? || step.CloseCompact? ==> Held(w) == Held(Next(w, step))
  {
    match step
    case FirstSend(rows, reply, at, io) =>
      if !reply.Accepted? { HeldAfterFirstSend(w, rows, reply, at, io); }
    case Send(answer) => HeldAfterSend(w, answer);
    case ReplayLog(n) => ReplayAdds(w, n);
    case Finish => HeldAfterFinish(w);
    case CloseCompact =>
    case _ => HeldAfterQueueStep(w, step);
  }

  lemma HeldAfterFinish(w: Writer)
    requires Enabled(w, Finish)
    ensures Held(Next(w, Finish)) == Held(w)
  {
  }

  lemma RemovedOne(s: seq<Batch>, i: nat)
    requires i < |s|
    ensures multiset(s) == multiset(Removed(s, i)) + multiset{s[i]}
  {
    assert s == s[..i] + [s[i]] + s[i + 1..];
  }

  // What a replay puts into the queue.
  function Added(w: Writer, n: nat): seq<Batch>
    requires Enabled(w, ReplayLog(n))
  {
    Fitting(w.retry, Missing(w.retry, Pending(w.wal)[..n]))
  }

  // It adds pending batches the queue did not have, each of them once.
  lemma ReplayAdds(w: Writer, n: nat)
    requires Valid(w.wal) && Enabled(w, ReplayLog(n))
    ensures var w', added := Next(w, ReplayLog(n)), Added(w, n);
            && w' == w.(retry := w.retry + added) && Held(w') == Held(w) + multiset(added)
            && forall x :: x in added ==> x !in w.retry && Stored(Pending(w.wal), x) && multiset(added)[x] == 1
  {
    var entries := Pending(w.wal)[..n];
    AppendIsFresh(w.wal);
    forall i, j | 0 <= i < j < |entries| ensures entries[i].sq != entries[j].sq { IncreasingAt(Pending(w.wal), i, j); }
    ReplayExact(w.retry, entries);
    AddedAreNew(w.retry, Added(w, n), entries);
    forall x | x in Added(w, n) ensures Stored(Pending(w.wal), x) {
      var e :| e in entries && e.sq == x.walSeq && e.value == Encoded(x.rows);
      assert e in Pending(w.wal);
    }
  }

  lemma AddedAreNew(retry: seq<Batch>, added: seq<Batch>, entries: seq<Entry>)
    requires Replayed(retry, entries) == retry + added
    ensures forall x :: x in added ==> x !in retry && Stored(entries, x) && multiset(added)[x] == 1
  {
    var r := retry + added;
    ReplayAddsStored(retry, entries);
    ReplayAddsNoDuplicate(retry, entries);
    forall j | 0 <= j < |added| ensures added[j] !in retry && Stored(entries, added[j]) {
      assert r[|retry| + j] == added[j];
      forall i | 0 <= i < |retry| ensures retry[i] != added[j] { assert r[i] == retry[i]; }
    }
    forall i, j | 0 <= i < j < |added| ensures added[i] != added[j] {
      assert r[|retry| + i].walSeq != r[|retry| + j].walSeq;
    }
    OnceEach(added);
  }

  lemma ReplayKeepsGood(w: Writer, n: nat)
    requires Good(w) && Enabled(w, ReplayLog(n))
    ensures Good(Next(w, ReplayLog(n)))
  {
    ReplayAdds(w, n);
    forall x | x in Added(w, n) ensures Matches(w.wal, x) { StoredMatches(w.wal, x); }
  }

  // A step keeps the invariant exactly when the log allows it.
  lemma StepKeepsGood(w: Writer, step: Step)
    requires Good(w) && Enabled(w, step)
    ensures Good(Next(w, step)) <==> StepAdmissible(w, step)
  {
    match step
    case FirstSend(rows, reply, at, io) => FirstSendKeepsGood(w, rows, reply, at, io);
    case Send(answer) => SendKeepsGood(w, answer);
    case Finish => FinishKeepsGood(w);
    case CloseCompact => CloseCompactKeepsGood(w);
    case Stop => RestartKeepsGood(w, Restart);
    case StopInCompact => RestartKeepsGood(w, CrashInCompact);
    case ReplayLog(n) => ReplayKeepsGood(w, n);
    case _ => QueueStepKeepsGood(w, step);
  }

  lemma OthersKeepEntries(w: Writer, step: Step)
    requires Good(w) && Enabled(w, step) && !step.Send?
    ensures forall e :: e in Pending(w.wal) ==> e in Pending(Next(w, step).wal)
  {
    match step
    case FirstSend(rows, reply, at, io) => AppendedToLog(w.wal, rows, at, io);
    case Finish => SilentInLog(w.wal, Compact);
    case CloseCompact => SilentInLog(w.wal, Compact);
    case Stop => SilentInLog(w.wal, Restart);
    case StopInCompact => SilentInLog(w.wal, CrashInCompact);
    case _ =>
  }

  // An entry leaves the pending log only in the step in which ingest accepted its rows.
  lemma OnlyAcceptedLeave(w: Writer, step: Step, e: Entry)
    requires Good(w) && Enabled(w, step)
    requires e in Pending(w.wal) && e !in Pending(Next(w, step).wal)
    ensures step == Send(Accepted) && e.value == Encoded(w.pass.rest[0].rows)
    ensures Next(w, step).accepted == w.accepted + multiset{w.pass.rest[0].rows}
  {
    if step.Send? {
      HeldAfterSend(w, step.answer);
      AckedInLog(w.wal, w.pass.rest[0].walSeq);
    } else {
      OthersKeepEntries(w, step);
    }
  }

  // ---------------------------------------------------------------- the steps, spelled out

  // A first send that is accepted needs nothing more. After any other its rows are appended and the batch waits for
  // the queue, with the next number if the append was synced and else with none.
  lemma FirstSendMeans(w: Writer, rows: string, reply: Reply, at: int, io: Io)
    ensures var w' := Next(w, FirstSend(rows, reply, at, io));
            var sq := if io == Synced && !w.wal.stuck then w.wal.last + 1 else 0;
            && w'.retry == w.retry && w'.pass == w.pass
            && (reply == Accepted ==> w'.wal == w.wal && w'.waiting == w.waiting)
            && (reply != Accepted ==> w'.wal == AppendStep(w.wal, "event", rows, at, io))
            && (reply != Accepted ==> w'.waiting == w.waiting + [Batch(sq, rows)])
            && w'.accepted == (if reply == Refused then w.accepted else w.accepted + multiset{rows})
            && w'.durable == (if reply != Accepted && sq > 0 then w.durable + multiset{rows} else w.durable)
  {
  }

  // A send of a pass takes the batch in front. If it is accepted and has a number, that number is acknowledged and
  // no entry with it is read any more; if it is not, the batch goes behind the others that failed.
  lemma SendMeans(w: Writer, answer: Reply)
    requires Good(w) && Enabled(w, Send(answer))
    ensures var w', b := Next(w, Send(answer)), w.pass.rest[0];
            && w'.retry == w.retry && w'.waiting == w.waiting && w'.durable == w.durable
            && w'.pass == Sending(w.pass.rest[1..], if answer == Accepted then w.pass.failed else w.pass.failed + [b])
            && w'.accepted == (if answer == Refused then w.accepted else w.accepted + multiset{b.rows})
            && (answer != Accepted ==> w'.wal == w.wal)
            && (answer == Accepted ==> forall e :: e in Pending(w'.wal) <==> e in Pending(w.wal) && e.sq != b.walSeq)
  {
    var b := w.pass.rest[0];
    AckedInLog(w.wal, b.walSeq);
    AppendIsFresh(w.wal);
    IncreasingPositive(Pending(w.wal));
  }

  // The queue is served first in, first out, and holds at most a hundred batches before another may enter. A pass
  // takes all of it; what failed goes back in front, and only a pass without failures compacts the log.
  lemma QueueMeans(w: Writer, step: Step)
    requires Valid(w.wal) && Enabled(w, step) && !step.FirstSend? && !step.Send?
    ensures step.Enqueue? ==> |w.retry| < 100 && Next(w, step).retry == w.retry + [w.waiting[step.i]]
    ensures step.Enqueue? || step.GiveUp? ==>
              Next(w, step).waiting == w.waiting[..step.i] + w.waiting[step.i + 1..] && Next(w, step).wal == w.wal
    ensures step.GiveUp? ==> |w.retry| >= 100 && Next(w, step).retry == w.retry
    ensures step.Take? ==> Next(w, step) == w.(retry := [], pass := Sending(w.retry, []))
    ensures step.Finish? && w.pass.failed != [] ==> Next(w, step) == w.(retry := w.pass.failed + w.retry, pass := Idle)
    ensures step.Finish? && w.pass.failed == [] ==>
              Next(w, step).retry == w.retry && Next(w, step).wal.file == Pending(w.wal) && Next(w, step).wal.acked == {}
    ensures step.Stop? || step.StopInCompact? ==>
              Next(w, step).waiting == [] && Next(w, step).pass == Idle && Next(w, step).retry == Recovered(Pending(w.wal))
    ensures Next(w, step).accepted == w.accepted && Next(w, step).durable == w.durable
  {
    CompactReclaims(w.wal);
    SilentInLog(w.wal, Restart);
    SilentInLog(w.wal, CrashInCompact);
  }

  // ---------------------------------------------------------------- a discipline that is enough

  // Every numbered batch in memory is there once and is still pending.
  ghost predicate Tidy(w: Writer) {
    forall b :: b in Held(w) && b.walSeq > 0 ==> Held(w)[b] == 1 && Stored(Pending(w.wal), b)
  }

  // A replay that queues a batch whose own goroutine is still waiting to queue it.
  ghost predicate Overtakes(w: Writer, step: Step)
    requires Enabled(w, step)
  {
    step.ReplayLog? && exists b :: b in w.waiting && b.walSeq > 0 && b in Added(w, step.n)
  }

  // In a tidy state every acknowledgement the writer issues is one the log allows.
  lemma TidyAcksAllowed(w: Writer, answer: Reply)
    requires Good(w) && Tidy(w) && Enabled(w, Send(answer))
    ensures StepAdmissible(w, Send(answer))
  {
    var b := w.pass.rest[0];
    assert b in w.pass.rest && b in Held(w);
    if b.walSeq > 0 { StoredMatches(w.wal, b); }
  }

  lemma FirstSendKeepsTidy(w: Writer, rows: string, reply: Reply, at: int, io: Io)
    requires Good(w) && Tidy(w)
    ensures Tidy(Next(w, FirstSend(rows, reply, at, io)))
  {
    var w' := Next(w, FirstSend(rows, reply, at, io));
    if !reply.Accepted? {
      HeldAfterFirstSend(w, rows, reply, at, io);
      forall x | x in Held(w') && x.walSeq > 0 ensures Held(w')[x] == 1 && Stored(Pending(w'.wal), x) {
        assert x in Held(w) ==> Matches(w.wal, x);
        if x in Held(w) {
          AppendedToLog(w.wal, rows, at, io);
          StoredStays(Pending(w.wal), Pending(w'.wal), x);
        } else {
          NewBatchStored(w.wal, rows, at, io);
        }
      }
    }
  }

  lemma NewBatchStored(wal: State, rows: string, at: int, io: Io)
    requires Valid(wal) && NewBatch(wal, rows, io).walSeq > 0
    ensures Stored(Pending(AppendStep(wal, "event", rows, at, io)), NewBatch(wal, rows, io))
  {
    AppendedToLog(wal, rows, at, io);
    assert NewEntry(wal, "event", rows, at) in Pending(AppendStep(wal, "event", rows, at, io));
  }

  lemma StoredStays(log: seq<Entry>, log': seq<Entry>, b: Batch)
    requires log <= log' && Stored(log, b)
    ensures Stored(log', b)
  {
    var e :| e in log && e.sq == b.walSeq && e.value == Encoded(b.rows);
    assert e in log';
  }

  lemma SendKeepsTidy(w: Writer, answer: Reply)
    requires Good(w) && Tidy(w) && Enabled(w, Send(answer))
    ensures Tidy(Next(w, Send(answer)))
  {
    var w', b := Next(w, Send(answer)), w.pass.rest[0];
    HeldAfterSend(w, answer);
    if answer.Accepted? && b.walSeq > 0 {
      AckedInLog(w.wal, b.walSeq);
      forall x | x in Held(w') && x.walSeq > 0 ensures Stored(Pending(w'.wal), x) {
        assert Held(w)[x] == 1 && x != b;
        SameNumberSameBatch(w.wal, x, b);
        var y :| y in Pending(w.wal) && y.sq == x.walSeq && y.value == Encoded(x.rows);
        assert y in Pending(w'.wal);
      }
    }
  }

  lemma SameNumberSameBatch(wal: State, b: Batch, b': Batch)
    requires Valid(wal) && Stored(Pending(wal), b) && Stored(Pending(wal), b')
    ensures b.walSeq == b'.walSeq ==> b == b'
  {
    StoredMatches(wal, b);
    StoredMatches(wal, b');
  }

  lemma RestartTidy(w: Writer, op: Op)
    requires Good(w) && (op.Restart? || op.CrashInCompact?) && Admissible(w.wal, op)
    ensures Tidy(Start(Apply(w.wal, op), w.accepted, w.durable))
  {
    StepKeepsValid(w.wal, op);
    AppendIsFresh(Apply(w.wal, op));
    RecoveredExact(Pending(Apply(w.wal, op)));
  }

  // A replay keeps the state tidy exactly when it overtakes no waiting goroutine; with a full queue, or with
  // no numbered batch waiting, it never does.
  lemma ReplayKeepsTidy(w: Writer, n: nat)
    requires Good(w) && Tidy(w) && Enabled(w, ReplayLog(n))
    ensures Tidy(Next(w, ReplayLog(n))) <==> !Overtakes(w, ReplayLog(n))
    ensures |w.retry| >= MAX_RETRY_BATCHES || (forall b :: b in w.waiting ==> b.walSeq == 0) ==> !Overtakes(w, ReplayLog(n))
  {
    ReplayAdds(w, n);
    var w', added := Next(w, ReplayLog(n)), Added(w, n);
    if Overtakes(w, ReplayLog(n)) {
      var b :| b in w.waiting && b.walSeq > 0 && b in added;
      assert Held(w)[b] == 1 && Held(w')[b] == 2;
    } else {
      forall b | b in Held(w') && b.walSeq > 0 ensures Held(w')[b] == 1 && Stored(Pending(w'.wal), b) {
        assert b in added ==> b !in w.waiting && b !in w.retry;
      }
    }
  }

  lemma {:induction false} OnceEach(s: seq<Batch>)
    requires forall i, j :: 0 <= i < j < |s| ==> s[i] != s[j]
    ensures forall x :: x in s ==> multiset(s)[x] == 1
  {
    if s != [] {
      var front, b := s[..|s| - 1], s[|s| - 1];
      OnceEach(front);
      assert s == front + [b];
      assert b !in front;
    }
  }

  lemma StepKeepsTidy(w: Writer, step: Step)
    requires Good(w) && Tidy(w) && Enabled(w, step) && StepAdmissible(w, step)
    ensures Tidy(Next(w, step)) <==> !Overtakes(w, step)
  {
    match step
    case FirstSend(rows, reply, at, io) => FirstSendKeepsTidy(w, rows, reply, at, io);
    case Send(answer) => SendKeepsTidy(w, answer);
    case ReplayLog(n) => ReplayKeepsTidy(w, n);
    case Stop => RestartTidy(w, Restart);
    case StopInCompact => RestartTidy(w, CrashInCompact);
    case Finish =>
      SilentInLog(w.wal, Compact);
      HeldAfterFinish(w);
    case CloseCompact =>
      SilentInLog(w.wal, Compact);
      assert Held(Next(w, step)) == Held(w);
    case _ => QueueStepKeepsTidy(w, step);
  }

  lemma QueueStepKeepsTidy(w: Writer, step: Step)
    requires Tidy(w) && Enabled(w, step) && (step.Enqueue? || step.GiveUp? || step.Take?)
    ensures Tidy(Next(w, step))
  {
    HeldAfterQueueStep(w, step);
    assert forall b :: b in Held(Next(w, step)) ==> b in Held(w) && Held(Next(w, step))[b] <= Held(w)[b];
  }

  // ---------------------------------------------------------------- whole runs

  // The states a run goes through, one step between neighbours.
  ghost predicate IsRun(states: seq<Writer>, steps: seq<Step>) {
    && |states| == |steps| + 1
    && forall i :: 0 <= i < |steps| ==> Enabled(states[i], steps[i]) && states[i + 1] == Next(states[i], steps[i])
  }

  // In every run, with any failures, restarts and interleaving, in which each acknowledgement and
  // each crash inside a compaction is one the log allows, nothing durably appended is ever lost.
  lemma {:induction false} RunAtLeastOnce(states: seq<Writer>, steps: seq<Step>)
    requires IsRun(states, steps) && Good(states[0])
    requires forall i :: 0 <= i < |steps| ==> StepAdmissible(states[i], steps[i])
    ensures Good(states[|steps|])
  {
    if steps != [] {
      var n := |steps| - 1;
      RunAtLeastOnce(states[..n + 1], steps[..n]);
      StepKeepsGood(states[n], steps[n]);
    }
  }

  // If no replay overtakes a waiting goroutine, the acknowledgements take care of themselves: only a crash
  // inside a compaction still needs its condition.
  lemma {:induction false} DisciplinedRunAtLeastOnce(states: seq<Writer>, steps: seq<Step>)
    requires IsRun(states, steps) && Good(states[0]) && Tidy(states[0])
    requires forall i :: 0 <= i < |steps| ==> !Overtakes(states[i], steps[i])
    requires forall i :: 0 <= i < |steps| && steps[i].StopInCompact? ==> Admissible(states[i].wal, CrashInCompact)
    ensures Good(states[|steps|]) && Tidy(states[|steps|])
  {
    if steps != [] {
      var n := |steps| - 1;
      DisciplinedRunAtLeastOnce(states[..n + 1], steps[..n]);
      if steps[n].Send? { TidyAcksAllowed(states[n], steps[n].answer); }
      StepKeepsGood(states[n], steps[n]);
      StepKeepsTidy(states[n], steps[n]);
    }
  }

  // A writer opened on any well-formed disk satisfies what the run theorems start from.
  lemma FirstStart(file: seq<Entry>, ackFile: AckFile)
    requires Increasing(file) && forall a :: a in AckedIn(ackFile) ==> a <= LastSeq(file)
    ensures var w := Start(Recover(file, ackFile), multiset{}, multiset{}); Good(w) && Tidy(w)
  {
    var wal := Recover(file, ackFile);
    AppendIsFresh(wal);
    RecoveredExact(Pending(wal));
    forall b | b in Recovered(Pending(wal)) ensures Matches(wal, b) { StoredMatches(wal, b); }
  }

  // ---------------------------------------------------------------- what a bad step leads to

  ghost predicate OnlySends(steps: seq<Step>) { forall i :: 0 <= i < |steps| ==> steps[i].FirstSend? || steps[i].Stop? }

  ghost predicate LosingRun(w: Writer, states: seq<Writer>, steps: seq<Step>) {
    IsRun(states, steps) && states[0] == w && OnlySends(steps) && !AtLeastOnce(states[|steps|])
  }

  // Some continuation, of nothing but restarts and first sends, ends with a durable batch lost.
  ghost predicate CanLose(w: Writer) { exists states, steps :: LosingRun(w, states, steps) }

  // Rows longer than any in the multiset.
  lemma {:induction false} FreshRows(m: multiset<string>) returns (rows: string)
    ensures rows !in m && forall x :: x in m ==> |x| < |rows|
    decreases |m|
  {
    if |m| == 0 { return "r"; }
    var x :| x in m;
    rows := FreshRows(m - multiset{x});
    if |rows| <= |x| { rows := x + "r"; }
  }

  lemma CanLoseBefore(w: Writer, step: Step)
    requires Enabled(w, step) && (step.FirstSend? || step.Stop?) && CanLose(Next(w, step))
    ensures CanLose(w)
  {
    var states, steps :| LosingRun(Next(w, step), states, steps);
    LosingBefore(w, step, states, steps);
  }

  lemma LosingBefore(w: Writer, step: Step, states: seq<Writer>, steps: seq<Step>)
    requires Enabled(w, step) && (step.FirstSend? || step.Stop?) && LosingRun(Next(w, step), states, steps)
    ensures LosingRun(w, [w] + states, [step] + steps)
  {
    StepBefore(w, step, states, steps);
    var states', steps' := [w] + states, [step] + steps;
    assert states'[|steps'|] == states[|steps|] && forall i :: 0 < i < |steps'| ==> steps'[i] == steps[i - 1];
  }

  lemma StepBefore(w: Writer, step: Step, states: seq<Writer>, steps: seq<Step>)
    requires Enabled(w, step) && IsRun(states, steps) && states[0] == Next(w, step)
    ensures IsRun([w] + states, [step] + steps)
  {
    var states', steps' := [w] + states, [step] + steps;
    forall i | 0 <= i < |steps'|
      ensures Enabled(states'[i], steps'[i]) && states'[i + 1] == Next(states'[i], steps'[i])
    {
      assert i > 0 ==> steps'[i] == steps[i - 1] && states'[i] == states[i - 1];
    }
  }

  // An acknowledgement waits for the number that batch a will be given, and nothing delivers these rows.
  ghost predicate Doomed(w: Writer, a: nat, rows: string) {
    && Sound(w.wal) && !w.wal.stuck && a in w.wal.acked && a > w.wal.last
    && w.accepted[rows] == 0 && RowsOf(Pending(w.wal))[rows] <= w.durable[rows]
  }

  ghost predicate Short(w: Writer, rows: string) {
    w.durable[rows] > w.accepted[rows] + RowsOf(Pending(w.wal))[rows]
  }

  // An acknowledgement above the last number in use swallows the batch that will be given its number.
  lemma {:induction false} AppendsLose(w: Writer, a: nat, rows: string)
    requires Doomed(w, a, rows)
    ensures CanLose(w)
    decreases a - w.wal.last
  {
    var step := FirstSend(rows, Refused, 0, Synced);
    var w' := Next(w, step);
    DurableSend(w, rows);
    OneMoreAppend(w, a, rows, w');
    if Short(w', rows) { ShortHasLost(w', rows); } else { AppendsLose(w', a, rows); }
    CanLoseBefore(w, step);
  }

  lemma ShortHasLost(w: Writer, rows: string)
    requires Short(w, rows)
    ensures CanLose(w)
  {
    assert w.durable[rows] > (w.accepted + RowsOf(Pending(w.wal)))[rows];
    assert LosingRun(w, [w], []);
  }

  // One more durable append is lost at once, or brings the fatal number nearer.
  lemma OneMoreAppend(w: Writer, a: nat, rows: string, w': Writer)
    requires Doomed(w, a, rows)
    requires w'.wal == AppendStep(w.wal, "event", rows, 0, Synced)
    requires w'.accepted == w.accepted && w'.durable[rows] == w.durable[rows] + 1
    ensures w'.wal.last == w.wal.last + 1 && (Short(w', rows) || Doomed(w', a, rows))
  {
    OneMoreInLog(w.wal, rows);
  }

  lemma DurableSend(w: Writer, rows: string)
    requires !w.wal.stuck
    ensures var w' := Next(w, FirstSend(rows, Refused, 0, Synced));
            && w'.wal == AppendStep(w.wal, "event", rows, 0, Synced) && w'.accepted == w.accepted
            && w'.durable[rows] == w.durable[rows] + 1
  {
    assert Next(w, FirstSend(rows, Refused, 0, Synced)).durable == w.durable + multiset{rows};
  }

  lemma OneMoreInLog(wal: State, rows: string)
    requires Sound(wal) && !wal.stuck
    ensures var after := AppendStep(wal, "event", rows, 0, Synced);
            && Sound(after) && !after.stuck && after.acked == wal.acked && after.last == wal.last + 1
            && RowsOf(Pending(after))[rows] == RowsOf(Pending(wal))[rows] + if wal.last + 1 in wal.acked then 0 else 1
  {
    var e := NewEntry(wal, "event", rows, 0);
    AppendKeepsValid(wal, "event", rows, 0, Synced);
    UnackedAppend(wal.file, e, wal.consecutive, wal.acked);
    RowsOfSnoc(Pending(wal), e);
  }

  lemma RecoveredLoses(file: seq<Entry>, ackFile: AckFile, accepted: multiset<string>, durable: multiset<string>, a: nat)
    requires Increasing(file) && a in AckedIn(ackFile) && a > LastSeq(file)
    ensures CanLose(Start(Recover(file, ackFile), accepted, durable))
  {
    var w := Start(Recover(file, ackFile), accepted, durable);
    var rows := FreshRows(accepted + RowsOf(Pending(w.wal)));
    AppendsLose(w, a, rows);
  }

  // Exactly the steps the log allows leave no such continuation.
  lemma AdmissibleIffNothingLost(w: Writer, step: Step)
    requires Good(w) && Enabled(w, step)
    ensures StepAdmissible(w, step) <==> !CanLose(Next(w, step))
  {
    StepKeepsGood(w, step);
    if StepAdmissible(w, step) {
      GoodCannotLose(Next(w, step));
    } else if step.StopInCompact? {
      UnackedExact(w.wal.file, w.wal.consecutive, w.wal.acked);
      var a :| a in w.wal.acked && a > LastSeq(CompactedFile(w.wal));
      RecoveredLoses(CompactedFile(w.wal), w.wal.ackFile, w.accepted, w.durable, a);
    } else {
      BadAckLoses(w);
    }
  }

  lemma GoodCannotLose(w: Writer)
    requires Good(w)
    ensures !CanLose(w)
  {
    forall states, steps | IsRun(states, steps) && states[0] == w && OnlySends(steps)
      ensures !LosingRun(w, states, steps)
    {
      RunAtLeastOnce(states, steps);
    }
  }

  lemma BadAckStays(wal: State, sq: nat) returns (a: nat)
    requires Valid(wal) && sq <= wal.last && !AckAllowed(wal, sq)
    ensures Sound(AckStep(wal, sq)) && a in AckStep(wal, sq).acked && a > LastSeq(AckStep(wal, sq).file)
  {
    AckKeepsValid(wal, sq);
    AckKeepsSound(wal, sq);
    a :| a in AckStep(wal, sq).acked && a > LastSeq(wal.file);
  }

  lemma BadAckInMemory(w: Writer, a: nat)
    requires Sound(w.wal) && a in w.wal.acked && a > LastSeq(w.wal.file)
    ensures CanLose(w)
  {
    RecoveredLoses(w.wal.file, w.wal.ackFile, w.accepted, w.durable, a);
    CanLoseBefore(w, Stop);
  }

  lemma BadAckLoses(w: Writer)
    requires Good(w) && Enabled(w, Send(Accepted)) && !StepAdmissible(w, Send(Accepted))
    ensures CanLose(Next(w, Send(Accepted)))
  {
    var w', b := Next(w, Send(Accepted)), w.pass.rest[0];
    assert b in w.pass.rest && b in Held(w);
    var a := BadAckStays(w.wal, b.walSeq);
    BadAckInMemory(w', a);
  }

  // ---------------------------------------------------------------- a run that loses a batch

  const LOST := Batch(0, "x")
  const KEPT := Batch(2, "b")
  const FRESH := Writer(EMPTY, [], [], Idle, multiset{}, multiset{})

  function LossState(i: nat): Writer
    requires i <= 12
  {
    if i == 0 then FRESH
    else if i <= 4 then
      Writer(EMPTY.(last := 1, stuck := true), if i == 2 then [LOST] else [], if i == 1 then [LOST] else [],
             if i <= 2 then Idle else Sending(if i == 3 then [LOST] else [], []),
             if i == 4 then multiset{"x"} else multiset{}, multiset{})
    else if i == 5 then Writer(GAP, [], [], Idle, multiset{"x"}, multiset{})
    else if i <= 8 then
      Writer(GAP.(file := [EB], last := 2), if i == 7 then [KEPT] else [], [KEPT],
             if i == 8 then Sending([KEPT], []) else Idle, multiset{"x"}, multiset{"b"})
    else if i == 9 then
      Writer(State([EB], Saved(0, {2}), 2, {2}, 0, false), [], [KEPT], Sending([], []), multiset{"x", "b"}, multiset{"b"})
    else
      Writer(COMPACTED, if i == 11 then [KEPT] else [], if i == 10 then [KEPT] else [],
             if i == 12 then Sending([KEPT], []) else Idle, multiset{"x", "b"}, multiset{"b"})
  }

  const LOSS_STEPS := [FirstSend("x", Refused, 0, NotWritten), Enqueue(0), Take, Send(Accepted), Finish,
                       FirstSend("b", Refused, 2, Synced), ReplayLog(1), Take, Send(Accepted), Finish,
                       Enqueue(0), Take]

  ghost predicate LossStep(i: nat)
    requires i < 12
  {
    && Enabled(LossState(i), LOSS_STEPS[i]) && LossState(i + 1) == Next(LossState(i), LOSS_STEPS[i])
    && StepAdmissible(LossState(i), LOSS_STEPS[i]) && (Overtakes(LossState(i), LOSS_STEPS[i]) <==> i == 6)
  }

  lemma LossSends()
    ensures LossStep(0) && LossStep(3) && LossStep(5)
  {
    assert [LOST][1..] == [];
  }

  lemma LossQueueing()
    ensures LossStep(1) && LossStep(10)
  {
    assert Removed([LOST], 0) == [] && Removed([KEPT], 0) == [];
  }

  lemma LossTakes()
    ensures LossStep(2) && LossStep(7) && LossStep(11)
  {
  }

  lemma LossCompacts()
    ensures LossStep(4) && LossStep(9)
  {
    assert [EB][..0] == [];
    assert Unacked([], 0, {}) == [] && Unacked([], 0, {2}) == [] && Unacked([EB], 0, {2}) == [];
  }

  lemma OneMissing()
    ensures Unacked([EB], 0, {}) == [EB] && [EB][..1] == [EB]
    ensures Missing([], [EB]) == [KEPT] && Replayed([], [EB]) == [KEPT]
  {
    assert [EB][..0] == [] && [EB][1..] == [] && !Queued([], 2);
    assert !Skipped([], EB) && Replayed([KEPT], []) == [KEPT] == [] + [KEPT];
  }

  lemma LossReplay()
    ensures LossStep(6)
  {
    var w := LossState(6);
    OneMissing();
    assert Pending(w.wal)[..1] == [EB] && Added(w, 1) == [KEPT] && [KEPT][0] == KEPT;
    assert KEPT in w.waiting && KEPT in Added(w, 1);
    assert Next(w, ReplayLog(1)) == w.(retry := [KEPT]);
  }

  lemma LossAck()
    ensures LossStep(8)
  {
    assert [KEPT][1..] == [] && [EB][..0] == [];
    AckTwo(LossState(8).wal);
    assert LastSeq([EB]) == 2;
  }

  lemma LossStepHolds(i: nat)
    requires i < 12
    ensures LossStep(i)
  {
    if i in {0, 3, 5} { LossSends(); } else if i in {4, 9} { LossCompacts(); } else if i == 6 { LossReplay(); }
    else if i == 8 { LossAck(); } else if i in {1, 10} { LossQueueing(); } else { LossTakes(); }
  }

  // An append whose write fails uses up number 1, and the next clean pass opens the log again. Then a replay
  // overtakes the goroutine that has just appended number 2: the batch is sent, compacted away, and queued
  // once more. Every step is one the log allows, but sending it again acknowledges 2 a second time, and
  // from there a later batch can be lost.
  lemma UndisciplinedRunLosesBatch()
    ensures LossState(0) == Start(Recover([], Unreadable), multiset{}, multiset{})
    ensures forall i: nat :: i < 12 ==> LossStep(i)
    ensures Good(LossState(12)) && Enabled(LossState(12), Send(Accepted)) && CanLose(Next(LossState(12), Send(Accepted)))
  {
    forall i: nat | i < 12 ensures LossStep(i) { LossStepHolds(i); }
    LossEndIsGood();
    assert 1 !in LossState(12).wal.acked;
    AdmissibleIffNothingLost(LossState(12), Send(Accepted));
  }

  lemma LossEndIsGood()
    ensures Good(LossState(12))
  {
    FirstStart([], Unreadable);
    var states := seq(13, i requires 0 <= i < 13 => LossState(i));
    forall i | 0 <= i < 12
      ensures Enabled(states[i], LOSS_STEPS[i]) && states[i + 1] == Next(states[i], LOSS_STEPS[i])
      ensures StepAdmissible(states[i], LOSS_STEPS[i])
    {
      LossStepHolds(i);
    }
    assert IsRun(states, LOSS_STEPS);
    RunAtLeastOnce(states, LOSS_STEPS);
  }
}
