/** The write-ahead log of the event collector as a state machine: what is on disk, what is in
    memory, and what each operation, restart and crash does to both. The class in WalLog.dfy is
    proved against these steps. */
module Wal {

  // A stored batch. Base64 is an encoding that round trips; a value it cannot decode is Garbled.
  datatype Value = Encoded(rows: string) | Garbled

  datatype Entry = Entry(sq: nat, kind: string, value: Value, at: int)

  // The .ack file. A missing or malformed file reads as an error, an old one holds a bare number.
  datatype AckFile = Unreadable | Legacy(n: nat) | Saved(consecutive: nat, acked: set<nat>)

  // stuck: a write has failed, and the buffered writer repeats that error until it is replaced.
  datatype State = State(
    file: seq<Entry>, ackFile: AckFile, last: nat, acked: set<nat>, consecutive: nat, stuck: bool)

  function Max(a: nat, b: nat): nat { if a > b then a else b }

  // ---------------------------------------------------------------- reading the disk

  function Unacked(file: seq<Entry>, consecutive: nat, acked: set<nat>): seq<Entry> {
    if file == [] then []
    else
      var e, rest := file[|file| - 1], Unacked(file[..|file| - 1], consecutive, acked);
      if e.sq > consecutive && e.sq !in acked then rest + [e] else rest
  }

  function LastSeq(file: seq<Entry>): nat {
    if file == [] then 0 else Max(LastSeq(file[..|file| - 1]), file[|file| - 1].sq)
  }

  function AckedIn(a: AckFile): set<nat> {
    match a
    case Saved(c, s) => set x | x in s && x > c
    case _ => {}
  }

  function WatermarkIn(a: AckFile): nat {
    match a
    case Saved(c, _) => c
    case Legacy(n) => n
    case Unreadable => 0
  }

  function Recover(file: seq<Entry>, ackFile: AckFile): State {
    var c := WatermarkIn(ackFile);
    State(file, ackFile, Max(LastSeq(file), c), AckedIn(ackFile), c, false)
  }

  function Pending(s: State): seq<Entry> { Unacked(s.file, s.consecutive, s.acked) }

  // ---------------------------------------------------------------- operations

  // How far an append got: flushed and synced, in the file but the sync failed, or never written.
  datatype Io = Synced | SyncFailed | NotWritten

  datatype Op =
    | Append(kind: string, rows: string, at: int, io: Io)
    | Ack(sq: nat)
    | Compact
    | Restart
    | CrashInCompact  // the new log is in place, the ack file is still the old one

  function NewEntry(s: State, kind: string, rows: string, at: int): Entry {
    Entry(s.last + 1, kind, Encoded(rows), at)
  }

  // What an append comes to: behind a failed write nothing is written any more.
  function Reached(s: State, io: Io): Io { if s.stuck then NotWritten else io }

  function AppendStep(s: State, kind: string, rows: string, at: int, io: Io): State {
    s.(last := s.last + 1, stuck := Reached(s, io).NotWritten?,
       file := if Reached(s, io).NotWritten? then s.file else s.file + [NewEntry(s, kind, rows, at)])
  }

  // The watermark after swallowing every acknowledged number that directly follows it.
  function Advance(consecutive: nat, acked: set<nat>): (nat, set<nat>)
    decreases |acked|
  {
    if consecutive + 1 in acked then Advance(consecutive + 1, acked - {consecutive + 1})
    else (consecutive, acked)
  }

  function AckStep(s: State, sq: nat): State {
    var (c, a) := Advance(s.consecutive, if sq > s.consecutive then s.acked + {sq} else s.acked);
    s.(consecutive := c, acked := a, ackFile := Saved(c, a))
  }

  function CompactedFile(s: State): seq<Entry> {
    if s.last <= s.consecutive then [] else Pending(s)
  }

  // Emptying the file keeps the writer; writing a new file comes with a new one.
  function CompactStep(s: State): State {
    if s.last <= s.consecutive then s.(file := [], acked := {})
    else s.(file := Pending(s), acked := {}, ackFile := Saved(s.consecutive, {}), stuck := false)
  }

  function Apply(s: State, op: Op): State {
    match op
    case Append(kind, rows, at, io) => AppendStep(s, kind, rows, at, io)
    case Ack(sq) => AckStep(s, sq)
    case Compact => CompactStep(s)
    case Restart => Recover(s.file, s.ackFile)
    case CrashInCompact => Recover(CompactedFile(s), s.ackFile)
  }

  // ---------------------------------------------------------------- invariant

  // Numbers start above 0 and grow along the file; IncreasingAt says it position by position.
  ghost predicate Increasing(file: seq<Entry>) {
    file == [] || (Increasing(file[..|file| - 1]) && file[|file| - 1].sq > LastSeq(file[..|file| - 1]))
  }

  // Everything but the bound on remembered acknowledgements.
  ghost predicate Sound(s: State) {
    && WatermarkIn(s.ackFile) == s.consecutive
    && AckedIn(s.ackFile) == s.acked
    && Increasing(s.file)
    && s.consecutive <= s.last
    && LastSeq(s.file) <= s.last
  }

  // A restart forgets no sequence number that an acknowledgement still names.
  ghost predicate AcksBounded(s: State) {
    forall a :: a in s.acked ==> a <= LastSeq(s.file)
  }

  ghost predicate Valid(s: State) { Sound(s) && AcksBounded(s) }

  // The number is no higher than one in the file, or it was handed out and everything below it is
  // acknowledged, so that the watermark takes it in at once.
  ghost predicate AckAllowed(s: State, sq: nat) {
    sq <= LastSeq(s.file) || (sq <= s.last && forall x :: s.consecutive < x < sq ==> x in s.acked)
  }

  // What a caller of the operation has to respect. Only two operations ask for anything.
  ghost predicate Admissible(s: State, op: Op) {
    match op
    case Ack(sq) => AckAllowed(s, sq)
    case CrashInCompact => forall a :: a in s.acked ==> a <= LastSeq(CompactedFile(s))
    case _ => true
  }

  // ---------------------------------------------------------------- the abstract log

  datatype Event = Appended(entry: Entry) | Acked(sq: nat) | Silent

  function Observe(s: State, op: Op): Event {
    match op
    case Append(kind, rows, at, io) => if Reached(s, io).NotWritten? then Silent else Appended(NewEntry(s, kind, rows, at))
    case Ack(sq) => Acked(sq)
    case _ => Silent
  }

  function Without(log: seq<Entry>, sq: nat): seq<Entry> {
    if log == [] then []
    else
      var e, rest := log[|log| - 1], Without(log[..|log| - 1], sq);
      if e.sq == sq then rest else rest + [e]
  }

  function LogStep(log: seq<Entry>, ev: Event): seq<Entry> {
    match ev
    case Appended(e) => log + [e]
    case Acked(sq) => Without(log, sq)
    case Silent => log
  }

  // ---------------------------------------------------------------- lemmas about the file

  lemma {:induction false} LastSeqBounds(file: seq<Entry>)
    ensures forall i :: 0 <= i < |file| ==> file[i].sq <= LastSeq(file)
    ensures file != [] ==> exists e :: e in file && e.sq == LastSeq(file)
  {
    if file != [] {
      var front, e := file[..|file| - 1], file[|file| - 1];
      LastSeqBounds(front);
      assert e in file && forall x :: x in front ==> x in file;
    }
  }

  lemma {:induction false} IncreasingAt(file: seq<Entry>, i: nat, j: nat)
    requires Increasing(file) && i < j < |file|
    ensures 0 < file[i].sq < file[j].sq
  {
    var front := file[..|file| - 1];
    if j < |file| - 1 {
      IncreasingAt(front, i, j);
    } else {
      LastSeqBounds(front);
      if i > 0 { IncreasingAt(front, 0, i); }
      assert front[i] == file[i];
      IncreasingPositive(front);
    }
  }

  lemma {:induction false} IncreasingPositive(file: seq<Entry>)
    requires Increasing(file)
    ensures forall e :: e in file ==> e.sq > 0
  {
    if file != [] {
      assert file == file[..|file| - 1] + [file[|file| - 1]];
      IncreasingPositive(file[..|file| - 1]);
    }
  }

  // Two entries with the same number are the same entry.
  lemma SameSeqSameEntry(file: seq<Entry>, e: Entry, e': Entry)
    requires Increasing(file) && e in file && e' in file && e.sq == e'.sq
    ensures e == e'
  {
    var i :| 0 <= i < |file| && file[i] == e;
    var j :| 0 <= j < |file| && file[j] == e';
    if i < j { IncreasingAt(file, i, j); } else if j < i { IncreasingAt(file, j, i); }
  }

  lemma {:induction false} UnackedMembers(file: seq<Entry>, c: nat, acked: set<nat>)
    ensures forall e :: e in Unacked(file, c, acked) <==> e in file && e.sq > c && e.sq !in acked
  {
    if file != [] {
      var front, e := file[..|file| - 1], file[|file| - 1];
      assert file == front + [e];
      UnackedMembers(front, c, acked);
    }
  }

  lemma {:induction false} UnackedIncreasing(file: seq<Entry>, c: nat, acked: set<nat>)
    requires Increasing(file)
    ensures Increasing(Unacked(file, c, acked))
    ensures LastSeq(Unacked(file, c, acked)) <= LastSeq(file)
  {
    if file != [] {
      var front, e := file[..|file| - 1], file[|file| - 1];
      UnackedIncreasing(front, c, acked);
      var u := Unacked(front, c, acked);
      IncreasingSnoc(u, e);
    }
  }

  lemma IncreasingSnoc(file: seq<Entry>, e: Entry)
    requires Increasing(file) && LastSeq(file) < e.sq
    ensures Increasing(file + [e]) && LastSeq(file + [e]) == e.sq
  {
    assert (file + [e])[..|file|] == file;
  }

  // The entries a reader gets are exactly the unacknowledged ones, still in file order.
  lemma UnackedExact(file: seq<Entry>, c: nat, acked: set<nat>)
    requires Increasing(file)
    ensures forall e :: e in Unacked(file, c, acked) <==> e in file && e.sq > c && e.sq !in acked
    ensures Increasing(Unacked(file, c, acked))
    ensures LastSeq(Unacked(file, c, acked)) <= LastSeq(file)
  {
    UnackedMembers(file, c, acked);
    UnackedIncreasing(file, c, acked);
  }

  lemma {:induction false} UnackedAppend(file: seq<Entry>, e: Entry, c: nat, acked: set<nat>)
    ensures Unacked(file + [e], c, acked)
         == if e.sq > c && e.sq !in acked then Unacked(file, c, acked) + [e] else Unacked(file, c, acked)
    ensures LastSeq(file + [e]) == Max(LastSeq(file), e.sq)
  {
    assert (file + [e])[..|file|] == file;
  }

  // Two acknowledgement records that know the same numbers give the same view.
  lemma {:induction false} UnackedByKnowledge(file: seq<Entry>, c: nat, acked: set<nat>, c': nat, acked': set<nat>)
    requires forall i :: 0 <= i < |file| ==> (Known(c, acked, file[i].sq) <==> Known(c', acked', file[i].sq))
    ensures Unacked(file, c, acked) == Unacked(file, c', acked')
  {
    if file != [] { UnackedByKnowledge(file[..|file| - 1], c, acked, c', acked'); }
  }

  lemma {:induction false} UnackedMinusOne(file: seq<Entry>, c: nat, acked: set<nat>, c': nat, acked': set<nat>, sq: nat)
    requires forall x :: Known(c', acked', x) <==> Known(c, acked, x) || x == sq
    ensures Unacked(file, c', acked') == Without(Unacked(file, c, acked), sq)
  {
    if file != [] {
      var front, e := file[..|file| - 1], file[|file| - 1];
      UnackedMinusOne(front, c, acked, c', acked', sq);
      var u := Unacked(front, c, acked);
      assert (u + [e])[..|u|] == u;
      assert Known(c', acked', e.sq) <==> Known(c, acked, e.sq) || e.sq == sq;
    }
  }

  lemma {:induction false} UnackedIdempotent(file: seq<Entry>, c: nat, acked: set<nat>, acked': set<nat>)
    requires acked' <= acked
    ensures Unacked(Unacked(file, c, acked), c, acked') == Unacked(file, c, acked)
  {
    if file != [] {
      var front, e := file[..|file| - 1], file[|file| - 1];
      UnackedIdempotent(front, c, acked, acked');
      UnackedAppend(Unacked(front, c, acked), e, c, acked');
    }
  }

  // ---------------------------------------------------------------- acknowledgement knowledge

  predicate Known(c: nat, acked: set<nat>, x: nat) { x <= c || x in acked }

  // The watermark loop learns nothing and forgets nothing, never moves back, and stops at a gap.
  lemma {:induction false} AdvanceKeepsKnowledge(c: nat, acked: set<nat>)
    ensures var (c', a') := Advance(c, acked);
            && c' >= c && a' <= acked && c' + 1 !in a'
            && (forall x :: Known(c', a', x) <==> Known(c, acked, x))
    ensures (forall x :: x in acked ==> x > c) ==> forall x :: x in Advance(c, acked).1 ==> x > Advance(c, acked).0
    decreases |acked|
  {
    if c + 1 in acked { AdvanceKeepsKnowledge(c + 1, acked - {c + 1}); }
  }

  // An acknowledgement adds its own number to the known ones and nothing else, and writing the
  // record out and reading it back gives the same knowledge.
  lemma AckKnowledge(s: State, sq: nat)
    requires Sound(s)
    ensures var t := AckStep(s, sq);
            && t.consecutive >= s.consecutive && t.consecutive + 1 !in t.acked
            && (forall x :: x in t.acked ==> x > t.consecutive)
            && (forall x :: Known(t.consecutive, t.acked, x) <==> Known(s.consecutive, s.acked, x) || x == sq)
            && WatermarkIn(t.ackFile) == t.consecutive && AckedIn(t.ackFile) == t.acked
            && t.file == s.file && t.last == s.last && t.stuck == s.stuck
  {
    AdvanceKeepsKnowledge(s.consecutive, if sq > s.consecutive then s.acked + {sq} else s.acked);
  }

  // The known numbers pin the record down: no other watermark stopping at a gap knows the same ones.
  lemma KnowledgeDeterminesRecord(c: nat, a: set<nat>, c': nat, a': set<nat>)
    requires c + 1 !in a && (forall x :: x in a ==> x > c)
    requires c' + 1 !in a' && (forall x :: x in a' ==> x > c')
    requires forall x: nat :: Known(c, a, x) <==> Known(c', a', x)
    ensures c == c' && a == a'
  {
    assert Known(c, a, c) && Known(c', a', c') && !Known(c, a, c + 1) && !Known(c', a', c' + 1);
    assert Known(c', a', c) && !Known(c', a', c + 1) && Known(c, a, c') && !Known(c, a, c' + 1);
    forall x ensures x in a <==> x in a' {
      assert Known(c, a, x) <==> Known(c', a', x);
    }
  }

  // ---------------------------------------------------------------- one step

  // Whatever the operation, the pending view moves exactly as the abstract log does: an append adds
  // one entry at the end, an acknowledgement removes its entry, compaction, restart and a crash in
  // the middle of a compaction change nothing.
  lemma StepRefines(s: State, op: Op)
    requires Valid(s)
    ensures Pending(Apply(s, op)) == LogStep(Pending(s), Observe(s, op))
  {
    match op
    case Append(kind, rows, at, io) =>
      AppendIsFresh(s);
      UnackedAppend(s.file, NewEntry(s, kind, rows, at), s.consecutive, s.acked);
    case Ack(sq) => AckRefines(s, sq);
    case Compact => CompactRefines(s);
    case Restart =>
    case CrashInCompact => CompactRefines(s);
  }

  lemma AckRefines(s: State, sq: nat)
    requires Sound(s)
    ensures Pending(AckStep(s, sq)) == Without(Pending(s), sq)
  {
    AckKnowledge(s, sq);
    var t := AckStep(s, sq);
    UnackedMinusOne(s.file, s.consecutive, s.acked, t.consecutive, t.acked, sq);
  }

  lemma CompactRefines(s: State)
    requires Valid(s)
    ensures Unacked(CompactedFile(s), s.consecutive, {}) == Pending(s)
    ensures Unacked(CompactedFile(s), s.consecutive, s.acked) == Pending(s)
  {
    if s.last <= s.consecutive {
      LastSeqBounds(s.file);
      NothingUnacked(s.file, s.consecutive, s.acked);
    } else {
      UnackedIdempotent(s.file, s.consecutive, s.acked, {});
      UnackedIdempotent(s.file, s.consecutive, s.acked, s.acked);
    }
  }

  lemma AckKeepsValid(s: State, sq: nat)
    requires Valid(s)
    ensures Valid(AckStep(s, sq)) <==> AckAllowed(s, sq)
  {
    AckKnowledge(s, sq);
    var t := AckStep(s, sq);
    var c := t.consecutive;
    forall x: nat ensures Known(c, t.acked, x) <==> x <= s.consecutive || x in s.acked || x == sq {
      assert Known(c, t.acked, x) <==> Known(s.consecutive, s.acked, x) || x == sq;
    }
    assert !Known(c, t.acked, c + 1) && Known(c, t.acked, c) && Known(c, t.acked, sq);
    if AckAllowed(s, sq) {
      AllowedAckIsSwallowed(s, sq);
    }
    if Valid(t) && sq > LastSeq(s.file) {
      forall x | s.consecutive < x < sq ensures x in s.acked { assert Known(c, t.acked, x); }
    }
  }

  // Acknowledging a number that was handed out can only spoil the bound.
  lemma AckKeepsSound(s: State, sq: nat)
    requires Valid(s) && sq <= s.last
    ensures Sound(AckStep(s, sq))
  {
    AckKnowledge(s, sq);
    var t := AckStep(s, sq);
    assert Known(t.consecutive, t.acked, t.consecutive);
  }

  lemma AllowedAckIsSwallowed(s: State, sq: nat)
    requires Valid(s) && AckAllowed(s, sq)
    ensures AckStep(s, sq).consecutive <= s.last
    ensures forall a :: a in AckStep(s, sq).acked ==> a <= LastSeq(s.file)
  {
    AckKnowledge(s, sq);
    var t := AckStep(s, sq);
    var c := t.consecutive;
    assert Known(c, t.acked, c) && !Known(c, t.acked, c + 1);
    assert Known(s.consecutive, s.acked, c) || c == sq;
    assert sq > LastSeq(s.file) ==> c >= sq;
    forall a | a in t.acked ensures a <= LastSeq(s.file) { assert Known(c, t.acked, a); }
  }

  // What a restart makes of the two files: an old acknowledgement file holds the watermark alone, a new one also
  // the numbers above it, an unreadable one nothing; numbering goes on from the highest number there is.
  lemma RecoverMeans(file: seq<Entry>, ackFile: AckFile)
    ensures var s := Recover(file, ackFile);
            && s.file == file && s.ackFile == ackFile && !s.stuck
            && (ackFile.Unreadable? ==> s.consecutive == 0 && s.acked == {})
            && (forall n :: ackFile == Legacy(n) ==> s.consecutive == n && s.acked == {})
            && (forall c, a :: ackFile == Saved(c, a) ==> s.consecutive == c && s.acked == set x | x in a && c < x)
            && s.consecutive <= s.last && (forall i :: 0 <= i < |file| ==> file[i].sq <= s.last)
            && (s.last == s.consecutive || exists e :: e in file && e.sq == s.last)
  {
    LastSeqBounds(file);
  }

  // Which entries are read after that.
  lemma RecoveredReads(file: seq<Entry>, ackFile: AckFile, e: Entry)
    requires Increasing(file)
    ensures ackFile.Unreadable? ==> (e in Pending(Recover(file, ackFile)) <==> e in file)
    ensures forall n :: ackFile == Legacy(n) ==> (e in Pending(Recover(file, ackFile)) <==> e in file && e.sq > n)
    ensures forall c, a :: ackFile == Saved(c, a) ==>
              (e in Pending(Recover(file, ackFile)) <==> e in file && e.sq > c && e.sq !in a)
  {
    var s := Recover(file, ackFile);
    UnackedMembers(file, s.consecutive, s.acked);
    IncreasingPositive(file);
  }

  // An append uses up the next number and stores exactly what it was given at the end, unless the write fails;
  // then it and every later append store nothing.
  lemma AppendMeans(s: State, kind: string, rows: string, at: int, io: Io)
    ensures var t := AppendStep(s, kind, rows, at, io);
            && t.last == s.last + 1 && t.acked == s.acked && t.consecutive == s.consecutive && t.ackFile == s.ackFile
            && (t.stuck <==> s.stuck || io == NotWritten)
            && t.file == if t.stuck then s.file else s.file + [Entry(s.last + 1, kind, Encoded(rows), at)]
  {
  }

  // The invariant survives a step exactly when the step was admissible.
  lemma StepKeepsValid(s: State, op: Op)
    requires Valid(s)
    ensures Valid(Apply(s, op)) <==> Admissible(s, op)
    ensures !op.Ack? ==> Sound(Apply(s, op))
  {
    match op
    case Append(kind, rows, at, io) => AppendKeepsValid(s, kind, rows, at, io);
    case Ack(sq) => AckKeepsValid(s, sq);
    case Compact => CompactKeepsValid(s);
    case Restart =>
    case CrashInCompact =>
      UnackedExact(s.file, s.consecutive, s.acked);
  }

  lemma AppendKeepsValid(s: State, kind: string, rows: string, at: int, io: Io)
    requires Sound(s)
    ensures Sound(AppendStep(s, kind, rows, at, io))
    ensures Valid(s) ==> Valid(AppendStep(s, kind, rows, at, io))
  {
    UnackedAppend(s.file, NewEntry(s, kind, rows, at), s.consecutive, s.acked);
    assert (s.file + [NewEntry(s, kind, rows, at)])[..|s.file|] == s.file;
  }

  lemma CompactKeepsValid(s: State)
    requires Valid(s)
    ensures Valid(CompactStep(s))
  {
    UnackedExact(s.file, s.consecutive, s.acked);
    if s.last <= s.consecutive {
      assert forall a :: a in s.acked ==> s.consecutive < a <= s.last;
      assert s.acked == {};
    }
  }

  // A compaction leaves exactly the pending entries on disk and nothing acknowledged in memory.
  lemma CompactReclaims(s: State)
    requires Valid(s)
    ensures CompactStep(s).file == Pending(s) && CompactStep(s).acked == {}
    ensures CompactStep(s).last == s.last && CompactStep(s).consecutive == s.consecutive
    ensures CompactedFile(s) == Pending(s)
    // emptying a log that is all acknowledged keeps writer and acknowledgement file; else both are new
    ensures if s.last <= s.consecutive then CompactStep(s).stuck == s.stuck && CompactStep(s).ackFile == s.ackFile
            else !CompactStep(s).stuck && CompactStep(s).ackFile == Saved(s.consecutive, {})
  {
    LastSeqBounds(s.file);
    if s.last <= s.consecutive { NothingUnacked(s.file, s.consecutive, s.acked); }
    assert s.last <= s.consecutive ==> s.acked == {};
  }

  lemma {:induction false} NothingUnacked(file: seq<Entry>, c: nat, acked: set<nat>)
    requires forall i :: 0 <= i < |file| ==> file[i].sq <= c
    ensures Unacked(file, c, acked) == []
  {
    if file != [] { NothingUnacked(file[..|file| - 1], c, acked); }
  }

  // A number handed out by Append is above everything the log still holds, so the entry is new.
  lemma AppendIsFresh(s: State)
    requires Valid(s)
    ensures Increasing(Pending(s))
    ensures forall e :: e in Pending(s) ==> e.sq < s.last + 1
    ensures !Known(s.consecutive, s.acked, s.last + 1)
  {
    UnackedExact(s.file, s.consecutive, s.acked);
    LastSeqBounds(s.file);
  }

  // ---------------------------------------------------------------- whole runs

  function Run(s: State, ops: seq<Op>): State {
    if ops == [] then s else Apply(Run(s, ops[..|ops| - 1]), ops[|ops| - 1])
  }

  function LogRun(s: State, log: seq<Entry>, ops: seq<Op>): seq<Entry> {
    if ops == [] then log
    else LogStep(LogRun(s, log, ops[..|ops| - 1]), Observe(Run(s, ops[..|ops| - 1]), ops[|ops| - 1]))
  }

  ghost predicate AdmissibleRun(s: State, ops: seq<Op>) {
    forall i :: 0 <= i < |ops| ==> Admissible(Run(s, ops[..i]), ops[i])
  }

  // Over any sequence of appends, acknowledgements, compactions, restarts and crashes, reading the
  // log gives the abstract log driven by the same events.
  lemma {:induction false} RunRefines(s: State, ops: seq<Op>)
    requires Valid(s) && AdmissibleRun(s, ops)
    ensures Valid(Run(s, ops))
    ensures Pending(Run(s, ops)) == LogRun(s, Pending(s), ops)
  {
    if ops != [] {
      var n := |ops| - 1;
      assert forall i :: 0 <= i < n ==> ops[..n][..i] == ops[..i];
      RunRefines(s, ops[..n]);
      StepRefines(Run(s, ops[..n]), ops[n]);
      StepKeepsValid(Run(s, ops[..n]), ops[n]);
    }
  }

  // ---------------------------------------------------------------- why the bound matters

  function AppendMany(s: State, n: nat): State {
    if n == 0 then s else AppendStep(AppendMany(s, n - 1), "event", "rows", 0, Synced)
  }

  // The n-th further append can be read back.
  ghost predicate Visible(s: State, n: nat)
    requires n > 0
  {
    NewEntry(AppendMany(s, n - 1), "event", "rows", 0) in Pending(AppendMany(s, n))
  }

  // The two are alike but for the number of appends in between.
  ghost predicate AppendsApart(s: State, t: State, n: nat) {
    Sound(t) && t.last == s.last + n && t.acked == s.acked && t.consecutive == s.consecutive && t.stuck == s.stuck
  }

  lemma OneApart(s: State, t: State, n: nat)
    requires AppendsApart(s, t, n)
    ensures AppendsApart(s, AppendStep(t, "event", "rows", 0, Synced), n + 1)
  {
    AppendKeepsValid(t, "event", "rows", 0, Synced);
  }

  lemma {:induction false} AppendManyShape(s: State, n: nat)
    requires Sound(s)
    ensures AppendsApart(s, AppendMany(s, n), n)
    decreases n
  {
    if n == 0 {
      assert AppendMany(s, n) == s;
    } else {
      var t := AppendMany(s, n - 1);
      AppendManyShape(s, n - 1);
      OneApart(s, t, n - 1);
      assert AppendMany(s, n) == AppendStep(t, "event", "rows", 0, Synced);
    }
  }

  lemma VisibleIff(s: State, n: nat)
    requires Sound(s) && n > 0
    ensures Visible(s, n) <==> !s.stuck && s.last + n !in s.acked
  {
    var t := AppendMany(s, n - 1);
    AppendManyShape(s, n - 1);
    ReadBackIff(t, "event", "rows", 0);
    assert AppendMany(s, n) == AppendStep(t, "event", "rows", 0, Synced);
  }

  // An appended entry can be read back unless its number is already acknowledged or the writer is stuck.
  lemma ReadBackIff(s: State, kind: string, rows: string, at: int)
    requires Sound(s)
    ensures NewEntry(s, kind, rows, at) in Pending(AppendStep(s, kind, rows, at, Synced)) <==>
              !s.stuck && s.last + 1 !in s.acked
  {
    var e := NewEntry(s, kind, rows, at);
    LastSeqBounds(s.file);
    UnackedMembers(s.file, s.consecutive, s.acked);
    assert (s.file + [e])[|s.file|] == e;
    UnackedMembers(s.file + [e], s.consecutive, s.acked);
  }

  // Every later batch can be read back if and only if the writer works and no remembered acknowledgement
  // lies above the last number in use: one that does swallows the batch that will be given that number.
  lemma AppendsVisibleIff(s: State)
    requires Sound(s)
    ensures (forall n: nat :: n > 0 ==> Visible(s, n)) <==> !s.stuck && (forall a :: a in s.acked ==> a <= s.last)
  {
    forall n: nat | n > 0 ensures Visible(s, n) <==> !s.stuck && s.last + n !in s.acked { VisibleIff(s, n); }
    assert s.stuck ==> !Visible(s, 1);
    if a :| a in s.acked && a > s.last {
      assert !Visible(s, a - s.last);
    }
  }

  // A restart leaves every later batch readable exactly when the acknowledgements it finds on disk
  // name no number above the highest one it recovers.
  lemma RestartVisibleIff(file: seq<Entry>, ackFile: AckFile)
    requires Increasing(file)
    ensures var s := Recover(file, ackFile);
            (forall n: nat :: n > 0 ==> Visible(s, n)) <==> (forall a :: a in AckedIn(ackFile) ==> a <= LastSeq(file))
  {
    var s := Recover(file, ackFile);
    AppendsVisibleIff(s);
    forall a | a in s.acked ensures a <= s.last <==> a <= LastSeq(file) {
      assert a > s.consecutive;
    }
  }

  // ---------------------------------------------------------------- the two ways it fails

  const EMPTY := Recover([], Unreadable)
  const EA := Entry(1, "event", Encoded("a"), 1)
  const EB := Entry(2, "event", Encoded("b"), 2)

  // Entries 1 and 2 with only 2 acknowledged.
  const FIRST_PENDING := State([EA, EB], Saved(0, {2}), 2, {2}, 0, false)

  const TO_FIRST_PENDING := [Append("event", "a", 1, Synced), Append("event", "b", 2, Synced), Ack(2)]

  lemma RunSnoc(s: State, ops: seq<Op>, op: Op)
    ensures Run(s, ops + [op]) == Apply(Run(s, ops), op)
    ensures AdmissibleRun(s, ops) && Admissible(Run(s, ops), op) ==> AdmissibleRun(s, ops + [op])
  {
    var all := ops + [op];
    assert all[..|ops|] == ops;
    if AdmissibleRun(s, ops) && Admissible(Run(s, ops), op) {
      forall i | 0 <= i < |all| ensures Admissible(Run(s, all[..i]), all[i]) {
        if i < |ops| { assert all[..i] == ops[..i]; }
      }
    }
  }

  lemma FirstPendingReached()
    ensures Reaches(EMPTY, TO_FIRST_PENDING, FIRST_PENDING)
  {
    var ops := TO_FIRST_PENDING;
    FirstPendingSteps();
    ReachesThen(EMPTY, [], EMPTY, ops[0]);
    ReachesThen(EMPTY, [] + [ops[0]], Apply(EMPTY, ops[0]), ops[1]);
    ReachesThen(EMPTY, [] + [ops[0]] + [ops[1]], Apply(Apply(EMPTY, ops[0]), ops[1]), ops[2]);
    assert [] + [ops[0]] + [ops[1]] + [ops[2]] == ops;
  }

  lemma FirstPendingSteps()
    ensures var ops, both := TO_FIRST_PENDING, FIRST_PENDING.(acked := {}, ackFile := Unreadable);
            Apply(Apply(EMPTY, ops[0]), ops[1]) == both && Admissible(both, ops[2]) && Apply(both, ops[2]) == FIRST_PENDING
  {
    assert [EA] + [EB] == [EA, EB];
    FirstPendingShape();
    AckTwo(FIRST_PENDING.(acked := {}, ackFile := Unreadable));
  }

  // With nothing acknowledged and watermark 0, acknowledging 2 leaves the watermark below the gap.
  lemma AckTwo(s: State)
    requires s.acked == {} && s.consecutive == 0
    ensures AckStep(s, 2) == s.(acked := {2}, ackFile := Saved(0, {2}))
  {
    assert {} + {2} == {2};
    assert 1 !in {2};
  }

  lemma FirstPendingShape()
    ensures Increasing(FIRST_PENDING.file) && LastSeq(FIRST_PENDING.file) == 2
    ensures Pending(FIRST_PENDING) == [EA] && Increasing([EA]) && LastSeq([EA]) == 1
  {
    var two := FIRST_PENDING.file;
    assert [EA][..0] == [] && two[..1] == [EA];
    assert Unacked([EA], 0, {2}) == [EA];
  }

  // A crash between installing the compacted log and writing the ack file: the restarted log hands
  // out 2 again and the batch stored under it is never read.
  lemma CrashInCompactHidesBatch()
    ensures Reaches(EMPTY, TO_FIRST_PENDING, FIRST_PENDING)
    ensures !Admissible(FIRST_PENDING, CrashInCompact) && !Visible(Apply(FIRST_PENDING, CrashInCompact), 1)
  {
    FirstPendingReached();
    FirstPendingCrash();
  }

  lemma FirstPendingCrash()
    ensures !Admissible(FIRST_PENDING, CrashInCompact) && !Visible(Apply(FIRST_PENDING, CrashInCompact), 1)
  {
    FirstPendingShape();
    var r := Apply(FIRST_PENDING, CrashInCompact);
    assert AckedIn(FIRST_PENDING.ackFile) == {2};
    assert r == State([EA], Saved(0, {2}), 1, {2}, 0, false);
    VisibleIff(r, 1);
  }

  // Number 1 lost in a failed write, number 2 stored, acknowledged and compacted away.
  const TO_COMPACTED := [Append("event", "x", 0, NotWritten), Compact, Append("event", "b", 2, Synced), Ack(2), Compact]

  const COMPACTED := State([], Saved(0, {}), 2, {}, 0, false)

  ghost predicate Reaches(s: State, ops: seq<Op>, t: State) { AdmissibleRun(s, ops) && Run(s, ops) == t }

  lemma ReachesThen(s: State, ops: seq<Op>, t: State, op: Op)
    requires Reaches(s, ops, t) && Admissible(t, op)
    ensures Reaches(s, ops + [op], Apply(t, op))
  {
    RunSnoc(s, ops, op);
  }

  lemma StoredReached()
    ensures Reaches(EMPTY, TO_COMPACTED[..3], STORED)
  {
    var ops := TO_COMPACTED;
    StepsToGap();
    StepToStored();
    ReachesThen(EMPTY, [], EMPTY, ops[0]);
    ReachesThen(EMPTY, [] + [ops[0]], Apply(EMPTY, ops[0]), ops[1]);
    ReachesThen(EMPTY, [] + [ops[0]] + [ops[1]], GAP, ops[2]);
    assert [] + [ops[0]] + [ops[1]] + [ops[2]] == ops[..3];
  }

  lemma CompactedReached()
    ensures Reaches(EMPTY, TO_COMPACTED, COMPACTED)
  {
    var ops := TO_COMPACTED;
    StoredReached();
    StepToStored();
    StepToAcked();
    StepToCompacted();
    ReachesThen(EMPTY, ops[..3], STORED, ops[3]);
    ReachesThen(EMPTY, ops[..3] + [ops[3]], ACKED, ops[4]);
    assert ops[..3] + [ops[3]] + [ops[4]] == ops;
  }

  const GAP := COMPACTED.(last := 1)
  const STORED := COMPACTED.(file := [EB])
  const ACKED := STORED.(ackFile := Saved(0, {2}), acked := {2})

  lemma StepsToGap()
    ensures Apply(Apply(EMPTY, TO_COMPACTED[0]), TO_COMPACTED[1]) == GAP
  {
  }

  lemma StepToStored()
    ensures Apply(GAP, TO_COMPACTED[2]) == STORED && Admissible(STORED, TO_COMPACTED[3])
  {
    assert [] + [EB] == [EB] && [EB][..0] == [];
    assert LastSeq([EB]) == 2;
  }

  lemma StepToAcked()
    ensures Apply(STORED, TO_COMPACTED[3]) == ACKED
  {
    AckTwo(STORED);
  }

  lemma StepToCompacted()
    ensures Apply(ACKED, TO_COMPACTED[4]) == COMPACTED
  {
    assert [EB][..0] == [];
    assert Unacked([EB], 0, {2}) == [];
  }

  // A second acknowledgement for a batch that compaction has already dropped, above a number that never
  // reached the file: after a restart the second new batch is never read.
  lemma AckAfterCompactHidesBatch()
    ensures Reaches(EMPTY, TO_COMPACTED, COMPACTED)
    ensures !Admissible(COMPACTED, Ack(2)) && !Visible(Apply(Apply(COMPACTED, Ack(2)), Restart), 2)
  {
    CompactedReached();
    CompactedAck();
  }

  lemma CompactedAck()
    ensures !Admissible(COMPACTED, Ack(2)) && !Visible(Apply(Apply(COMPACTED, Ack(2)), Restart), 2)
  {
    assert 1 !in COMPACTED.acked;
    var r := Apply(Apply(COMPACTED, Ack(2)), Restart);
    assert r == State([], Saved(0, {2}), 0, {2}, 0, false);
    VisibleIff(r, 2);
  }
}
