/** The write-ahead log object itself: the fields and loops of the collector's WAL, each operation
    proved to take the step the state machine in Wal.dfy describes. */
module WalLog {
  import opened Wal

  datatype Stats = Stats(records: nat, bytes: nat, oldest: int)

  function Bytes(entries: seq<Entry>): nat {
    if entries == [] then 0
    else Bytes(entries[..|entries| - 1]) +
         match entries[|entries| - 1].value case Encoded(rows) => |rows| case Garbled => 0
  }

  // Every decodable entry counts with its rows.
  lemma BytesMeans(entries: seq<Entry>, e: Entry)
    ensures Bytes([]) == 0
    ensures e.value.Encoded? ==> Bytes(entries + [e]) == Bytes(entries) + |e.value.rows|
    ensures e.value.Garbled? ==> Bytes(entries + [e]) == Bytes(entries)
  {
    assert (entries + [e])[..|entries|] == entries;
  }

  // The earliest known append time, 0 when there is none.
  function Oldest(entries: seq<Entry>): int {
    if entries == [] then 0
    else
      var sofar, at := Oldest(entries[..|entries| - 1]), entries[|entries| - 1].at;
      if at > 0 && (sofar == 0 || at < sofar) then at else sofar
  }

  lemma {:induction false} OldestIsMinimum(entries: seq<Entry>)
    ensures Oldest(entries) == 0 <==> forall e :: e in entries ==> e.at <= 0
    ensures Oldest(entries) != 0 ==> exists e :: e in entries && e.at == Oldest(entries)
    ensures forall e :: e in entries && e.at > 0 ==> 0 < Oldest(entries) <= e.at
  {
    if entries != [] {
      var front, e := entries[..|entries| - 1], entries[|entries| - 1];
      OldestIsMinimum(front);
      assert entries == front + [e];
      assert e in entries && forall x :: x in front ==> x in entries;
    }
  }

  class WriteAheadLog {
    // on disk
    var file: seq<Entry>
    var ackFile: AckFile
    // in memory
    var last: nat
    var acked: set<nat>
    var consecutive: nat
    var stuck: bool

    function Snapshot(): State reads this { State(file, ackFile, last, acked, consecutive, stuck) }

    // Opening a log reads back whatever a previous process left on disk.
    constructor (onDisk: seq<Entry>, ackOnDisk: AckFile)
      ensures Snapshot() == Recover(onDisk, ackOnDisk)
    {
      file, ackFile := onDisk, ackOnDisk;
      last, acked, consecutive, stuck := 0, AckedIn(ackOnDisk), WatermarkIn(ackOnDisk), false;
      new;
      var highest := ScanLastSeq();
      if highest > last { last := highest; }
      if last < consecutive { last := consecutive; }
    }

    method ScanLastSeq() returns (highest: nat)
      ensures highest == LastSeq(file)
    {
      highest := 0;
      for i := 0 to |file|
        invariant highest == LastSeq(file[..i])
      {
        assert file[..i + 1][..i] == file[..i];
        if file[i].sq > highest { highest := file[i].sq; }
      }
      assert file[..|file|] == file;
    }

    // The number is used up even when nothing reaches the file; a failed write makes all later ones fail.
    method Append(kind: string, rows: string, at: int, io: Io) returns (sq: nat)
      modifies this
      ensures Snapshot() == AppendStep(old(Snapshot()), kind, rows, at, io)
      ensures sq == if Reached(old(Snapshot()), io).Synced? then old(last) + 1 else 0
    {
      last := last + 1;
      if stuck { return 0; }
      if io.NotWritten? {
        stuck := true;
        return 0;
      }
      file := file + [Entry(last, kind, Encoded(rows), at)];
      if io.SyncFailed? { return 0; }
      return last;
    }

    method Ack(sq: nat)
      modifies this
      ensures Snapshot() == AckStep(old(Snapshot()), sq)
    {
      if sq > consecutive { acked := acked + {sq}; }
      ghost var reached := Advance(consecutive, acked);
      while consecutive + 1 in acked
        invariant Advance(consecutive, acked) == reached
        invariant file == old(file) && last == old(last) && ackFile == old(ackFile) && stuck == old(stuck)
        decreases |acked|
      {
        var next := consecutive + 1;
        acked := acked - {next};
        consecutive := next;
      }
      PersistAck();
    }

    method PersistAck()
      modifies this`ackFile
      ensures ackFile == Saved(consecutive, acked)
    {
      ackFile := Saved(consecutive, acked);
    }

    method ReadRemaining(after: nat) returns (out: seq<Entry>)
      ensures out == Unacked(file, after, acked)
    {
      out := [];
      for i := 0 to |file|
        invariant out == Unacked(file[..i], after, acked)
      {
        assert file[..i + 1][..i] == file[..i];
        if file[i].sq in acked { continue; }
        if file[i].sq > after { out := out + [file[i]]; }
      }
      assert file[..|file|] == file;
    }

    method ReadAll() returns (out: seq<Entry>)
      ensures out == Pending(Snapshot())
    {
      out := ReadRemaining(consecutive);
    }

    method PendingStats(now: int) returns (st: Stats)
      ensures var p := Pending(Snapshot());
              st == Stats(|p|, Bytes(p), if Oldest(p) == 0 then now else Oldest(p))
    {
      var entries := ReadRemaining(consecutive);
      UnackedMembers(file, consecutive, acked);
      var records, bytes, oldest := 0, 0, 0;
      for i := 0 to |entries|
        invariant records == i && bytes == Bytes(entries[..i]) && oldest == Oldest(entries[..i])
      {
        var e := entries[i];
        assert entries[..i + 1][..i] == entries[..i];
        assert e in entries;
        if e.sq <= consecutive { continue; }
        records := records + 1;
        if e.value.Encoded? { bytes := bytes + |e.value.rows|; }
        if e.at > 0 && (oldest == 0 || e.at < oldest) { oldest := e.at; }
      }
      assert entries[..|entries|] == entries;
      st := Stats(records, bytes, if oldest == 0 then now else oldest);
    }

    method Compact()
      modifies this
      ensures Snapshot() == CompactStep(old(Snapshot()))
    {
      if last <= consecutive {
        file := [];
        acked := {};
        return;
      }
      var remaining := ReadRemaining(consecutive);
      var kept := [];
      UnackedMembers(file, consecutive, acked);
      for i := 0 to |remaining|
        invariant kept == remaining[..i]
      {
        if remaining[i].sq in acked { continue; }
        kept := kept + [remaining[i]];
      }
      file := kept;
      stuck := false;
      acked := {};
      PersistAck();
    }
  }
}
