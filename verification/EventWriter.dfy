/** The event writer object: its queue and its log, with the loops of the collector's code, each
    proved to compute what the transition system in Writer.dfy takes as one or several steps. */
module EventWriter {
  import opened Wal
  import opened Writer
  import opened WalLog
  import opened Common

  // The batches of a pass that ingest refused or seemed to refuse, in order.
  function FailedOf(bs: seq<Batch>, replies: seq<Reply>): seq<Batch>
    requires |bs| == |replies|
  {
    if bs == [] then []
    else
      var n := |bs| - 1;
      FailedOf(bs[..n], replies[..n]) + if replies[n].Accepted? then [] else [bs[n]]
  }

  function Failures(replies: seq<Reply>): nat {
    if replies == [] then 0 else Failures(replies[..|replies| - 1]) + if replies[|replies| - 1] == Accepted then 0 else 1
  }

  // Those that failed are kept in the order they had: each stands behind as many as failed before it.
  lemma {:induction false} KeptInOrder(bs: seq<Batch>, replies: seq<Reply>, i: nat)
    requires |bs| == |replies|
    ensures |FailedOf(bs, replies)| == Failures(replies)
    ensures i < |bs| && replies[i] != Accepted ==>
              Failures(replies[..i]) < Failures(replies) && FailedOf(bs, replies)[Failures(replies[..i])] == bs[i]
  {
    if bs != [] {
      var n := |bs| - 1;
      KeptInOrder(bs[..n], replies[..n], i);
      if i < n { assert replies[..n][..i] == replies[..i]; }
    }
  }

  // The log after the acknowledgements of a pass.
  function AckAll(s: State, bs: seq<Batch>, replies: seq<Reply>): State
    requires |bs| == |replies|
  {
    if bs == [] then s
    else
      var n := |bs| - 1;
      var t := AckAll(s, bs[..n], replies[..n]);
      if replies[n].Accepted? && bs[n].walSeq > 0 then AckStep(t, bs[n].walSeq) else t
  }

  function TakenIn(bs: seq<Batch>, replies: seq<Reply>): multiset<string>
    requires |bs| == |replies|
  {
    if bs == [] then multiset{}
    else
      var n := |bs| - 1;
      TakenIn(bs[..n], replies[..n]) + if replies[n].Refused? then multiset{} else multiset{bs[n].rows}
  }

  class Sender {
    const wal: WriteAheadLog
    var retry: seq<Batch>

    constructor (log: WriteAheadLog)
      ensures wal == log && retry == Recovered(Pending(log.Snapshot()))
    {
      wal, retry := log, [];
      new;
      var entries := log.ReadAll();
      for i := 0 to |entries|
        invariant wal == log && retry == Recovered(entries[..i])
      {
        assert entries[..i + 1][..i] == entries[..i];
        if entries[i].value.Encoded? {
          retry := retry + [Batch(entries[i].sq, entries[i].value.rows)];
        }
      }
      assert entries[..|entries|] == entries;
    }

    // A failed first send: store the rows, then hand the batch over to be queued.
    method StoreFailed(rows: string, at: int, io: Io) returns (b: Batch)
      modifies wal
      ensures wal.Snapshot() == AppendStep(old(wal.Snapshot()), "event", rows, at, io)
      ensures b == NewBatch(old(wal.Snapshot()), rows, io)
    {
      var sq := wal.Append("event", rows, at, io);
      b := Batch(sq, rows);
    }

    // A first send, and what follows if ingest does not confirm it.
    method Flush(rows: string, reply: Reply, at: int, io: Io) returns (toQueue: Option<Batch>)
      modifies wal
      ensures reply == Accepted ==> toQueue.None? && wal.Snapshot() == old(wal.Snapshot())
      ensures reply != Accepted ==> wal.Snapshot() == AppendStep(old(wal.Snapshot()), "event", rows, at, io)
      ensures reply != Accepted ==>
                toQueue == Some(Batch(if io == Synced && !old(wal.stuck) then old(wal.last) + 1 else 0, rows))
    {
      if reply.Accepted? { return None; }
      var b := StoreFailed(rows, at, io);
      return Some(b);
    }

    // One round of the wait for room in the queue. At shutdown the batch is left to the log, or kept in
    // memory if no log is configured.
    method TryEnqueue(b: Batch, shutdown: bool, logged: bool) returns (done: bool)
      modifies this
      ensures done <==> old(|retry|) < 100 || shutdown
      ensures retry == if old(|retry|) < 100 || (shutdown && !logged) then old(retry) + [b] else old(retry)
    {
      if |retry| < MAX_RETRY_BATCHES {
        retry := retry + [b];
        return true;
      }
      if !shutdown { return false; }
      if logged { return true; }
      retry := retry + [b];
      return true;
    }

    // newer stands for what other goroutines queue after the log was read.
    method ReplayWAL(newer: seq<Batch>)
      requires Valid(wal.Snapshot())
      modifies this
      ensures retry == Replayed(old(retry) + newer, Pending(wal.Snapshot()))
    {
      var entries := wal.ReadAll();
      retry := retry + newer;
      if |entries| == 0 { return; }
      NumbersPositive(wal.Snapshot());
      var seen := set b | b in retry && b.walSeq > 0 :: b.walSeq;
      ghost var whole := Replayed(retry, entries);
      for i := 0 to |entries|
        invariant Replayed(retry, entries[i..]) == whole
        invariant forall sq: nat :: sq > 0 ==> (sq in seen <==> Queued(retry, sq))
      {
        var e := entries[i];
        assert entries[i..][0] == e && entries[i..][1..] == entries[i + 1..];
        if e.sq in seen || |retry| >= MAX_RETRY_BATCHES { continue; }
        if e.value.Garbled? { continue; }
        QueuedSnoc(retry, Batch(e.sq, e.value.rows));
        retry := retry + [Batch(e.sq, e.value.rows)];
        seen := seen + {e.sq};
      }
    }

    // Send everything queued once; newer stands for what other goroutines queue meanwhile.
    method FlushRetry(replies: seq<Reply>, newer: seq<Batch>) returns (allSent: bool)
      requires |replies| == |retry|
      modifies this, wal
      ensures retry == FailedOf(old(retry), replies) + newer
      ensures allSent <==> forall i :: 0 <= i < |replies| ==> replies[i].Accepted?
      ensures var t := AckAll(old(wal.Snapshot()), old(retry), replies);
              wal.Snapshot() == if allSent then CompactStep(t) else t
    {
      var pending := retry;
      retry := newer;
      var failed := [];
      for i := 0 to |pending|
        invariant failed == FailedOf(pending[..i], replies[..i])
        invariant wal.Snapshot() == AckAll(old(wal.Snapshot()), pending[..i], replies[..i])
        invariant failed == [] <==> forall k :: 0 <= k < i ==> replies[k].Accepted?
        invariant retry == newer
      {
        assert pending[..i + 1][..i] == pending[..i] && replies[..i + 1][..i] == replies[..i];
        if !replies[i].Accepted? {
          failed := failed + [pending[i]];
          continue;
        }
        if pending[i].walSeq > 0 { wal.Ack(pending[i].walSeq); }
      }
      assert pending[..|pending|] == pending && replies[..|pending|] == replies;
      if |failed| > 0 {
        retry := failed + retry;
        return false;
      }
      wal.Compact();
      return true;
    }
  }

  lemma NumbersPositive(s: State)
    requires Valid(s)
    ensures forall i :: 0 <= i < |Pending(s)| ==> Pending(s)[i].sq > 0
  {
    AppendIsFresh(s);
    IncreasingPositive(Pending(s));
  }

  // The state a pass has reached after its first k sends.
  function PassState(w: Writer, replies: seq<Reply>, k: nat): Writer
    requires |replies| == |w.retry| && k <= |replies|
  {
    w.(retry := [], pass := Sending(w.retry[k..], FailedOf(w.retry[..k], replies[..k])),
       wal := AckAll(w.wal, w.retry[..k], replies[..k]),
       accepted := w.accepted + TakenIn(w.retry[..k], replies[..k]))
  }

  // An undisturbed pass of the transition system: its k-th send, for any answers, moves from one of
  // these states to the next.
  lemma PassOneSend(w: Writer, replies: seq<Reply>, k: nat)
    requires w.pass.Idle? && |replies| == |w.retry| && k < |replies|
    ensures Next(PassState(w, replies, k), Send(replies[k])) == PassState(w, replies, k + 1)
  {
    assert w.retry[..k + 1][..k] == w.retry[..k] && replies[..k + 1][..k] == replies[..k];
    assert w.retry[k..][0] == w.retry[k] && w.retry[k..][1..] == w.retry[k + 1..];
    var n := Next(PassState(w, replies, k), Send(replies[k]));
    assert FailedOf(w.retry[..k + 1], replies[..k + 1])
        == FailedOf(w.retry[..k], replies[..k]) + if replies[k].Accepted? then [] else [w.retry[k]];
    assert TakenIn(w.retry[..k + 1], replies[..k + 1])
        == TakenIn(w.retry[..k], replies[..k]) + if replies[k].Refused? then multiset{} else multiset{w.retry[k].rows};
    assert n.accepted == w.accepted + TakenIn(w.retry[..k + 1], replies[..k + 1]);
    assert n.pass.failed == FailedOf(w.retry[..k + 1], replies[..k + 1]);
  }

  // It starts with the whole queue taken.
  lemma PassStarts(w: Writer, replies: seq<Reply>)
    requires w.pass.Idle? && |replies| == |w.retry|
    ensures Next(w, Take) == PassState(w, replies, 0)
  {
    assert w.retry[..0] == [] && w.retry[0..] == w.retry;
  }

  // It ends with the batches that failed, still in order, ahead of those queued meanwhile, and the log
  // acknowledged and compacted, as FlushRetry leaves them.
  lemma PassEnds(w: Writer, replies: seq<Reply>, newer: seq<Batch>)
    requires w.pass.Idle? && |replies| == |w.retry|
    ensures var failed, t := FailedOf(w.retry, replies), AckAll(w.wal, w.retry, replies);
            Next(PassState(w, replies, |replies|).(retry := newer), Finish) ==
            w.(retry := failed + newer, wal := if failed == [] then CompactStep(t) else t,
               accepted := w.accepted + TakenIn(w.retry, replies))
  {
    var n := |replies|;
    assert w.retry[..n] == w.retry && replies[..n] == replies && w.retry[n..] == [];
    var end := PassState(w, replies, n).(retry := newer);
    assert end.pass == Sending([], FailedOf(w.retry, replies));
    assert FailedOf(w.retry, replies) == [] ==> FailedOf(w.retry, replies) + newer == newer;
  }

  // Whatever else happens during a pass only queues behind it: the pass is not touched and the
  // batches that fail go back ahead of the newer ones.
  lemma OthersOnlyQueueBehind(w: Writer, step: Step)
    requires Enabled(w, step) && w.pass.Sending?
    requires !step.Send? && !step.Finish? && !step.Stop? && !step.StopInCompact?
    ensures Next(w, step).pass == w.pass && w.retry <= Next(w, step).retry
  {
  }
}
