/** The bounded queue between acceptance and the workers, as the atomic sections its coroutines run
    between two awaits: one acceptance at a time under the lock, any number of workers. */
module Dispatcher {
  import opened Common

  datatype Item = Item(id: string, payload: string)

  datatype State = State(
    capacity: nat, queue: seq<Item>, pending: map<string, Item>, running: map<nat, Item>, accepting: Option<Item>)

  // How the runtime's acceptance of an item ends.
  datatype Acceptance = Ready | TerminalReplay | Raised

  datatype Reply = Waiting | Accepted | Duplicate | QueueFull | AcceptError | RejectedFull

  datatype Step =
    | BeginAccept(item: Item)        // lock taken, before runtime.accept is awaited
    | EndAccept(result: Acceptance)  // after it, up to releasing the lock
    | TakeUp(worker: nat)
    | Finish(worker: nat)            // the worker's finally block, however the execution ended

  predicate Enabled(s: State, step: Step) {
    match step
    case BeginAccept(_) => s.accepting.None?
    case EndAccept(_) => s.accepting.Some?
    case TakeUp(w) => w !in s.running && s.queue != []
    case Finish(w) => w in s.running
  }

  function Next(s: State, step: Step): (State, Reply)
    requires Enabled(s, step)
  {
    match step
    case BeginAccept(item) =>
      if item.id in s.pending then (s, Duplicate)
      else if |s.queue| >= s.capacity then (s, QueueFull)
      else (s.(accepting := Some(item)), Waiting)
    case EndAccept(result) =>
      var item, free := s.accepting.value, s.(accepting := None);
      if result.Raised? then (free, AcceptError)
      else if result.TerminalReplay? then (free, Duplicate)
      else if |s.queue| >= s.capacity then (free, RejectedFull)
      else (free.(queue := s.queue + [item], pending := s.pending[item.id := item]), Accepted)
    case TakeUp(w) => (s.(queue := s.queue[1..], running := s.running[w := s.queue[0]]), Waiting)
    case Finish(w) => (s.(running := s.running - {w}, pending := s.pending - {s.running[w].id}), Waiting)
  }

  // No invocation is queued twice, on two workers, or both queued and on a worker.
  ghost predicate Apart(queue: seq<Item>, running: map<nat, Item>) {
    && (forall i, j :: 0 <= i < j < |queue| ==> queue[i].id != queue[j].id)
    && (forall i, w :: 0 <= i < |queue| && w in running ==> queue[i].id != running[w].id)
    && (forall w, w' :: w in running && w' in running && running[w].id == running[w'].id ==> w == w')
  }

  // What is queued or on a worker is pending, and nothing else is.
  ghost predicate Recorded(queue: seq<Item>, running: map<nat, Item>, pending: map<string, Item>) {
    && (forall i :: 0 <= i < |queue| ==> queue[i].id in pending && pending[queue[i].id] == queue[i])
    && (forall w :: w in running ==> running[w].id in pending && pending[running[w].id] == running[w])
    && (forall id :: id in pending ==> Queued(queue, id) || OnWorker(running, id))
  }

  ghost predicate Queued(queue: seq<Item>, id: string) { exists i :: 0 <= i < |queue| && queue[i].id == id }

  ghost predicate OnWorker(running: map<nat, Item>, id: string) { exists w :: w in running && running[w].id == id }

  // The queue keeps its bound, and while an acceptance is under way there is room for what it may bring.
  ghost predicate Valid(s: State) {
    && |s.queue| <= s.capacity
    && Apart(s.queue, s.running)
    && Recorded(s.queue, s.running, s.pending)
    && (s.accepting.Some? ==> s.accepting.value.id !in s.pending && |s.queue| < s.capacity)
  }

  function Start(capacity: nat): State { State(capacity, [], map[], map[], None) }

  lemma QueueOne(queue: seq<Item>, running: map<nat, Item>, pending: map<string, Item>, item: Item)
    requires Apart(queue, running) && Recorded(queue, running, pending) && item.id !in pending
    ensures Apart(queue + [item], running) && Recorded(queue + [item], running, pending[item.id := item])
  {
    var queue', n := queue + [item], |queue|;
    assert forall i :: 0 <= i < n ==> queue'[i] == queue[i];
    assert queue'[n] == item;
    forall id | id in pending && Queued(queue, id) ensures Queued(queue', id) {
      var i :| 0 <= i < n && queue[i].id == id;
      assert queue'[i].id == id;
    }
  }

  lemma StartOne(queue: seq<Item>, running: map<nat, Item>, pending: map<string, Item>, w: nat)
    requires Apart(queue, running) && Recorded(queue, running, pending) && queue != [] && w !in running
    ensures Apart(queue[1..], running[w := queue[0]]) && Recorded(queue[1..], running[w := queue[0]], pending)
  {
    StartApart(queue, running, w);
    var queue', running' := queue[1..], running[w := queue[0]];
    assert forall i :: 0 <= i < |queue'| ==> queue'[i] == queue[i + 1];
    forall id | id in pending ensures Queued(queue', id) || OnWorker(running', id) {
      StillThere(queue, running, w, id);
    }
  }

  lemma StartApart(queue: seq<Item>, running: map<nat, Item>, w: nat)
    requires Apart(queue, running) && queue != [] && w !in running
    ensures Apart(queue[1..], running[w := queue[0]])
  {
    var queue', running' := queue[1..], running[w := queue[0]];
    assert forall i :: 0 <= i < |queue'| ==> queue'[i] == queue[i + 1];
    assert forall v :: v in running' <==> v in running || v == w;
    assert forall v :: v in running ==> running'[v] == running[v] && running[v].id != queue[0].id;
  }

  // Moving the head of the queue to a worker moves no invocation out of sight.
  lemma StillThere(queue: seq<Item>, running: map<nat, Item>, w: nat, id: string)
    requires queue != [] && w !in running && (Queued(queue, id) || OnWorker(running, id))
    ensures Queued(queue[1..], id) || OnWorker(running[w := queue[0]], id)
  {
    var running' := running[w := queue[0]];
    if Queued(queue, id) {
      var i :| 0 <= i < |queue| && queue[i].id == id;
      if i > 0 { assert queue[1..][i - 1].id == id; } else { assert running'[w].id == id; }
    } else {
      var v :| v in running && running[v].id == id;
      assert running'[v].id == id;
    }
  }

  lemma EndOne(queue: seq<Item>, running: map<nat, Item>, pending: map<string, Item>, w: nat)
    requires Apart(queue, running) && Recorded(queue, running, pending) && w in running
    ensures Apart(queue, running - {w}) && Recorded(queue, running - {w}, pending - {running[w].id})
  {
    var running', pending' := running - {w}, pending - {running[w].id};
    forall id | id in pending' && !Queued(queue, id) ensures OnWorker(running', id) {
      var v :| v in running && running[v].id == id;
      assert running'[v].id == id;
    }
  }

  // One atomic section of any coroutine keeps the invariant, and acceptance never finds the queue full
  // after the runtime has accepted.
  lemma StepKeepsValid(s: State, step: Step)
    requires Valid(s) && Enabled(s, step)
    ensures Valid(Next(s, step).0) && Next(s, step).1 != RejectedFull
  {
    match step
    case BeginAccept(_) =>
    case EndAccept(result) =>
      if result.Ready? { QueueOne(s.queue, s.running, s.pending, s.accepting.value); }
    case TakeUp(w) => StartOne(s.queue, s.running, s.pending, w);
    case Finish(w) => EndOne(s.queue, s.running, s.pending, w);
  }

  ghost predicate IsRun(states: seq<State>, steps: seq<Step>) {
    && |states| == |steps| + 1
    && forall i :: 0 <= i < |steps| ==> Enabled(states[i], steps[i]) && states[i + 1] == Next(states[i], steps[i]).0
  }

  // In every interleaving of acceptances and workers the invariant holds all along, and no accepted
  // work is turned away.
  lemma {:induction false} RunKeepsValid(capacity: nat, states: seq<State>, steps: seq<Step>, k: nat)
    requires IsRun(states, steps) && states[0] == Start(capacity) && k <= |steps|
    ensures Valid(states[k])
    ensures k < |steps| ==> Next(states[k], steps[k]).1 != RejectedFull
  {
    if k > 0 {
      RunKeepsValid(capacity, states, steps, k - 1);
      StepKeepsValid(states[k - 1], steps[k - 1]);
    }
    if k < |steps| { StepKeepsValid(states[k], steps[k]); }
  }

  // What a caller is told, by what is queued and running: a known invocation is a duplicate, an unknown one finds
  // the queue full or room in it. Nothing is queued yet.
  lemma BeginMeans(s: State, item: Item)
    requires Valid(s) && Enabled(s, BeginAccept(item))
    ensures var (s', reply) := Next(s, BeginAccept(item));
            && (reply == Duplicate <==> Queued(s.queue, item.id) || OnWorker(s.running, item.id))
            && (reply == QueueFull <==> reply != Duplicate && |s.queue| == s.capacity)
            && (reply == Waiting <==> reply != Duplicate && |s.queue| < s.capacity)
            && s' == s.(accepting := if reply == Waiting then Some(item) else None)
  {
    if item.id in s.pending { assert Queued(s.queue, item.id) || OnWorker(s.running, item.id); }
  }

  // Only what the runtime is ready to execute is queued, at the end. A run that it found terminal is answered as
  // a duplicate and an error is passed on, and neither changes what is queued, pending or running.
  lemma EndMeans(s: State, result: Acceptance)
    requires Valid(s) && Enabled(s, EndAccept(result))
    ensures var (s', reply) := Next(s, EndAccept(result));
            && s'.accepting.None? && s'.running == s.running && s'.capacity == s.capacity
            && (result == Ready ==> reply == Accepted && s'.queue == s.queue + [s.accepting.value])
            && (result == Ready ==> s'.pending.Keys == s.pending.Keys + {s.accepting.value.id})
            && (result == TerminalReplay ==> reply == Duplicate)
            && (result == Raised ==> reply == AcceptError)
            && (result != Ready ==> s'.queue == s.queue && s'.pending == s.pending)
  {
  }

  // A free worker takes the head of the queue; one that is done leaves, and its invocation is forgotten.
  lemma WorkerMeans(s: State, step: Step)
    requires Valid(s) && Enabled(s, step) && (step.TakeUp? || step.Finish?)
    ensures var s' := Next(s, step).0;
            && s'.capacity == s.capacity && s'.accepting == s.accepting
            && (step.TakeUp? ==> s'.queue == s.queue[1..] && s'.running == s.running[step.worker := s.queue[0]])
            && (step.TakeUp? ==> s'.pending == s.pending)
            && (step.Finish? ==> s'.queue == s.queue && s'.running == s.running - {step.worker})
            && (step.Finish? ==> s'.pending.Keys == s.pending.Keys - {s.running[step.worker].id})
  {
  }

  // The runtime was ready for it in one of the first k steps.
  ghost predicate WasReady(states: seq<State>, steps: seq<Step>, k: nat, item: Item) {
    k <= |steps| <= |states| && exists j :: 0 <= j < k && steps[j] == EndAccept(Ready) && states[j].accepting == Some(item)
  }

  // Whatever is queued or on a worker was found ready by the runtime before: nothing it found terminal, and
  // nothing it raised an error for, ever reaches a worker.
  lemma {:induction false} RunOnlyReady(capacity: nat, states: seq<State>, steps: seq<Step>, k: nat)
    requires IsRun(states, steps) && states[0] == Start(capacity) && k <= |steps|
    ensures forall i :: 0 <= i < |states[k].queue| ==> WasReady(states, steps, k, states[k].queue[i])
    ensures forall w :: w in states[k].running ==> WasReady(states, steps, k, states[k].running[w])
  {
    if k > 0 {
      RunOnlyReady(capacity, states, steps, k - 1);
      RunKeepsValid(capacity, states, steps, k - 1);
      var s, step, s' := states[k - 1], steps[k - 1], states[k];
      forall item | WasReady(states, steps, k - 1, item) ensures WasReady(states, steps, k, item) {}
      if step.EndAccept? { EndMeans(s, step.result); } else if step.BeginAccept? { BeginMeans(s, step.item); }
      else { WorkerMeans(s, step); }
    }
  }

  // An invocation stops being pending only when the worker that runs it is done with it, and starts
  // only by being accepted.
  lemma PendingChanges(s: State, step: Step, id: string)
    requires Valid(s) && Enabled(s, step)
    ensures (id in s.pending && id !in Next(s, step).0.pending) <==> (step.Finish? && s.running[step.worker].id == id)
    ensures (id !in s.pending && id in Next(s, step).0.pending)
       <==> (Next(s, step).1 == Accepted && s.accepting.value.id == id)
  {
  }

  // Work is taken up in the order in which it was accepted: what goes in goes in at the end, what comes
  // out comes out at the front.
  lemma QueueLedger(s: State, step: Step)
    requires Enabled(s, step)
    ensures s.queue + (if Next(s, step).1 == Accepted then [s.accepting.value] else [])
         == (if step.TakeUp? then [Next(s, step).0.running[step.worker]] else []) + Next(s, step).0.queue
  {
  }

  lemma {:induction false} QueueIds(queue: seq<Item>) returns (ids: set<string>)
    requires forall i, j :: 0 <= i < j < |queue| ==> queue[i].id != queue[j].id
    ensures |ids| == |queue| && forall id :: id in ids <==> Queued(queue, id)
  {
    if queue == [] {
      ids := {};
    } else {
      var front, last := queue[..|queue| - 1], queue[|queue| - 1];
      var rest := QueueIds(front);
      assert forall i :: 0 <= i < |front| ==> front[i] == queue[i];
      assert last.id !in rest;
      ids := rest + {last.id};
      forall id ensures id in ids <==> Queued(queue, id) {
        if Queued(front, id) {
          var i :| 0 <= i < |front| && front[i].id == id;
          assert queue[i].id == id;
        }
      }
    }
  }

  lemma {:induction false} WorkerIds(running: map<nat, Item>) returns (ids: set<string>)
    requires forall w, w' :: w in running && w' in running && running[w].id == running[w'].id ==> w == w'
    ensures |ids| == |running| && forall id :: id in ids <==> OnWorker(running, id)
    decreases |running|
  {
    if running == map[] {
      ids := {};
    } else {
      var w := SomeWorker(running);
      var rest := WorkerIds(running - {w});
      assert running.Keys == (running - {w}).Keys + {w};
      assert running[w].id !in rest;
      ids := rest + {running[w].id};
      forall id ensures id in ids <==> OnWorker(running, id) {
        if OnWorker(running - {w}, id) {
          var v :| v in running - {w} && (running - {w})[v].id == id;
          assert running[v].id == id;
        }
        if OnWorker(running, id) && id != running[w].id {
          var v :| v in running && running[v].id == id;
          assert (running - {w})[v].id == id;
        }
      }
    }
  }

  lemma SomeWorker<K, V>(m: map<K, V>) returns (k: K)
    requires m != map[]
    ensures k in m
  {
    assert m.Keys != {};
    k :| k in m.Keys;
  }

  // The number of pending invocations is the length of the queue plus the number of busy workers.
  lemma PendingCount(s: State)
    requires Valid(s)
    ensures |s.pending| == |s.queue| + |s.running|
  {
    var a := QueueIds(s.queue);
    var b := WorkerIds(s.running);
    PendingIsBoth(s, a, b);
    assert |s.pending.Keys| == |a + b| == |a| + |b|;
  }

  lemma PendingIsBoth(s: State, a: set<string>, b: set<string>)
    requires Valid(s)
    requires (forall id :: id in a <==> Queued(s.queue, id)) && (forall id :: id in b <==> OnWorker(s.running, id))
    ensures s.pending.Keys == a + b && a !! b
  {
    forall id ensures (id in s.pending.Keys <==> id in a + b) && !(id in a && id in b) {
      WhereIs(s, id);
    }
  }

  lemma WhereIs(s: State, id: string)
    requires Valid(s)
    ensures id in s.pending <==> Queued(s.queue, id) || OnWorker(s.running, id)
    ensures !(Queued(s.queue, id) && OnWorker(s.running, id))
  {
    if Queued(s.queue, id) {
      var i :| 0 <= i < |s.queue| && s.queue[i].id == id;
    }
    if OnWorker(s.running, id) {
      var w :| w in s.running && s.running[w].id == id;
    }
  }

  class InvestigationDispatcher {
    const capacity: nat
    var queue: seq<Item>
    var pending: map<string, Item>
    var running: map<nat, Item>
    var accepting: Option<Item>

    function Snapshot(): State reads this { State(capacity, queue, pending, running, accepting) }

    constructor (capacity: nat)
      requires capacity >= 1
      ensures Snapshot() == Start(capacity)
    {
      this.capacity := capacity;
      queue, pending, running, accepting := [], map[], map[], None;
    }

    method Begin(item: Item) returns (reply: Reply)
      requires Enabled(Snapshot(), BeginAccept(item))
      modifies this
      ensures (Snapshot(), reply) == Next(old(Snapshot()), BeginAccept(item))
    {
      if item.id in pending { return Duplicate; }
      if |queue| >= capacity { return QueueFull; }
      accepting := Some(item);
      return Waiting;
    }

    method End(result: Acceptance) returns (reply: Reply)
      requires Enabled(Snapshot(), EndAccept(result))
      modifies this
      ensures (Snapshot(), reply) == Next(old(Snapshot()), EndAccept(result))
    {
      var item := accepting.value;
      accepting := None;
      if result.Raised? { return AcceptError; }
      if result.TerminalReplay? { return Duplicate; }
      if |queue| >= capacity { return RejectedFull; }
      queue := queue + [item];
      pending := pending[item.id := item];
      return Accepted;
    }

    method Take(worker: nat) returns (item: Item)
      requires Enabled(Snapshot(), TakeUp(worker))
      modifies this
      ensures Snapshot() == Next(old(Snapshot()), TakeUp(worker)).0 && item == old(queue)[0]
    {
      item := queue[0];
      queue := queue[1..];
      running := running[worker := item];
    }

    method Done(worker: nat)
      requires Enabled(Snapshot(), Step.Finish(worker))
      modifies this
      ensures Snapshot() == Next(old(Snapshot()), Step.Finish(worker)).0
    {
      var item := running[worker];
      running := running - {worker};
      pending := pending - {item.id};
    }
  }
}
