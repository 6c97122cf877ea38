/** The action executor against an API server that other clients write to at any moment: read, compare
    with what was approved, then write under a condition on what was read. */
module Executor {
  import opened Common
  import opened Patch

  datatype Key = Key(kind: Kind, ns: string, name: string)

  // Where a pod runs and what a drain looks at besides; the rest of an object is what Patch knows.
  datatype Placement = Placement(node: string, mirror: bool, daemon: bool)

  datatype Stored = Stored(obj: Obj, placement: Placement)

  datatype Snapshot = Snapshot(objects: map<Key, Stored>, revision: nat)

  // Versions come from one counter and a version is never given out twice.
  ghost predicate Sane(s: Snapshot) {
    forall k :: k in s.objects ==> 0 < s.objects[k].obj.version <= s.revision
  }

  // What can have happened since: everything there is either as it was or was written later.
  ghost predicate Later(a: Snapshot, b: Snapshot) {
    && a.revision <= b.revision
    && forall k :: k in b.objects ==>
         (k in a.objects && b.objects[k] == a.objects[k]) || b.objects[k].obj.version > a.revision
  }

  function Lookup(s: Snapshot, k: Key): Option<Stored> { if k in s.objects then Some(s.objects[k]) else None }

  lemma LaterTransitive(a: Snapshot, b: Snapshot, c: Snapshot)
    requires Later(a, b) && Later(b, c)
    ensures Later(a, c)
  {
  }

  // An object that still has the version it was read with is the object that was read.
  lemma SameVersionSameObject(read: Snapshot, now: Snapshot, k: Key)
    requires Sane(read) && Later(read, now) && k in read.objects && k in now.objects
    requires now.objects[k].obj.version == read.objects[k].obj.version
    ensures now.objects[k] == read.objects[k]
  {
  }

  // ---------------------------------------------------------------- the server

  datatype Effect = Patched(payload: Payload) | Deleted | Evicted

  // One of our mutations as it is asked for: on which object, and the identity and version it must have. No
  // identity is the empty text.
  datatype Request = Request(key: Key, effect: Effect, uid: string, version: nat)

  // A write by somebody else: putting an object, whatever its content, or removing one.
  datatype Foreign = Put(key: Key, what: Stored) | Remove(key: Key)

  // What we asked of the server in order, whether or not it arrived or was answered, each with the whole server
  // as it was at that instant. hit: the object a mutation changed, if it was carried out.
  datatype Event =
    | Got(key: Key, answered: bool, found: Option<Stored>, at: Snapshot)
    | Listed(node: string, answered: bool, pods: seq<(Key, Stored)>, at: Snapshot)
    | Sent(what: Request, hit: Option<Stored>, ok: bool, at: Snapshot)

  // An answer told the truth at its instant, and a mutation hit what was there.
  ghost predicate Truthful(e: Event) {
    match e
    case Got(key, answered, found, at) => answered ==> found == Lookup(at, key)
    case Listed(node, answered, pods, at) => answered ==> ListsDrainPods(pods, at, node)
    case Sent(r, hit, ok, at) =>
      && (hit.Some? ==> Lookup(at, r.key) == hit && (r.uid != "" ==> hit.value.obj.uid == r.uid)
                        && (r.version > 0 ==> hit.value.obj.version == r.version))
      && (ok ==> hit.Some?)
  }

  // Exactly the pods a drain of the node has to move.
  ghost predicate ListsDrainPods(pods: seq<(Key, Stored)>, at: Snapshot, node: string) {
    && (forall i :: 0 <= i < |pods| ==> Lookup(at, pods[i].0) == Some(pods[i].1) && DrainPod(pods[i].0, pods[i].1, node))
    && (forall k :: k in at.objects && DrainPod(k, at.objects[k], node) ==> (k, at.objects[k]) in pods)
  }

  predicate DrainPod(k: Key, s: Stored, node: string) {
    && k.kind == Pod && s.placement.node == node && !s.placement.mirror && !s.placement.daemon
    && k.name != "" && k.ns != ""
  }

  // All of it happened between these two moments.
  ghost predicate Between(t: seq<Event>, a: Snapshot, b: Snapshot) {
    && Later(a, b)
    && forall i :: 0 <= i < |t| ==> Sane(t[i].at) && Later(a, t[i].at) && Later(t[i].at, b) && Truthful(t[i])
  }

  lemma BetweenThen(t: seq<Event>, a: Snapshot, b: Snapshot, u: seq<Event>, c: Snapshot)
    requires Between(t, a, b) && Between(u, b, c)
    ensures Between(t + u, a, c)
  {
    LaterTransitive(a, b, c);
    forall i | 0 <= i < |t + u| ensures Later(a, (t + u)[i].at) && Later((t + u)[i].at, c) {
      if i < |t| { LaterTransitive(t[i].at, b, c); } else { LaterTransitive(a, b, u[i - |t|].at); }
    }
  }

  // From one moment to another our trace has only grown, by things that happened in between.
  ghost predicate Grown(t: seq<Event>, a: Snapshot, u: seq<Event>, b: Snapshot) {
    t <= u && Between(u[|t|..], a, b)
  }

  lemma GrownThen(t: seq<Event>, a: Snapshot, u: seq<Event>, b: Snapshot, v: seq<Event>, c: Snapshot)
    requires Grown(t, a, u, b) && Grown(u, b, v, c)
    ensures Grown(t, a, v, c) && v[|t|..] == u[|t|..] + v[|u|..]
  {
    assert v[|t|..] == u[|t|..] + v[|u|..];
    BetweenThen(u[|t|..], a, b, v[|u|..], c);
  }

  class ApiServer {
    var objects: map<Key, Stored>
    var revision: nat
    ghost var trace: seq<Event>

    function Now(): Snapshot reads this { Snapshot(objects, revision) }

    ghost predicate Since(t: seq<Event>, a: Snapshot) reads this { Sane(Now()) && Grown(t, a, trace, Now()) }

    method Interference()
      requires Sane(Now())
      modifies this
      ensures Since(old(trace), old(Now())) && trace == old(trace)
    {
      var writes: seq<Foreign> := *;
      for i := 0 to |writes|
        invariant Sane(Now()) && Later(old(Now()), Now()) && trace == old(trace)
      {
        revision := revision + 1;
        match writes[i] {
          case Put(key, what) => objects := objects[key := what.(obj := what.obj.(version := revision))];
          case Remove(key) => objects := objects - {key};
        }
      }
    }

    // The object, or no answer; an answer that there is none and no answer at all are kept apart.
    method Get(key: Key) returns (answered: bool, found: Option<Stored>)
      modifies this`trace
      ensures answered ==> found == Lookup(Now(), key)
      ensures trace == old(trace) + [Got(key, answered, found, Now())]
    {
      answered := *;
      found := if answered && key in objects then Some(objects[key]) else None;
      trace := trace + [Got(key, answered, found, Now())];
    }

    // A merge patch that names the version it expects is refused on any other. The answer may get lost.
    method PatchObject(key: Key, payload: Payload, version: nat) returns (ok: bool, ghost hit: Option<Stored>)
      requires Sane(Now()) && version > 0
      modifies this
      ensures Since(old(trace), old(Now()))
      ensures trace == old(trace) + [Sent(Request(key, Patched(payload), "", version), hit, ok, old(Now()))]
      ensures hit.None? ==> Now() == old(Now())
      ensures hit.Some? ==> key in objects && objects[key].obj == Merge(hit.value.obj, payload).(version := revision)
    {
      var arrives: bool := *;
      ghost var before := Now();
      ok, hit := false, None;
      if arrives && key in objects && objects[key].obj.version == version {
        hit := Some(objects[key]);
        revision := revision + 1;
        objects := objects[key := objects[key].(obj := Merge(objects[key].obj, payload).(version := revision))];
        ok := *;
      }
      trace := trace + [Sent(Request(key, Patched(payload), "", version), hit, ok, before)];
    }

    // Deleting or evicting a pod under preconditions on its identity and, if it is positive, its version. The
    // pod is gone, or while its grace period lasts there with a new version.
    method RemovePod(key: Key, uid: string, version: nat, effect: Effect) returns (ok: bool, ghost hit: Option<Stored>)
      requires Sane(Now())
      modifies this
      ensures Since(old(trace), old(Now()))
      ensures trace == old(trace) + [Sent(Request(key, effect, uid, version), hit, ok, old(Now()))]
      ensures hit.None? ==> Now() == old(Now())
      ensures hit.Some? && key in objects ==> objects[key] == hit.value.(obj := hit.value.obj.(version := revision))
    {
      var arrives: bool := *;
      ghost var before := Now();
      ok, hit := false, None;
      if arrives && key in objects && (uid == "" || objects[key].obj.uid == uid)
         && (version == 0 || objects[key].obj.version == version) {
        hit := Some(objects[key]);
        revision := revision + 1;
        var graceful: bool := *;
        objects := if graceful then objects[key := objects[key].(obj := objects[key].obj.(version := revision))]
                   else objects - {key};
        ok := *;
      }
      trace := trace + [Sent(Request(key, effect, uid, version), hit, ok, before)];
    }

    // The pods a drain of a node has to move: no mirror pods, none owned by a daemon set, none nameless.
    method ListDrainPods(node: string) returns (answered: bool, pods: seq<(Key, Stored)>)
      modifies this`trace
      ensures answered ==> ListsDrainPods(pods, Now(), node)
      ensures trace == old(trace) + [Listed(node, answered, pods, Now())]
    {
      pods := [];
      answered := *;
      if !answered {
        trace := trace + [Listed(node, false, [], Now())];
        return;
      }
      var todo := objects.Keys;
      while todo != {}
        invariant todo <= objects.Keys && trace == old(trace)
        invariant forall i :: 0 <= i < |pods| ==>
                    Lookup(Now(), pods[i].0) == Some(pods[i].1) && DrainPod(pods[i].0, pods[i].1, node)
        invariant forall k :: k in objects && k !in todo && DrainPod(k, objects[k], node) ==> (k, objects[k]) in pods
      {
        var key := PickAny(todo);
        todo := todo - {key};
        if key.kind != Pod || objects[key].placement.node != node { continue; }
        if objects[key].placement.mirror { continue; }
        if objects[key].placement.daemon || key.name == "" || key.ns == "" { continue; }
        pods := pods + [(key, objects[key])];
      }
      trace := trace + [Listed(node, true, pods, Now())];
    }
  }

  // ---------------------------------------------------------------- the executor

  datatype Mode = Disabled | Manual | Approved

  // What was approved: the action, the identity of its target, and the version if one was recorded.
  datatype Order = Order(action: Action, uid: string, version: Option<nat>, idsGiven: bool)

  datatype Verdict = Rejected | Drifted | ReadFailed | DryRun | MutationFailed | Succeeded

  function TargetOf(a: Action): Key { Key(a.kind, Strip(a.ns), a.name) }

  // What an approved action does to its target.
  predicate Intended(a: Action, effect: Effect) {
    match a.op
    case DeletePod => effect == Deleted
    case EvictPod => effect == Evicted
    case Drain => effect == Patched(NO_PAYLOAD.(unschedulable := Some(true)))
    case _ => effect.Patched? && BuildPatchPayload(a) == Ok(effect.payload)
  }

  // An action that can be carried out: its parameters are there and fit its target.
  predicate Routable(a: Action) {
    match a.op
    case DeletePod => a.kind == Pod && GraceGiven(a.spec)
    case EvictPod => a.kind == Pod && GraceGiven(a.spec)
    case Drain => a.kind == Node && TimeoutGiven(a.spec)
    case _ => BuildPatchPayload(a).Ok?
  }

  predicate GraceGiven(spec: Spec) { spec.Object? && spec.grace.Is? && 0 <= spec.grace.value <= 600 }

  predicate TimeoutGiven(spec: Spec) { spec.Object? && spec.timeout.Is? && 1 <= spec.timeout.value <= 3600 }

  predicate RemovesPod(a: Action) { a.op == DeletePod || a.op == EvictPod }

  // The approved effect is asked for on the approved target in the version that was read, and what it hits, if
  // anything, is exactly what was read.
  ghost predicate OnTarget(e: Event, o: Order, read: Stored) {
    && e.Sent? && e.what.key == TargetOf(o.action) && Intended(o.action, e.what.effect)
    && e.what.version == read.obj.version && e.what.uid == (if RemovesPod(o.action) then o.uid else "")
    && (e.hit.Some? ==> e.hit.value == read)
  }

  // Evictions of the first pods of a list are asked for in its order, each only of the pod as it was listed, and
  // each but the last was confirmed.
  ghost predicate Evictions(t: seq<Event>, pods: seq<(Key, Stored)>) {
    && |t| <= |pods|
    && forall i :: 0 <= i < |t| ==>
         && t[i].Sent? && t[i].what == Request(pods[i].0, Evicted, pods[i].1.obj.uid, pods[i].1.obj.version)
         && (t[i].hit.Some? ==> t[i].hit.value == pods[i].1)
         && (i < |t| - 1 ==> t[i].ok)
  }

  // It ends because everything was confirmed, or because the last request was not.
  ghost predicate Ends(t: seq<Event>, all: nat, ok: bool) {
    if ok then |t| == all && (t != [] ==> t[|t| - 1].Sent? && t[|t| - 1].ok)
    else t != [] && t[|t| - 1].Sent? && !t[|t| - 1].ok
  }

  // The node is cordoned as it was read, and only then the pods are evicted.
  ghost predicate CordonTrace(t: seq<Event>, ok: bool, o: Order, read: Stored, pods: seq<(Key, Stored)>) {
    && t != [] && OnTarget(t[0], o, read) && Ends(t, 1 + |pods|, ok)
    && (if t[0].ok then Evictions(t[1..], pods) else |t| == 1)
  }

  // Before that the pods are listed.
  ghost predicate DrainTrace(t: seq<Event>, ok: bool, o: Order, read: Stored) {
    && t != [] && t[0].Listed? && t[0].node == o.action.name
    && (if t[0].answered then CordonTrace(t[1..], ok, o, read, t[0].pods) else |t| == 1 && !ok)
  }

  ghost predicate Routed(t: seq<Event>, ok: bool, o: Order, read: Stored) {
    if !Routable(o.action) then t == [] && !ok
    else if o.action.op == Drain then DrainTrace(t, ok, o, read)
    else |t| == 1 && OnTarget(t[0], o, read) && ok == t[0].ok
  }

  // The approved target is read first, and only if it is there and as it was approved does anything follow.
  ghost predicate ExecuteTrace(t: seq<Event>, o: Order, ok: bool) {
    t != [] ==>
      && t[0].Got? && t[0].key == TargetOf(o.action)
      && (|t| > 1 || ok ==> Unchanged(t, o) && Routed(t[1..], ok, o, t[0].found.value))
  }

  // The read was answered, and the target is there with the approved identity and, if one was approved, version.
  predicate Unchanged(t: seq<Event>, o: Order) {
    && t != [] && t[0].Got? && t[0].answered && t[0].found.Some? && t[0].found.value.obj.uid == o.uid
    && (o.version.None? || t[0].found.value.obj.version == o.version.value)
  }

  predicate Admitted(mode: Mode, verifyKey: bool, client: bool, o: Order) {
    mode != Disabled && ValidTarget(o.action) && o.idsGiven && (mode == Approved ==> verifyKey && client)
  }

  // What such a trace means: every mutation of an execution hits an object that is, at that instant, exactly
  // as an earlier read of this execution showed it. It is the approved target, with the approved identity and,
  // if one was approved, version, or else a pod listed for the drain of the approved node.
  lemma NothingStale(t: seq<Event>, a: Snapshot, b: Snapshot, o: Order, ok: bool, i: nat)
    requires ExecuteTrace(t, o, ok) && Between(t, a, b) && i < |t| && t[i].Sent? && t[i].hit.Some?
    ensures var key, hit := t[i].what.key, t[i].hit.value;
            && (exists j :: 0 <= j < i && !t[j].Sent? && t[j].answered
                  && Lookup(t[j].at, key) == Lookup(t[i].at, key) == Some(hit))
            && if i == 1 || i == 2
               then key == Key(o.action.kind, Strip(o.action.ns), o.action.name) && Intended(o.action, t[i].what.effect)
                    && hit.obj.uid == o.uid && (o.version.Some? ==> hit.obj.version == o.version.value)
               else o.action.op == Drain && t[i].what.effect == Evicted && key.kind == Pod
                    && hit.placement.node == o.action.name && !hit.placement.mirror && !hit.placement.daemon
  {
    assert Truthful(t[i]) && Truthful(t[0]) && Truthful(t[1]);
    var read := t[0].found.value;
    if o.action.op == Drain {
      assert t[1..][1..] == t[2..];
      if i > 2 { assert t[2..][1..][i - 3] == t[i]; }
    }
    assert Lookup(t[if i <= 2 then 0 else 1].at, t[i].what.key) == Some(t[i].hit.value);
  }

  // Which actions can be carried out: pods are removed with a grace period of at most ten minutes, nodes drained
  // within an hour, and everything else needs a patch.
  lemma RoutableIff(a: Action)
    ensures Routable(a) <==>
              match a.op
              case DeletePod => a.kind == Pod && exists n :: HasGrace(a.spec, n) && 0 <= n <= 600
              case EvictPod => a.kind == Pod && exists n :: HasGrace(a.spec, n) && 0 <= n <= 600
              case Drain => a.kind == Node && exists n :: HasTimeout(a.spec, n) && 1 <= n <= 3600
              case _ => BuildPatchPayload(a).Ok?
  {
    if a.spec.Object? && a.spec.grace.Is? { assert HasGrace(a.spec, a.spec.grace.value); }
    if a.spec.Object? && a.spec.timeout.Is? { assert HasTimeout(a.spec, a.spec.timeout.value); }
  }

  predicate HasGrace(spec: Spec, n: int) { spec.Object? && spec.grace == Is(n) }

  predicate HasTimeout(spec: Spec, n: int) { spec.Object? && spec.timeout == Is(n) }

  // What is asked of the target, by operation.
  lemma IntendedMeans(a: Action, effect: Effect)
    requires Intended(a, effect)
    ensures a.op == DeletePod ==> effect == Deleted
    ensures a.op == EvictPod ==> effect == Evicted
    ensures a.op == Drain || a.op == Operation.Cordon ==> effect == Patched(Payload(map[], None, Some(true)))
    ensures a.op == Uncordon ==> effect == Patched(Payload(map[], None, Some(false)))
    ensures a.op == Scale && NamedCount(a.spec).Some? ==> effect == Patched(Payload(map[], Some(a.spec.replicas.value), None))
  {
  }

  method HandleExecute(api: ApiServer, mode: Mode, verifyKey: bool, client: bool, o: Order) returns (verdict: Verdict)
    requires Sane(api.Now())
    modifies api
    ensures api.Since(old(api.trace), old(api.Now()))
    ensures ExecuteTrace(api.trace[|old(api.trace)|..], o, verdict == Succeeded)
    ensures var t := api.trace[|old(api.trace)|..];
            // the target is read exactly if the request is admitted and there is a client to read it with
            && (t != [] <==> Admitted(mode, verifyKey, client, o) && client)
            && (verdict == Rejected <==>
                  || mode == Disabled || !o.idsGiven || !ValidTarget(o.action)
                  || (mode == Approved && (!verifyKey || !client)))
            && (verdict == ReadFailed <==> t != [] && (!t[0].answered || t[0].found.None?))
            && (verdict == Drifted <==> t != [] && t[0].answered && t[0].found.Some? && !Unchanged(t, o))
            // an unchanged target is left alone exactly if execution is not approved
            && (verdict == DryRun <==> Admitted(mode, verifyKey, client, o) && (!client || (mode != Approved && Unchanged(t, o))))
            && (|t| > 1 ==> mode == Approved && Unchanged(t, o))
            // otherwise the action is attempted if it can be built, and fails only if a request does
            && (verdict == Succeeded || verdict == MutationFailed <==> mode == Approved && Unchanged(t, o))
            && (verdict == MutationFailed ==> Routed(t[1..], false, o, t[0].found.value))
  {
    if mode == Disabled || !ValidTarget(o.action) || !o.idsGiven { return Rejected; }
    if mode == Approved && (!verifyKey || !client) { return Rejected; }
    if !client { return DryRun; }
    var answered, found, drift := ReadCurrentState(api, o);
    ghost var first, s0 := api.trace, api.Now();
    assert first[|old(api.trace)|..] == [Got(TargetOf(o.action), answered, found, s0)];
    if !answered || found.None? { return ReadFailed; }
    if drift { return Drifted; }
    if mode != Approved { return DryRun; }
    api.Interference();
    ghost var s1 := api.Now();
    GrownThen(old(api.trace), old(api.Now()), first, s0, first, s1);
    var ok := PatchTarget(api, o, found.value, s0);
    GrownThen(old(api.trace), old(api.Now()), first, s1, api.trace, api.Now());
    ghost var t := api.trace[|old(api.trace)|..];
    assert t == [first[|old(api.trace)|]] + api.trace[|first|..] && t[1..] == api.trace[|first|..];
    return if ok then Succeeded else MutationFailed;
  }

  // Read the target again and compare it with what was approved.
  method ReadCurrentState(api: ApiServer, o: Order) returns (answered: bool, found: Option<Stored>, drift: bool)
    requires Sane(api.Now())
    modifies api
    ensures api.Since(old(api.trace), old(api.Now()))
    ensures answered ==> found == Lookup(api.Now(), TargetOf(o.action))
    ensures api.trace == old(api.trace) + [Got(TargetOf(o.action), answered, found, api.Now())]
    ensures drift <==> answered && found.Some? &&
                       (found.value.obj.uid != o.uid || (o.version.Some? && found.value.obj.version != o.version.value))
  {
    api.Interference();
    answered, found := api.Get(TargetOf(o.action));
    drift := answered && found.Some?
             && (found.value.obj.uid != o.uid || (o.version.Some? && found.value.obj.version != o.version.value));
  }

  // Route an approved action whose target was read and found unchanged.
  method PatchTarget(api: ApiServer, o: Order, found: Stored, ghost s0: Snapshot) returns (ok: bool)
    requires Sane(s0) && Sane(api.Now()) && Later(s0, api.Now())
    requires Lookup(s0, TargetOf(o.action)) == Some(found) && found.obj.uid == o.uid
    modifies api
    ensures api.Since(old(api.trace), old(api.Now()))
    ensures Routed(api.trace[|old(api.trace)|..], ok, o, found)
  {
    var a := o.action;
    ghost var hit;
    ok := false;
    if a.op == DeletePod || a.op == EvictPod {
      if !GraceGiven(a.spec) || a.kind != Pod { return; }
      ok, hit := api.RemovePod(TargetOf(a), o.uid, found.obj.version, if a.op == DeletePod then Deleted else Evicted);
    } else if a.op == Drain {
      if a.kind != Node || !TimeoutGiven(a.spec) { return; }
      ok := DrainNode(api, o, found, s0);
      return;
    } else {
      var payload := BuildPatchPayload(a);
      if payload.Err? { return; }
      ok, hit := api.PatchObject(TargetOf(a), payload.value, found.obj.version);
    }
    HitAsRead(s0, old(api.Now()), api.trace[|old(api.trace)|], found);
  }

  // A request that names the version that was read hits nothing but what was read.
  lemma HitAsRead(s0: Snapshot, now: Snapshot, e: Event, found: Stored)
    requires Sane(s0) && Later(s0, now) && e.Sent? && Truthful(e) && e.at == now
    requires Lookup(s0, e.what.key) == Some(found) && e.what.version == found.obj.version
    ensures e.hit.Some? ==> e.hit.value == found
  {
  }

  // List the pods, cordon the node as it was read, then evict the pods as they were listed, one after
  // the other, up to the first that fails.
  method DrainNode(api: ApiServer, o: Order, found: Stored, ghost s0: Snapshot) returns (ok: bool)
    requires Sane(s0) && Sane(api.Now()) && Later(s0, api.Now())
    requires Lookup(s0, TargetOf(o.action)) == Some(found) && o.action.op == Drain
    modifies api
    ensures api.Since(old(api.trace), old(api.Now()))
    ensures DrainTrace(api.trace[|old(api.trace)|..], ok, o, found)
  {
    ghost var listed := api.Now();
    var answered, pods := api.ListDrainPods(o.action.name);
    ghost var first := api.trace;
    assert first[|old(api.trace)|..] == [Listed(o.action.name, answered, pods, listed)];
    if !answered { return false; }
    ok := CordonAndEvict(api, o, found, s0, pods, listed);
    GrownThen(old(api.trace), listed, first, listed, api.trace, api.Now());
    ghost var t := api.trace[|old(api.trace)|..];
    assert t[0] == first[|old(api.trace)|] && t[1..] == api.trace[|first|..];
  }

  method CordonAndEvict(api: ApiServer, o: Order, found: Stored, ghost s0: Snapshot, pods: seq<(Key, Stored)>,
                        ghost listed: Snapshot)
    returns (ok: bool)
    requires Sane(s0) && Sane(api.Now()) && Later(s0, api.Now()) && Sane(listed) && Later(listed, api.Now())
    requires Lookup(s0, TargetOf(o.action)) == Some(found) && o.action.op == Drain
    requires forall i :: 0 <= i < |pods| ==> Lookup(listed, pods[i].0) == Some(pods[i].1)
    modifies api
    ensures api.Since(old(api.trace), old(api.Now()))
    ensures CordonTrace(api.trace[|old(api.trace)|..], ok, o, found, pods)
  {
    var cordoned := Cordon(api, o, found, s0);
    ghost var first, s1 := api.trace, api.Now();
    assert |first[|old(api.trace)|..]| == 1;
    if !cordoned { return false; }
    LaterTransitive(listed, old(api.Now()), s1);
    ok := EvictAll(api, pods, listed);
    GrownThen(old(api.trace), old(api.Now()), first, s1, api.trace, api.Now());
    CordonThen(first[|old(api.trace)|], api.trace[|first|..], ok, o, found, pods);
  }

  lemma CordonThen(cordon: Event, t: seq<Event>, ok: bool, o: Order, found: Stored, pods: seq<(Key, Stored)>)
    requires OnTarget(cordon, o, found) && cordon.ok && Evictions(t, pods) && Ends(t, |pods|, ok)
    ensures CordonTrace([cordon] + t, ok, o, found, pods)
  {
    assert ([cordon] + t)[1..] == t;
  }

  // Make the node unschedulable, provided it is still as it was read.
  method Cordon(api: ApiServer, o: Order, found: Stored, ghost s0: Snapshot) returns (ok: bool)
    requires Sane(s0) && Sane(api.Now()) && Later(s0, api.Now())
    requires Lookup(s0, TargetOf(o.action)) == Some(found) && o.action.op == Drain
    modifies api
    ensures api.Since(old(api.trace), old(api.Now())) && |api.trace| == |old(api.trace)| + 1
    ensures OnTarget(api.trace[|old(api.trace)|], o, found) && ok == api.trace[|old(api.trace)|].ok
  {
    api.Interference();
    LaterTransitive(s0, old(api.Now()), api.Now());
    ghost var s1, hit := api.Now(), None;
    ok, hit := api.PatchObject(TargetOf(o.action), NO_PAYLOAD.(unschedulable := Some(true)), found.obj.version);
    GrownThen(old(api.trace), old(api.Now()), old(api.trace), s1, api.trace, api.Now());
    HitAsRead(s0, s1, api.trace[|old(api.trace)|], found);
  }

  // Evict the pods of a list in order; each only if it is still the pod that was listed.
  method EvictAll(api: ApiServer, pods: seq<(Key, Stored)>, ghost listed: Snapshot) returns (ok: bool)
    requires Sane(listed) && Sane(api.Now()) && Later(listed, api.Now())
    requires forall i :: 0 <= i < |pods| ==> Lookup(listed, pods[i].0) == Some(pods[i].1)
    modifies api
    ensures api.Since(old(api.trace), old(api.Now()))
    ensures Evictions(api.trace[|old(api.trace)|..], pods) && Ends(api.trace[|old(api.trace)|..], |pods|, ok)
  {
    for i := 0 to |pods|
      invariant api.Since(old(api.trace), old(api.Now()))
      invariant Evictions(api.trace[|old(api.trace)|..], pods) && Ends(api.trace[|old(api.trace)|..], i, true)
    {
      ghost var done, before := api.trace, api.Now();
      LaterTransitive(listed, old(api.Now()), before);
      var evicted := EvictOne(api, pods[i], listed);
      GrownThen(old(api.trace), old(api.Now()), done, before, api.trace, api.Now());
      EvictionsThen(done[|old(api.trace)|..], api.trace[|done|..], pods, evicted);
      if !evicted { return false; }
    }
    return true;
  }

  lemma EvictionsThen(t: seq<Event>, u: seq<Event>, pods: seq<(Key, Stored)>, ok: bool)
    requires Evictions(t, pods) && |t| < |pods| && Ends(t, |t|, true) && Evictions(u, [pods[|t|]]) && Ends(u, 1, ok)
    ensures Evictions(t + u, pods) && Ends(t + u, |t| + 1, ok)
  {
  }

  method EvictOne(api: ApiServer, pod: (Key, Stored), ghost listed: Snapshot) returns (ok: bool)
    requires Sane(listed) && Sane(api.Now()) && Later(listed, api.Now())
    requires Lookup(listed, pod.0) == Some(pod.1)
    modifies api
    ensures api.Since(old(api.trace), old(api.Now()))
    ensures Evictions(api.trace[|old(api.trace)|..], [pod]) && Ends(api.trace[|old(api.trace)|..], 1, ok)
  {
    api.Interference();
    ghost var s, hit := api.Now(), None;
    LaterTransitive(listed, old(api.Now()), s);
    ok, hit := api.RemovePod(pod.0, pod.1.obj.uid, pod.1.obj.version, Evicted);
    GrownThen(old(api.trace), old(api.Now()), old(api.trace), s, api.trace, api.Now());
    HitAsRead(listed, s, api.trace[|old(api.trace)|], pod.1);
  }

  // ---------------------------------------------------------------- reconciliation

  datatype Judgement = Applied | NotApplied | UidDrift | Unknown

  predicate DrainsNode(a: Action) { a.kind == Node && a.op == Drain }

  // The target is read, and if it is there and to be drained the pods are listed.
  ghost predicate ReconcileTrace(t: seq<Event>, a: Action) {
    && t != [] && t[0].Got? && t[0].key == TargetOf(a)
    && (if t[0].answered && t[0].found.Some? && DrainsNode(a) then |t| == 2 && t[1].Listed? && t[1].node == a.name
        else |t| == 1)
  }

  // What the server answered shows this object, with this many pods left to move.
  ghost predicate Shows(t: seq<Event>, a: Action, s: Stored, podsLeft: nat) {
    && t != [] && t[0].Got? && t[0].answered && t[0].found == Some(s)
    && if DrainsNode(a) then |t| == 2 && t[1].Listed? && t[1].answered && podsLeft == |t[1].pods| else podsLeft == 0
  }

  // After a lost answer: read, compare, never write. A pod that is gone counts as deleted.
  method HandleReconcile(api: ApiServer, client: bool, a: Action, uid: string) returns (j: Judgement)
    requires Sane(api.Now())
    modifies api
    ensures api.Since(old(api.trace), old(api.Now()))
    ensures if client && ValidTarget(a) then ReconcileTrace(api.trace[|old(api.trace)|..], a) else api.trace == old(api.trace)
    ensures var t := api.trace[|old(api.trace)|..];
            && (j == Applied <==>
                  || (t != [] && t[0].answered && t[0].found.None? && (a.op == DeletePod || a.op == EvictPod))
                  || (exists s, left :: Shows(t, a, s, left) && s.obj.uid == uid && DesiredStateMatches(a, s.obj, left) == Ok(true)))
            && (j == NotApplied <==>
                  exists s, left :: Shows(t, a, s, left) && s.obj.uid == uid && DesiredStateMatches(a, s.obj, left) == Ok(false))
            && (j == UidDrift <==> exists s, left :: Shows(t, a, s, left) && s.obj.uid != uid)
  {
    j := Unknown;
    if !client || !ValidTarget(a) { return; }
    api.Interference();
    ghost var s0 := api.Now();
    var answered, found := api.Get(TargetOf(a));
    ghost var first := api.trace;
    assert first[|old(api.trace)|..] == [Got(TargetOf(a), answered, found, s0)];
    if !answered { return; }
    if found.None? {
      j := if a.op == DeletePod || a.op == EvictPod then Applied else Unknown;
      return;
    }
    var remaining := 0;
    if a.kind == Node && a.op == Drain {
      api.Interference();
      ghost var s1 := api.Now();
      GrownThen(old(api.trace), old(api.Now()), first, s0, first, s1);
      var listed, pods := api.ListDrainPods(a.name);
      assert api.trace[|first|..] == [Listed(a.name, listed, pods, s1)];
      GrownThen(old(api.trace), old(api.Now()), first, s1, api.trace, s1);
      if !listed { return; }
      remaining := |pods|;
    }
    assert Shows(api.trace[|old(api.trace)|..], a, found.value, remaining);
    if found.value.obj.uid != uid {
      j := UidDrift;
      return;
    }
    var matches := DesiredStateMatches(a, found.value.obj, remaining);
    if matches.Err? { return; }
    j := if matches.value then Applied else NotApplied;
  }
}
