/** What an approved action asks for, the patch it is turned into, and the comparison that decides after
    a lost response whether it has taken effect. */
module Patch {
  import opened Common

  datatype Kind = Deployment | StatefulSet | DaemonSet | Pod | Node

  datatype Operation = Patching | RolloutRestart | Scale | Cordon | Uncordon | Drain | DeletePod | EvictPod | Unsupported

  // A JSON field that is not there or null, has the wrong type, or holds a value.
  datatype Decoded<T> = Absent | Mistyped | Is(value: T)

  // The raw specification: no bytes, the text null, the text {}, something unparsable, or an object.
  datatype Spec =
    | NoBytes | NullText | Braces | Garbled
    | Object(replicas: Decoded<int>, annotations: Decoded<map<string, string>>, grace: Decoded<int>, timeout: Decoded<int>)

  // plain: the resource type is spelled as the API spells it, in lower case without blanks.
  datatype Action = Action(kind: Kind, plain: bool, ns: string, name: string, op: Operation, spec: Spec)

  predicate ValidTarget(a: Action) {
    (if a.kind == Node then Strip(a.ns) == "" else Strip(a.ns) != "") && Strip(a.name) != ""
  }

  predicate Workload(k: Kind) { k == Deployment || k == StatefulSet || k == DaemonSet }

  // ---------------------------------------------------------------- objects and patches

  datatype Obj = Obj(
    uid: string, version: nat, annotations: Option<map<string, string>>, replicas: int, unschedulable: bool,
    rest: map<string, string>)

  datatype Payload = Payload(annotations: map<string, string>, replicas: Option<int>, unschedulable: Option<bool>)

  // On these fields a strategic merge is the merge of section 2 of RFC 7396: named members are added or
  // replaced, everything else stays.
  function Merge(o: Obj, p: Payload): Obj {
    o.(annotations := if p.annotations == map[] then o.annotations
                      else Some((match o.annotations case Some(m) => m case None => map[]) + p.annotations),
       replicas := match p.replicas case Some(r) => r case None => o.replicas,
       unschedulable := match p.unschedulable case Some(u) => u case None => o.unschedulable)
  }

  const NO_PAYLOAD := Payload(map[], None, None)

  datatype Result<T> = Ok(value: T) | Err

  predicate HasPrefix(s: string, prefix: string) { |s| >= |prefix| && s[..|prefix|] == prefix }

  predicate AllowedAnnotation(key: string, value: string) {
    (HasPrefix(key, "aiops.observability.io/") || HasPrefix(key, "aio-action-executor/")) && |value| <= 256
  }

  function AnnotationsIn(spec: Spec): map<string, string> {
    if spec.Object? && spec.annotations.Is? then spec.annotations.value else map[]
  }

  predicate Int32(n: int) { -0x8000_0000 <= n < 0x8000_0000 }

  // The count a scale names, if it can be read.
  function NamedCount(spec: Spec): Option<int> {
    if spec.Object? && spec.replicas.Is? && Int32(spec.replicas.value) then Some(spec.replicas.value) else None
  }

  // The count that is sent. Without one it is 1; one that cannot be read has been decoded to 0, and the error
  // is ignored.
  function SentCount(spec: Spec): int {
    match spec
    case Object(Absent, _, _, _) => 1
    case Object(Is(n), _, _, _) => if Int32(n) then n else 0
    case Object(Mistyped, _, _, _) => 0
    case _ => 1
  }

  function BuildPatchPayload(a: Action): Result<Payload> {
    match a.op
    case Patching => BuildAnnotations(a.spec)
    case RolloutRestart =>
      if a.spec == NoBytes || a.spec == Braces then
        Ok(NO_PAYLOAD.(annotations := map["aiops.observability.io/restartedAt" := "requested"]))
      else BuildAnnotations(a.spec)
    case Scale =>
      if !a.plain || (a.kind != Deployment && a.kind != StatefulSet) then Err
      else Ok(NO_PAYLOAD.(replicas := Some(SentCount(a.spec))))
    case Cordon => if a.plain && a.kind == Node then Ok(NO_PAYLOAD.(unschedulable := Some(true))) else Err
    case Uncordon => if a.plain && a.kind == Node then Ok(NO_PAYLOAD.(unschedulable := Some(false))) else Err
    case _ => Err
  }

  function BuildAnnotations(spec: Spec): Result<Payload> {
    if spec == NoBytes || spec == NullText then
      Ok(NO_PAYLOAD.(annotations := map["aio-action-executor/verified" := "true"]))
    else if AnnotationsIn(spec) == map[] then Err
    else if exists k :: k in AnnotationsIn(spec) && !AllowedAnnotation(k, AnnotationsIn(spec)[k]) then Err
    else Ok(NO_PAYLOAD.(annotations := AnnotationsIn(spec)))
  }

  // ---------------------------------------------------------------- reconciliation

  // A missing annotation reads as the empty string; with no annotations at all nothing matches.
  predicate AnnotationMatches(o: Obj, key: string, value: string) {
    o.annotations.Some? && (if key in o.annotations.value then o.annotations.value[key] else "") == value
  }

  function DesiredStateMatches(a: Action, o: Obj, podsRemaining: nat): Result<bool> {
    match a.op
    case Scale =>
      if (a.kind != Deployment && a.kind != StatefulSet) || NamedCount(a.spec).None? then Err
      else Ok(o.replicas == NamedCount(a.spec).value)
    case Patching => MatchAnnotations(a.spec, o)
    case RolloutRestart => if !Workload(a.kind) then Err else MatchAnnotations(a.spec, o)
    case Cordon => if a.kind == Node then Ok(o.unschedulable) else Err
    case Uncordon => if a.kind == Node then Ok(!o.unschedulable) else Err
    case Drain => if a.kind == Node then Ok(o.unschedulable && podsRemaining == 0) else Err
    case DeletePod => if a.kind == Pod then Ok(false) else Err
    case EvictPod => if a.kind == Pod then Ok(false) else Err
    case Unsupported => Err
  }

  function MatchAnnotations(spec: Spec, o: Obj): Result<bool> {
    if AnnotationsIn(spec) == map[] then Err
    else Ok(forall k :: k in AnnotationsIn(spec) ==> AnnotationMatches(o, k, AnnotationsIn(spec)[k]))
  }

  // ---------------------------------------------------------------- the two agree

  // A requested empty annotation that the object, though it has annotations, does not have.
  ghost predicate MissingEmpty(p: Payload, o: Obj) {
    o.annotations.Some? && exists k :: k in p.annotations && p.annotations[k] == "" && k !in o.annotations.value
  }

  lemma AnnotationsSettled(p: Payload, o: Obj)
    requires p.annotations != map[] && p.replicas.None? && p.unschedulable.None?
    ensures Merge(o, p) == o <==> o.annotations.Some? && forall k :: k in p.annotations ==>
                                    k in o.annotations.value && o.annotations.value[k] == p.annotations[k]
  {
    if o.annotations.Some? {
      var had, m := o.annotations.value, o.annotations.value + p.annotations;
      assert m == had <==> forall k :: k in p.annotations ==> k in had && had[k] == p.annotations[k];
    }
  }

  // Whenever an action can be both built and reconciled, the comparison says yes exactly when merging
  // its patch would change nothing, but for requested empty annotations the object lacks.
  lemma ReconcileAgreesWithPatch(a: Action, o: Obj, podsRemaining: nat)
    requires BuildPatchPayload(a).Ok? && DesiredStateMatches(a, o, podsRemaining).Ok?
    ensures var p, yes := BuildPatchPayload(a).value, DesiredStateMatches(a, o, podsRemaining).value;
            && (Merge(o, p) == o <==> yes && !MissingEmpty(p, o))
            && ((forall k :: k in p.annotations ==> p.annotations[k] != "") ==> (yes <==> Merge(o, p) == o))
  {
    var p := BuildPatchPayload(a).value;
    if p.annotations != map[] { AnnotationsSettled(p, o); }
  }

  // Right after an action has been applied the comparison says so.
  lemma AppliedIsRecognised(a: Action, o: Obj, version: nat, podsRemaining: nat)
    requires BuildPatchPayload(a).Ok?
    requires DesiredStateMatches(a, Merge(o, BuildPatchPayload(a).value).(version := version), podsRemaining).Ok?
    ensures DesiredStateMatches(a, Merge(o, BuildPatchPayload(a).value).(version := version), podsRemaining).value
  {
  }

  // What an object is like once the patch of an action is merged into it: the count that was named or else 1, a
  // cordoned or uncordoned node, and every requested annotation beside the ones it had.
  lemma PatchMeans(a: Action, o: Obj)
    requires BuildPatchPayload(a).Ok?
    ensures var o' := Merge(o, BuildPatchPayload(a).value);
            && (a.op == Scale && NamedCount(a.spec).Some? ==> Is(o'.replicas) == a.spec.replicas)
            && (a.op == Scale && (!a.spec.Object? || a.spec.replicas.Absent?) ==> o'.replicas == 1)
            && (a.op == Cordon ==> o'.unschedulable)
            && (a.op == Uncordon ==> !o'.unschedulable)
            && (a.op == Patching || a.op == RolloutRestart ==>
                  && o'.annotations.Some?
                  && (forall k :: k in o'.annotations.value ==>
                        if k in AskedFor(a) then o'.annotations.value[k] == AskedFor(a)[k]
                        else o.annotations.Some? && k in o.annotations.value && o'.annotations.value[k] == o.annotations.value[k])
                  && (forall k :: k in AskedFor(a) || (o.annotations.Some? && k in o.annotations.value) ==> k in o'.annotations.value))
  {
    if a.op == Patching || a.op == RolloutRestart {
      assert BuildPatchPayload(a).value.annotations == AskedFor(a);
      assert "aio-action-executor/verified" in map["aio-action-executor/verified" := "true"];
      assert "aiops.observability.io/restartedAt" in map["aiops.observability.io/restartedAt" := "requested"];
    }
  }

  // The annotations an action asks for; without a specification a patch leaves a mark of its own, and a restart
  // with none or an empty one the time of the request.
  function AskedFor(a: Action): map<string, string> {
    match a.spec
    case Object(_, Is(annotations), _, _) => annotations
    case NoBytes => if a.op == Patching then map["aio-action-executor/verified" := "true"]
                    else map["aiops.observability.io/restartedAt" := "requested"]
    case NullText => map["aio-action-executor/verified" := "true"]
    case Braces => map["aiops.observability.io/restartedAt" := "requested"]
    case _ => map[]
  }

  // Which actions have a patch.
  lemma BuildableIff(a: Action)
    ensures BuildPatchPayload(a).Ok? <==>
              match a.op
              case Scale => a.plain && (a.kind == Deployment || a.kind == StatefulSet)
              case Cordon => a.plain && a.kind == Node
              case Uncordon => a.plain && a.kind == Node
              case Patching => a.spec == NoBytes || a.spec == NullText || AsksForAllowed(a.spec)
              case RolloutRestart => a.spec == NoBytes || a.spec == NullText || a.spec == Braces || AsksForAllowed(a.spec)
              case _ => false
  {
  }

  // Some annotations, all of them under one of the two allowed prefixes and none longer than 256 characters.
  predicate AsksForAllowed(spec: Spec) {
    && spec.Object? && spec.annotations.Is? && spec.annotations.value != map[]
    && forall k :: k in spec.annotations.value ==>
         && |spec.annotations.value[k]| <= 256
         && ("aiops.observability.io/" <= k || "aio-action-executor/" <= k)
  }

  // When the comparison says that an action has taken effect.
  lemma JudgedAppliedIff(a: Action, o: Obj, podsRemaining: nat)
    ensures DesiredStateMatches(a, o, podsRemaining) == Ok(true) <==>
              match a.op
              case Scale => (a.kind == Deployment || a.kind == StatefulSet) && NamedCount(a.spec) == Some(o.replicas)
              case Patching => ShowsAnnotations(a.spec, o)
              case RolloutRestart => a.kind != Pod && a.kind != Node && ShowsAnnotations(a.spec, o)
              case Cordon => a.kind == Node && o.unschedulable
              case Uncordon => a.kind == Node && !o.unschedulable
              case Drain => a.kind == Node && o.unschedulable && podsRemaining == 0
              case _ => false
  {
    if a.spec.Object? && a.spec.annotations.Is? && a.spec.annotations.value != map[] && o.annotations.None? {
      var k :| k in a.spec.annotations.value;
      assert !AnnotationMatches(o, k, a.spec.annotations.value[k]);
    }
  }

  predicate ShowsAnnotations(spec: Spec, o: Obj) {
    && spec.Object? && spec.annotations.Is? && spec.annotations.value != map[] && o.annotations.Some?
    && forall k :: k in spec.annotations.value ==>
         if k in o.annotations.value then o.annotations.value[k] == spec.annotations.value[k]
         else spec.annotations.value[k] == ""
  }

  // Nodes have no namespace, everything else has one, and everything has a name.
  lemma ValidTargetIff(a: Action)
    ensures ValidTarget(a) <==> (AllBlank(a.ns) <==> a.kind == Node) && !AllBlank(a.name)
  {
    StripEmptyIff(a.ns);
    StripEmptyIff(a.name);
  }

  // A patch touches only what the action names, and every annotation it writes is an allowed one.
  lemma PatchTouchesNothingElse(a: Action, o: Obj)
    requires BuildPatchPayload(a).Ok?
    ensures var p := BuildPatchPayload(a).value;
            var o' := Merge(o, p);
            && o'.uid == o.uid && o'.version == o.version && o'.rest == o.rest
            && (a.op != Scale ==> o'.replicas == o.replicas)
            && (a.op != Cordon && a.op != Uncordon ==> o'.unschedulable == o.unschedulable)
            && (a.op != Patching && a.op != RolloutRestart ==> o'.annotations == o.annotations)
            && (forall k :: k in p.annotations ==> AllowedAnnotation(k, p.annotations[k]))
  {
    assert HasPrefix("aiops.observability.io/restartedAt", "aiops.observability.io/");
    assert HasPrefix("aio-action-executor/verified", "aio-action-executor/");
  }

  // The actions that can be applied but whose effect reconciliation cannot judge: those that rely on a
  // default the comparison does not know, and restarts of what is no workload.
  lemma UndecidableIff(a: Action, o: Obj, podsRemaining: nat)
    requires BuildPatchPayload(a).Ok?
    ensures DesiredStateMatches(a, o, podsRemaining).Err? <==>
              match a.op
              case Scale => NamedCount(a.spec).None?
              case Patching => a.spec == NoBytes || a.spec == NullText
              case RolloutRestart => a.spec == NoBytes || a.spec == NullText || a.spec == Braces || !Workload(a.kind)
              case _ => false
  {
  }

  // A scale that names no readable count is sent as one, to 0 if the field is there and to 1 if it is not.
  lemma UnreadableCountIff(a: Action)
    requires a.op == Scale && BuildPatchPayload(a).Ok? && NamedCount(a.spec).None?
    ensures BuildPatchPayload(a).value.replicas == Some(0) <==> a.spec.Object? && !a.spec.replicas.Absent?
    ensures BuildPatchPayload(a).value.replicas == Some(1) <==> !a.spec.Object? || a.spec.replicas.Absent?
  {
  }

  // A workload asked to be scaled to a count given as text is scaled to nothing, and reconciliation cannot
  // tell; so is one asked for more than 32 bits hold.
  lemma UnreadableCountScalesToZero(spec: Spec, o: Obj)
    requires spec == Object(Mistyped, Absent, Absent, Absent) || spec == Object(Is(0x8000_0000), Absent, Absent, Absent)
    ensures var a := Action(Deployment, true, "ns", "app", Scale, spec);
            && BuildPatchPayload(a).Ok? && Merge(o, BuildPatchPayload(a).value).replicas == 0
            && DesiredStateMatches(a, Merge(o, BuildPatchPayload(a).value), 0).Err?
  {
  }

  // An object without the empty annotation that was asked for: the comparison says yes although the
  // patch has not been applied.
  lemma EmptyAnnotationFools()
    ensures var key := "aio-action-executor/note";
            var a := Action(Deployment, true, "ns", "app", Patching, Object(Absent, Is(map[key := ""]), Absent, Absent));
            var o := Obj("u", 1, Some(map[]), 1, false, map[]);
            && BuildPatchPayload(a).Ok? && DesiredStateMatches(a, o, 0) == Ok(true)
            && Merge(o, BuildPatchPayload(a).value) != o
  {
    var key := "aio-action-executor/note";
    assert HasPrefix(key, "aio-action-executor/");
    var a := Action(Deployment, true, "ns", "app", Patching, Object(Absent, Is(map[key := ""]), Absent, Absent));
    assert key in AnnotationsIn(a.spec);
    var o := Obj("u", 1, Some(map[]), 1, false, map[]);
    assert key in Merge(o, BuildPatchPayload(a).value).annotations.value;
  }
}
