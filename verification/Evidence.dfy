/** The evidence store: deduplication by provenance fingerprint, an index that must agree with the
    store, and a life cycle that only moves forward. */
module Evidence {
  import opened Common
  import Json

  // ---------------------------------------------------------------- identity

  // SHA-256, UUIDv5 and the parser and printer of UUIDs, as functions.
  datatype Primitives = Primitives(
    sha: string -> string, idOf: string -> string,
    parse: string -> Option<nat>, show: nat -> string, labelled: string -> nat)

  // What is assumed of them where a property needs it: no collisions; a digest is text without a NUL; a
  // printed UUID is text without blanks around it and without a NUL, and parses back; what parses as a UUID
  // is not blank; and no text is the UUID derived from it.
  ghost predicate Reliable(p: Primitives) {
    && (forall a, b :: p.sha(a) == p.sha(b) ==> a == b)
    && (forall a, b :: p.idOf(a) == p.idOf(b) ==> a == b)
    && (forall a :: p.sha(a) != "" && NUL !in p.sha(a))
    && (forall n: nat :: p.parse(p.show(n)) == Some(n) && p.show(n) != "" && Strip(p.show(n)) == p.show(n) && NUL !in p.show(n))
    && (forall v :: p.parse(v).Some? ==> Strip(v) != "")
    && (forall v :: p.parse(v).None? ==> Strip(v) != p.show(p.labelled(v)))
  }

  const NUL: char := 0 as char

  // How an id is written into the fingerprint.
  function NormalizeUuid(p: Primitives, v: string): string {
    if Strip(v) == "" then ""
    else match p.parse(v) case Some(n) => p.show(n) case None => Strip(v)
  }

  // How it is stored in the evidence: text that is no UUID is turned into one.
  function AsUuid(p: Primitives, v: string): string {
    match p.parse(v) case Some(n) => p.show(n) case None => p.show(p.labelled(v))
  }

  predicate Canonical(p: Primitives, v: string) { AsUuid(p, v) == v }

  function JoinNul(parts: seq<string>): string
    requires parts != []
  {
    if |parts| == 1 then parts[0] else parts[0] + [NUL] + JoinNul(parts[1..])
  }

  // Blank ids leave nothing behind, UUIDs their printed form, and labels themselves without the blanks around them.
  lemma NormalizeMeans(p: Primitives, v: string)
    requires Reliable(p)
    ensures NormalizeUuid(p, v) == "" <==> AllBlank(v)
    ensures forall n: nat :: p.parse(v) == Some(n) ==> NormalizeUuid(p, v) == p.show(n)
    ensures p.parse(v).None? ==> NormalizeUuid(p, v) == Strip(v)
  {
    StripEmptyIff(v);
  }

  lemma {:induction false} SameFirst(a: string, b: string, x: string, y: string)
    requires NUL !in a && NUL !in b && a + [NUL] + x == b + [NUL] + y
    ensures a == b && x == y
  {
    var s, t := a + [NUL] + x, b + [NUL] + y;
    if a == "" || b == "" {
      assert s[0] == t[0];
      assert a == "" <==> s[0] == NUL;
      assert b == "" <==> t[0] == NUL;
      assert s[1..] == x && t[1..] == y;
    } else {
      assert a[0] == s[0] == t[0] == b[0];
      assert s[1..] == a[1..] + [NUL] + x && t[1..] == b[1..] + [NUL] + y;
      SameFirst(a[1..], b[1..], x, y);
      assert a == [a[0]] + a[1..] && b == [b[0]] + b[1..];
    }
  }

  // Joining fields with a NUL between them loses nothing as long as no field contains one.
  lemma {:induction false} JoinInjective(a: seq<string>, b: seq<string>)
    requires |a| == |b| > 0 && JoinNul(a) == JoinNul(b)
    requires (forall i :: 0 <= i < |a| ==> NUL !in a[i]) && (forall i :: 0 <= i < |b| ==> NUL !in b[i])
    ensures a == b
  {
    if |a| > 1 {
      SameFirst(a[0], b[0], JoinNul(a[1..]), JoinNul(b[1..]));
      JoinInjective(a[1..], b[1..]);
      assert a == [a[0]] + a[1..] && b == [b[0]] + b[1..];
    }
  }

  // ---------------------------------------------------------------- evidence

  datatype Status = Created | Validated | Expired | Archived

  function Rank(s: Status): nat {
    match s case Created => 0 case Validated => 1 case Expired => 2 case Archived => 3
  }

  predicate MayMove(a: Status, b: Status) {
    match a
    case Created => b != Created
    case Validated => b == Expired || b == Archived
    case Expired => b == Archived
    case Archived => false
  }

  datatype Claim = Fact | Inference | Knowledge | Unknown

  datatype Content = Content(fingerprint: string, tenant: string, cluster: string, run: string, claim: Claim, fact: string)

  datatype Item = Item(id: string, content: Content, status: Status)

  // The result of a tool call together with what the caller says about it. Times are already in their
  // normal form; a time without a zone is refused before anything else happens.
  datatype ToolResult = ToolResult(
    source: string, queryId: string, resourceId: string, timeStart: string, timeEnd: string,
    tenant: string, cluster: string, run: string, summary: string, error: string, data: seq<Json.Field>,
    claim: Claim, supporting: seq<string>, reasonGiven: bool)

  const SOURCES := {"VM", "VLogs", "query-api", "MySQL", "k8sgpt", "knowledge"}

  datatype Error = BadClaim | BadSource | NotOwner | NoSourceReference | DuplicateId | NoSuchEvidence | BadMove

  datatype Outcome = Kept(item: Item) | Refused(error: Error)

  function DataText(t: ToolResult): string { Json.Written(Json.Object(t.data)) }

  // The digest runs over both parts one after the other, with nothing between them.
  function Digest(p: Primitives, t: ToolResult): string { p.sha(t.summary + DataText(t)) }

  // What the evidence states: the summary, or without one the error message.
  function FactOf(t: ToolResult): string { if t.summary != "" then t.summary else t.error }

  function ProvenanceFields(p: Primitives, t: ToolResult): seq<string> {
    [t.source, t.queryId, t.resourceId, t.timeStart, t.timeEnd, Digest(p, t),
     NormalizeUuid(p, t.tenant), NormalizeUuid(p, t.cluster), NormalizeUuid(p, t.run)]
  }

  function Fingerprint(p: Primitives, t: ToolResult): string { p.sha(JoinNul(ProvenanceFields(p, t))) }

  function ContentOf(p: Primitives, t: ToolResult): Content {
    Content(Fingerprint(p, t), AsUuid(p, t.tenant), AsUuid(p, t.cluster), AsUuid(p, t.run), t.claim, FactOf(t))
  }

  predicate ClaimBacked(t: ToolResult) {
    && (t.claim == Inference ==> t.supporting != [])
    && (t.claim == Unknown ==> t.reasonGiven)
  }

  // It passes the checks made before the store is looked at.
  predicate Admitted(t: ToolResult) { ClaimBacked(t) && t.source in SOURCES }

  // ---------------------------------------------------------------- the store as a value

  datatype Hub = Hub(store: map<string, Item>, index: map<string, string>)

  const EMPTY_HUB := Hub(map[], map[])

  datatype Op = Save(item: Item) | SaveTool(result: ToolResult) | Transition(id: string, status: Status)

  function SaveStep(h: Hub, item: Item): (Hub, Outcome) {
    var fp := item.content.fingerprint;
    if fp != "" && fp in h.index && h.index[fp] in h.store then (h, Kept(h.store[h.index[fp]]))
    else if item.id in h.store then (h, Refused(DuplicateId))
    else (Put(h, item), Kept(item))
  }

  function Put(h: Hub, item: Item): Hub {
    Hub(h.store[item.id := item],
        if item.content.fingerprint != "" then h.index[item.content.fingerprint := item.id] else h.index)
  }

  predicate OwnedBy(item: Item, t: ToolResult) {
    item.content.tenant == t.tenant && item.content.cluster == t.cluster && item.content.run == t.run
  }

  function NewItem(p: Primitives, t: ToolResult): Item {
    Item(p.idOf(Fingerprint(p, t)), ContentOf(p, t), Created)
  }

  function SaveToolStep(p: Primitives, h: Hub, t: ToolResult): (Hub, Outcome) {
    if !ClaimBacked(t) then (h, Refused(BadClaim))
    else if t.source !in SOURCES then (h, Refused(BadSource))
    else
      var fp := Fingerprint(p, t);
      if fp in h.index && h.index[fp] in h.store then
        var found := h.store[h.index[fp]];
        if OwnedBy(found, t) then (h, Kept(found)) else (h, Refused(NotOwner))
      else if t.claim == Knowledge then (h, Refused(NoSourceReference))
      else (Hub(h.store[NewItem(p, t).id := NewItem(p, t)], h.index[fp := NewItem(p, t).id]), Kept(NewItem(p, t)))
  }

  function TransitionStep(h: Hub, id: string, status: Status): (Hub, Outcome) {
    if id !in h.store then (h, Refused(NoSuchEvidence))
    else if !MayMove(h.store[id].status, status) then (h, Refused(BadMove))
    else
      var moved := h.store[id].(status := status);
      (h.(store := h.store[id := moved]), Kept(moved))
  }

  function Step(p: Primitives, h: Hub, op: Op): (Hub, Outcome) {
    match op
    case Save(item) => SaveStep(h, item)
    case SaveTool(t) => SaveToolStep(p, h, t)
    case Transition(id, status) => TransitionStep(h, id, status)
  }

  // ---------------------------------------------------------------- invariant

  // The index holds exactly the fingerprints in the store, each with the one evidence that has it.
  ghost predicate Consistent(h: Hub) {
    && (forall id :: id in h.store ==> h.store[id].id == id)
    && (forall fp :: fp in h.index ==> fp != "" && h.index[fp] in h.store && h.store[h.index[fp]].content.fingerprint == fp)
    && (forall id :: id in h.store && h.store[id].content.fingerprint != "" ==>
          h.store[id].content.fingerprint in h.index && h.index[h.store[id].content.fingerprint] == id)
  }

  // Nothing stored is lost or rewritten, and no status moves back.
  ghost predicate Extends(h: Hub, h': Hub) {
    forall id :: id in h.store ==>
      id in h'.store && h'.store[id].content == h.store[id].content
      && Rank(h.store[id].status) <= Rank(h'.store[id].status)
  }

  // A tool result whose new id is taken by evidence with another fingerprint.
  predicate Overwrites(p: Primitives, h: Hub, op: Op) {
    && op.SaveTool? && Admitted(op.result) && op.result.claim != Knowledge
    && Fingerprint(p, op.result) !in h.index && p.idOf(Fingerprint(p, op.result)) in h.store
  }

  // Looking a fingerprint up in the index is looking for it in the whole store.
  lemma IndexIsScan(h: Hub, fp: string, item: Item)
    requires Consistent(h) && fp != ""
    ensures (item.id in h.store && h.store[item.id] == item && item.content.fingerprint == fp)
        <==> (fp in h.index && h.store[h.index[fp]] == item)
  {
  }

  // Whatever is handed in under a fingerprint that has evidence, the first evidence comes back and the
  // store stays as it is; a refusal means that the id is taken and the fingerprint is not known.
  lemma SecondSaveReusesFirst(h: Hub, a: Item, b: Item)
    requires Consistent(h) && a.content.fingerprint == b.content.fingerprint != ""
    ensures var (h', first) := SaveStep(h, a);
            && (first.Kept? ==> SaveStep(h', b) == (h', first) && first.item.content.fingerprint == a.content.fingerprint)
            && (first.Refused? <==> a.id in h.store && forall id :: id in h.store ==>
                                      h.store[id].content.fingerprint != a.content.fingerprint)
  {
    var fp := a.content.fingerprint;
    if fp in h.index { assert h.store[h.index[fp]].content.fingerprint == fp; }
  }

  // A step keeps index and store in agreement and everything stored as it was, exactly when it does
  // not put a tool result under an id that is taken.
  lemma StepKeepsConsistent(p: Primitives, h: Hub, op: Op)
    requires Reliable(p) && Consistent(h)
    ensures Consistent(Step(p, h, op).0) && Extends(h, Step(p, h, op).0) <==> !Overwrites(p, h, op)
  {
    match op
    case Save(item) =>
      if SaveStep(h, item).0 != h { PutKeepsConsistent(h, item); }
    case SaveTool(t) =>
      var item := NewItem(p, t);
      if SaveToolStep(p, h, t).1.Kept? && item.content.fingerprint !in h.index {
        assert SaveToolStep(p, h, t).0 == Put(h, item);
        if item.id in h.store { PutRewrites(h, item); } else { PutKeepsConsistent(h, item); }
      }
    case Transition(id, status) => MoveKeepsConsistent(h, id, status);
  }

  // Putting evidence under an id that is taken replaces what was there.
  lemma PutRewrites(h: Hub, item: Item)
    requires Consistent(h) && item.id in h.store && item.content.fingerprint != ""
    requires item.content.fingerprint !in h.index
    ensures !Extends(h, Put(h, item))
  {
    assert h.store[item.id].content.fingerprint != item.content.fingerprint;
  }

  lemma MoveKeepsConsistent(h: Hub, id: string, status: Status)
    requires Consistent(h)
    ensures Consistent(TransitionStep(h, id, status).0) && Extends(h, TransitionStep(h, id, status).0)
  {
    MoveKeepsContents(h, id, status);
  }

  lemma MoveKeepsContents(h: Hub, id: string, status: Status)
    ensures var h' := TransitionStep(h, id, status).0;
            && h'.index == h.index && h'.store.Keys == h.store.Keys
            && forall i :: i in h.store ==> h'.store[i].id == h.store[i].id && h'.store[i].content == h.store[i].content
                                            && Rank(h.store[i].status) <= Rank(h'.store[i].status)
  {
  }

  lemma PutKeepsConsistent(h: Hub, item: Item)
    requires Consistent(h) && item.id !in h.store
    requires item.content.fingerprint != "" ==> item.content.fingerprint !in h.index
    ensures Consistent(Put(h, item)) && Extends(h, Put(h, item))
  {
  }

  // The id of a tool result can be taken: evidence handed in ready-made under that id, with another
  // fingerprint, is gone once the result is saved.
  lemma SaveToolOverwrites(p: Primitives, t: ToolResult, other: Content)
    requires Reliable(p) && Admitted(t) && t.claim != Knowledge
    requires other.fingerprint != Fingerprint(p, t)
    ensures var item := Item(p.idOf(Fingerprint(p, t)), other, Created);
            var h := Step(p, EMPTY_HUB, Save(item)).0;
            var h' := Step(p, h, SaveTool(t)).0;
            && Consistent(h) && item.id in h.store && h.store[item.id] == item && Overwrites(p, h, SaveTool(t))
            && h'.store.Values == {NewItem(p, t)} && item != NewItem(p, t) && !Extends(h, h')
  {
    var item := Item(p.idOf(Fingerprint(p, t)), other, Created);
    var h := Put(EMPTY_HUB, item);
    assert h == Step(p, EMPTY_HUB, Save(item)).0;
    assert Step(p, h, SaveTool(t)).0 == Put(h, NewItem(p, t));
    PutKeepsConsistent(EMPTY_HUB, item);
    PutRewrites(h, NewItem(p, t));
  }

  // Every id in the store is the one derived from its fingerprint.
  ghost predicate Derived(p: Primitives, h: Hub) {
    forall id :: id in h.store ==> id == p.idOf(h.store[id].content.fingerprint)
  }

  lemma DerivedNeverOverwrites(p: Primitives, h: Hub, op: Op)
    requires Reliable(p) && Consistent(h) && Derived(p, h)
    ensures !Overwrites(p, h, op)
    ensures (op.Save? ==> op.item.id == p.idOf(op.item.content.fingerprint)) ==> Derived(p, Step(p, h, op).0)
  {
  }

  function Run(p: Primitives, h: Hub, ops: seq<Op>): Hub {
    if ops == [] then h else Step(p, Run(p, h, ops[..|ops| - 1]), ops[|ops| - 1]).0
  }

  // Over any run in which evidence handed in ready-made carries its derived id, index and store agree,
  // no content ever changes and no status moves back.
  lemma {:induction false} RunKeepsEvidence(p: Primitives, h: Hub, ops: seq<Op>)
    requires Reliable(p) && Consistent(h) && Derived(p, h)
    requires forall i :: 0 <= i < |ops| && ops[i].Save? ==> ops[i].item.id == p.idOf(ops[i].item.content.fingerprint)
    ensures var h' := Run(p, h, ops); Consistent(h') && Derived(p, h') && Extends(h, h')
  {
    if ops != [] {
      var n := |ops| - 1;
      RunKeepsEvidence(p, h, ops[..n]);
      DerivedNeverOverwrites(p, Run(p, h, ops[..n]), ops[n]);
      StepKeepsConsistent(p, Run(p, h, ops[..n]), ops[n]);
    }
  }

  // ---------------------------------------------------------------- reuse across callers

  predicate CanonicalIds(p: Primitives, t: ToolResult) {
    Canonical(p, t.tenant) && Canonical(p, t.cluster) && Canonical(p, t.run)
  }

  predicate ParsedIds(p: Primitives, t: ToolResult) {
    p.parse(t.tenant).Some? && p.parse(t.cluster).Some? && p.parse(t.run).Some?
  }

  predicate NulFree(t: ToolResult) {
    && NUL !in t.source && NUL !in t.queryId && NUL !in t.resourceId && NUL !in t.timeStart && NUL !in t.timeEnd
    && NUL !in t.tenant && NUL !in t.cluster && NUL !in t.run
  }

  lemma CanonicalNormalizes(p: Primitives, v: string)
    requires Reliable(p) && Canonical(p, v)
    ensures NormalizeUuid(p, v) == v && p.parse(v).Some? && NUL !in v
  {
    var n := match p.parse(v) case Some(n) => n case None => p.labelled(v);
    assert v == p.show(n);
  }

  lemma {:induction false} StripKeepsOut(v: string, c: char)
    requires c !in v
    ensures c !in Strip(v)
    decreases |v|
  {
    if v != "" {
      if Blank(v[0]) { StripKeepsOut(v[1..], c); }
      else if Blank(v[|v| - 1]) { StripKeepsOut(v[..|v| - 1], c); }
    }
  }

  lemma NormalizedNulFree(p: Primitives, v: string)
    requires Reliable(p) && NUL !in v
    ensures NUL !in NormalizeUuid(p, v)
  {
    StripKeepsOut(v, NUL);
  }

  lemma FieldsNulFree(p: Primitives, t: ToolResult)
    requires Reliable(p) && NulFree(t)
    ensures forall i :: 0 <= i < |ProvenanceFields(p, t)| ==> NUL !in ProvenanceFields(p, t)[i]
  {
    NormalizedNulFree(p, t.tenant);
    NormalizedNulFree(p, t.cluster);
    NormalizedNulFree(p, t.run);
  }

  // Two results with one fingerprint have the same fields in it, ids as they are normalised, and one summary
  // and one data, although the digest joins these without a separator. They state the same fact unless there
  // is no summary: the error message is not part of the fingerprint.
  lemma SameFingerprintSameFields(p: Primitives, t: ToolResult, t': ToolResult)
    requires Reliable(p) && NulFree(t) && NulFree(t') && Fingerprint(p, t) == Fingerprint(p, t')
    ensures NormalizeUuid(p, t.tenant) == NormalizeUuid(p, t'.tenant)
    ensures NormalizeUuid(p, t.cluster) == NormalizeUuid(p, t'.cluster)
    ensures NormalizeUuid(p, t.run) == NormalizeUuid(p, t'.run)
    ensures t.source == t'.source && t.queryId == t'.queryId && t.resourceId == t'.resourceId
    ensures t.timeStart == t'.timeStart && t.timeEnd == t'.timeEnd
    ensures t.summary == t'.summary && DataText(t) == DataText(t')
    ensures FactOf(t) == FactOf(t') <==> t.summary != "" || t.error == t'.error
  {
    var a, b := ProvenanceFields(p, t), ProvenanceFields(p, t');
    FieldsNulFree(p, t);
    FieldsNulFree(p, t');
    JoinInjective(a, b);
    assert a[0] == b[0] && a[1] == b[1] && a[2] == b[2] && a[3] == b[3] && a[4] == b[4]
        && a[5] == b[5] && a[6] == b[6] && a[7] == b[7] && a[8] == b[8];
    Json.ObjectSeparates(t.summary, t.data, t'.summary, t'.data);
  }

  // With canonical ids they belong to one tenant, cluster and run.
  lemma SameFingerprintSameOwner(p: Primitives, t: ToolResult, t': ToolResult)
    requires Reliable(p) && CanonicalIds(p, t) && CanonicalIds(p, t') && NulFree(t) && NulFree(t')
    requires Fingerprint(p, t) == Fingerprint(p, t')
    ensures t.tenant == t'.tenant && t.cluster == t'.cluster && t.run == t'.run
    ensures ContentOf(p, t) == ContentOf(p, t') <==> t.claim == t'.claim && (t.summary != "" || t.error == t'.error)
  {
    SameFingerprintSameFields(p, t, t');
    CanonicalNormalizes(p, t.tenant); CanonicalNormalizes(p, t.cluster); CanonicalNormalizes(p, t.run);
    CanonicalNormalizes(p, t'.tenant); CanonicalNormalizes(p, t'.cluster); CanonicalNormalizes(p, t'.run);
  }

  // ---------------------------------------------------------------- when a known fingerprint is refused

  // The evidence holds what this result said when it was saved.
  predicate CameFrom(p: Primitives, item: Item, t: ToolResult) { NulFree(t) && item.content == ContentOf(p, t) }

  // It was made from a tool result of this kind.
  ghost predicate Sourced(p: Primitives, item: Item, kind: ToolResult -> bool) {
    exists t :: CameFrom(p, item, t) && kind(t)
  }

  ghost predicate FromResults(p: Primitives, h: Hub, kind: ToolResult -> bool) {
    forall id :: id in h.store ==> Sourced(p, h.store[id], kind)
  }

  // Of two ids that are normalised alike, the second names what was stored for the first exactly if the first
  // was a UUID, in whatever spelling, and the second is canonical.
  lemma StoredIdIff(p: Primitives, first: string, second: string)
    requires Reliable(p) && NormalizeUuid(p, first) == NormalizeUuid(p, second)
    ensures AsUuid(p, first) == second <==> p.parse(first).Some? && Canonical(p, second)
  {
    if Canonical(p, second) { CanonicalNormalizes(p, second); }
    match p.parse(first)
    case Some(n) => assert NormalizeUuid(p, first) == p.show(n);
    case None =>
      var derived := p.show(p.labelled(first));
      assert NormalizeUuid(p, derived) == derived != NormalizeUuid(p, first);
  }

  // If the fingerprint is known, the result is refused as another owner's exactly if an id of its own is not
  // canonical or an id of the result the evidence was made from was no UUID. Else the evidence is reused.
  lemma KnownRefusedIff(p: Primitives, h: Hub, t: ToolResult, t0: ToolResult)
    requires Reliable(p) && Consistent(h) && NulFree(t) && Admitted(t) && Fingerprint(p, t) in h.index
    requires CameFrom(p, h.store[h.index[Fingerprint(p, t)]], t0)
    ensures var item := h.store[h.index[Fingerprint(p, t)]];
            SaveToolStep(p, h, t) == (h, if CanonicalIds(p, t) && ParsedIds(p, t0) then Kept(item) else Refused(NotOwner))
  {
    assert Fingerprint(p, t0) == Fingerprint(p, t);
    SameFingerprintSameFields(p, t0, t);
    StoredIdIff(p, t0.tenant, t.tenant);
    StoredIdIff(p, t0.cluster, t.cluster);
    StoredIdIff(p, t0.run, t.run);
  }

  // What a step stores again comes from a tool result of the kind.
  lemma StaysFromResults(p: Primitives, h: Hub, op: Op, kind: ToolResult -> bool)
    requires FromResults(p, h, kind) && !op.Save?
    requires op.SaveTool? ==> NulFree(op.result) && kind(op.result)
    ensures FromResults(p, Step(p, h, op).0, kind)
  {
    match op
    case SaveTool(t) =>
      StaysSourced(p, NewItem(p, t), NewItem(p, t), kind, t);
      SavedOrOld(p, h, t);
    case Transition(id, status) => MoveFromResults(p, h, id, status, kind);
  }

  lemma SavedOrOld(p: Primitives, h: Hub, t: ToolResult)
    ensures var h' := SaveToolStep(p, h, t).0;
            forall id :: id in h'.store ==> h'.store[id] == NewItem(p, t) || (id in h.store && h'.store[id] == h.store[id])
  {
  }

  lemma MoveFromResults(p: Primitives, h: Hub, id: string, status: Status, kind: ToolResult -> bool)
    requires FromResults(p, h, kind)
    ensures FromResults(p, TransitionStep(h, id, status).0, kind)
  {
    var h' := TransitionStep(h, id, status).0;
    MoveKeepsContents(h, id, status);
    forall i | i in h'.store ensures Sourced(p, h'.store[i], kind) {
      assert Sourced(p, h.store[i], kind);
      var t :| CameFrom(p, h.store[i], t) && kind(t);
      StaysSourced(p, h.store[i], h'.store[i], kind, t);
    }
  }

  lemma StaysSourced(p: Primitives, item: Item, item': Item, kind: ToolResult -> bool, t: ToolResult)
    requires CameFrom(p, item, t) && kind(t) && item'.content == item.content
    ensures Sourced(p, item', kind)
  {
    assert CameFrom(p, item', t);
  }

  lemma {:induction false} RunFromResults(p: Primitives, ops: seq<Op>, kind: ToolResult -> bool)
    requires Reliable(p) && forall i :: 0 <= i < |ops| ==> !ops[i].Save?
    requires forall i :: 0 <= i < |ops| && ops[i].SaveTool? ==> NulFree(ops[i].result) && kind(ops[i].result)
    ensures var h := Run(p, EMPTY_HUB, ops); Consistent(h) && FromResults(p, h, kind)
  {
    RunKeepsEvidence(p, EMPTY_HUB, ops);
    if ops != [] {
      var n := |ops| - 1;
      RunFromResults(p, ops[..n], kind);
      StaysFromResults(p, Run(p, EMPTY_HUB, ops[..n]), ops[n], kind);
    }
  }

  // After any run of tool results whose ids are UUIDs in whatever spelling, and of status changes, the next
  // result is refused as another owner's exactly if its fingerprint is known and its ids are not canonical.
  lemma RunRefusesIff(p: Primitives, ops: seq<Op>, t: ToolResult)
    requires Reliable(p) && NulFree(t) && forall i :: 0 <= i < |ops| ==> !ops[i].Save?
    requires forall i :: 0 <= i < |ops| && ops[i].SaveTool? ==> NulFree(ops[i].result) && ParsedIds(p, ops[i].result)
    ensures var h := Run(p, EMPTY_HUB, ops);
            SaveToolStep(p, h, t).1 == Refused(NotOwner) <==>
              Admitted(t) && Fingerprint(p, t) in h.index && !CanonicalIds(p, t)
  {
    var h, kind := Run(p, EMPTY_HUB, ops), t => ParsedIds(p, t);
    RunFromResults(p, ops, kind);
    if Admitted(t) && Fingerprint(p, t) in h.index {
      var t0 :| CameFrom(p, h.store[h.index[Fingerprint(p, t)]], t0) && kind(t0);
      KnownRefusedIff(p, h, t, t0);
    }
  }

  // With canonical ids none is, whatever spelling of UUIDs the earlier results used.
  lemma RunNeverRefuses(p: Primitives, ops: seq<Op>, t: ToolResult)
    requires Reliable(p) && NulFree(t) && CanonicalIds(p, t) && forall i :: 0 <= i < |ops| ==> !ops[i].Save?
    requires forall i :: 0 <= i < |ops| && ops[i].SaveTool? ==> NulFree(ops[i].result) && ParsedIds(p, ops[i].result)
    ensures SaveToolStep(p, Run(p, EMPTY_HUB, ops), t).1 != Refused(NotOwner)
  {
    RunRefusesIff(p, ops, t);
  }

  // Saving one result twice, into whatever was made from tool results: once it has been kept, saving it again
  // gives the same evidence back exactly when its ids are canonical, and is refused otherwise.
  lemma ResaveIffCanonical(p: Primitives, h: Hub, t: ToolResult)
    requires Reliable(p) && Consistent(h) && FromResults(p, h, t => true) && NulFree(t)
    requires SaveToolStep(p, h, t).1.Kept?
    ensures var (h', first) := SaveToolStep(p, h, t);
            && (SaveToolStep(p, h', t).1 == first <==> CanonicalIds(p, t))
            && (SaveToolStep(p, h', t).1 == Refused(NotOwner) <==> !CanonicalIds(p, t))
  {
    var fp := Fingerprint(p, t);
    if fp in h.index {
      var t0 :| CameFrom(p, h.store[h.index[fp]], t0);
      KnownRefusedIff(p, h, t, t0);
    }
  }

  // A result with an id that is no UUID can be saved once and never again.
  lemma LabelRefusedAgain(p: Primitives, t: ToolResult)
    requires Reliable(p) && NulFree(t) && Admitted(t) && t.claim != Knowledge && p.parse(t.cluster).None?
    ensures var (h, first) := SaveToolStep(p, EMPTY_HUB, t);
            first == Kept(NewItem(p, t)) && SaveToolStep(p, h, t) == (h, Refused(NotOwner))
  {
    if Canonical(p, t.cluster) { CanonicalNormalizes(p, t.cluster); }
    ResaveIffCanonical(p, EMPTY_HUB, t);
  }

  lemma StripPadded(v: string)
    ensures Strip(" " + v) == Strip(v)
  {
    assert (" " + v)[1..] == v;
  }

  // A result that comes first with a blank in front of its cluster id keeps out the result that spells all its
  // ids as it should: both have one fingerprint, but the padded id is stored as the UUID of a label.
  lemma PaddedIdKeepsOutCanonical(p: Primitives, t: ToolResult)
    requires Reliable(p) && NulFree(t) && Admitted(t) && t.claim != Knowledge && CanonicalIds(p, t)
    requires p.parse(" " + t.cluster).None?
    ensures var t0 := t.(cluster := " " + t.cluster);
            var (h, first) := SaveToolStep(p, EMPTY_HUB, t0);
            first == Kept(NewItem(p, t0)) && SaveToolStep(p, h, t) == (h, Refused(NotOwner))
  {
    var t0 := t.(cluster := " " + t.cluster);
    var h := SaveToolStep(p, EMPTY_HUB, t0).0;
    CanonicalNormalizes(p, t.cluster);
    StripPadded(t.cluster);
    assert ProvenanceFields(p, t0) == ProvenanceFields(p, t);
    assert h == Put(EMPTY_HUB, NewItem(p, t0));
    PutKeepsConsistent(EMPTY_HUB, NewItem(p, t0));
    assert CameFrom(p, h.store[h.index[Fingerprint(p, t)]], t0);
    KnownRefusedIff(p, h, t, t0);
  }

  // ---------------------------------------------------------------- what is stored, spelled out

  // The text the fingerprint is the hash of.
  lemma CanonicalText(p: Primitives, t: ToolResult)
    ensures var z := [NUL];
            JoinNul(ProvenanceFields(p, t)) ==
              t.source + z + (t.queryId + z + (t.resourceId + z + (t.timeStart + z + (t.timeEnd + z +
              (p.sha(t.summary + Json.Written(Json.Object(t.data))) + z + (NormalizeUuid(p, t.tenant) + z +
              (NormalizeUuid(p, t.cluster) + z + NormalizeUuid(p, t.run))))))))
    ensures Fingerprint(p, t) == p.sha(JoinNul(ProvenanceFields(p, t)))
  {
    var f := ProvenanceFields(p, t);
    JoinFrom(f, 0); JoinFrom(f, 1); JoinFrom(f, 2); JoinFrom(f, 3); JoinFrom(f, 4);
    JoinFrom(f, 5); JoinFrom(f, 6); JoinFrom(f, 7);
    assert f[8..] == [f[8]];
  }

  lemma JoinFrom(f: seq<string>, i: nat)
    requires i + 1 < |f|
    ensures JoinNul(f[i..]) == f[i] + [NUL] + JoinNul(f[i + 1..])
  {
    assert f[i..][1..] == f[i + 1..];
  }

  // Why a tool result is refused, or what evidence it is kept as.
  lemma SaveToolMeans(p: Primitives, h: Hub, t: ToolResult)
    requires Consistent(h)
    ensures var out, backed, fp := SaveToolStep(p, h, t).1,
                                   (t.claim == Inference ==> t.supporting != []) && (t.claim == Unknown ==> t.reasonGiven),
                                   Fingerprint(p, t);
            && (out == Refused(BadClaim) <==> !backed)
            && (out == Refused(BadSource) <==>
                  backed && t.source !in ["VM", "VLogs", "query-api", "MySQL", "k8sgpt", "knowledge"])
            && (out == Refused(NoSourceReference) <==> Admitted(t) && fp !in h.index && t.claim == Knowledge)
            && (Admitted(t) && fp !in h.index && t.claim != Knowledge ==>
                  out == Kept(Item(p.idOf(fp), Content(fp, AsUuid(p, t.tenant), AsUuid(p, t.cluster), AsUuid(p, t.run), t.claim,
                                   if t.summary == "" then t.error else t.summary), Created)))
            && (out.Kept? && fp !in h.index ==>
                  SaveToolStep(p, h, t).0 == Hub(h.store[out.item.id := out.item], h.index[fp := out.item.id]))
            && (out.Refused? || fp in h.index ==> SaveToolStep(p, h, t).0 == h)
  {
    assert SOURCES == {"VM", "VLogs", "query-api", "MySQL", "k8sgpt", "knowledge"};
  }

  // Evidence handed in ready-made is answered with what its fingerprint already has, else refused if its id is
  // taken, and else stored under its id and, if it has a fingerprint, indexed.
  lemma SaveMeans(h: Hub, item: Item)
    requires Consistent(h)
    ensures var (h', out), fp := SaveStep(h, item), item.content.fingerprint;
            && (fp in h.index ==> h' == h && out == Kept(h.store[h.index[fp]]))
            && (fp !in h.index && item.id in h.store ==> h' == h && out == Refused(DuplicateId))
            && (fp !in h.index && item.id !in h.store ==>
                  out == Kept(item) && h' == Hub(h.store[item.id := item], if fp == "" then h.index else h.index[fp := item.id]))
  {
  }

  // The ids in the evidence: a UUID's printed form, or that of the UUID derived from a label.
  lemma AsUuidMeans(p: Primitives, v: string)
    ensures forall n: nat :: p.parse(v) == Some(n) ==> AsUuid(p, v) == p.show(n)
    ensures p.parse(v).None? ==> AsUuid(p, v) == p.show(p.labelled(v))
  {
  }

  // Evidence is created, validated, expired and archived in this order; it may skip states and never turns back.
  lemma MoveMeans(h: Hub, id: string, status: Status)
    ensures var (h', out) := TransitionStep(h, id, status);
            && (out == Refused(NoSuchEvidence) <==> id !in h.store)
            && (out.Kept? ==> status != Created)
            && (id in h.store && status == Validated ==> (out.Kept? <==> h.store[id].status == Created))
            && (id in h.store && status == Expired ==> (out.Kept? <==> h.store[id].status in {Created, Validated}))
            && (id in h.store && status == Archived ==> (out.Kept? <==> h.store[id].status != Archived))
            && (out.Kept? ==> h' == h.(store := h.store[id := h.store[id].(status := status)]) && out.item == h'.store[id])
            && (out.Refused? ==> h' == h)
  {
  }

  // ---------------------------------------------------------------- the store object

  // Validated, and of the tenant and cluster asked for, if any.
  predicate Current(item: Item, tenant: string, cluster: string) {
    && item.status == Validated
    && (tenant == "" || item.content.tenant == tenant)
    && (cluster == "" || item.content.cluster == cluster)
  }

  class EvidenceHub {
    const p: Primitives
    var store: map<string, Item>
    var index: map<string, string>

    function Snapshot(): Hub reads this { Hub(store, index) }

    constructor (p: Primitives)
      ensures Snapshot() == Hub(map[], map[]) && this.p == p
    {
      this.p := p;
      store, index := map[], map[];
    }

    method Save(item: Item) returns (out: Outcome)
      requires Consistent(Snapshot())
      modifies this
      ensures (Snapshot(), out) == SaveStep(old(Snapshot()), item)
    {
      var fp := item.content.fingerprint;
      if fp != "" && fp in index { return Kept(store[index[fp]]); }
      if item.id in store { return Refused(DuplicateId); }
      store := store[item.id := item];
      if fp != "" { index := index[fp := item.id]; }
      return Kept(item);
    }

    method SaveFromToolResult(t: ToolResult) returns (out: Outcome)
      requires Consistent(Snapshot())
      modifies this
      ensures (Snapshot(), out) == SaveToolStep(p, old(Snapshot()), t)
    {
      if t.claim == Inference && t.supporting == [] { return Refused(BadClaim); }
      if t.claim == Unknown && !t.reasonGiven { return Refused(BadClaim); }
      if t.source !in SOURCES { return Refused(BadSource); }
      var fp := Fingerprint(p, t);
      if fp in index {
        var existing := store[index[fp]];
        if !OwnedBy(existing, t) { return Refused(NotOwner); }
        return Kept(existing);
      }
      if t.claim == Knowledge { return Refused(NoSourceReference); }
      var item := Item(p.idOf(fp), ContentOf(p, t), Created);
      store := store[item.id := item];
      index := index[fp := item.id];
      return Kept(item);
    }

    method Transition(id: string, status: Status) returns (out: Outcome)
      modifies this
      ensures (Snapshot(), out) == TransitionStep(old(Snapshot()), id, status)
    {
      if id !in store { return Refused(NoSuchEvidence); }
      var item := store[id];
      if !MayMove(item.status, status) { return Refused(BadMove); }
      var moved := item.(status := status);
      store := store[id := moved];
      return Kept(moved);
    }

    method FindByFingerprint(fp: string) returns (found: Option<Item>)
      requires Consistent(Snapshot())
      ensures found.Some? ==>
                found.value.id in store && store[found.value.id] == found.value && found.value.content.fingerprint == fp
      ensures found.None? && fp != "" ==> forall id :: id in store ==> store[id].content.fingerprint != fp
    {
      if fp in index { return Some(store[index[fp]]); }
      return None;
    }

    // Only validated evidence counts as current, of one tenant and cluster if they are given.
    method CurrentFacts(tenant: string, cluster: string) returns (facts: set<Item>)
      ensures forall item :: item in facts <==>
                && item in store.Values && item.status == Validated
                && (tenant == "" || item.content.tenant == tenant) && (cluster == "" || item.content.cluster == cluster)
    {
      facts := {};
      var todo := store.Keys;
      while todo != {}
        invariant todo <= store.Keys
        invariant forall item :: item in facts <==>
                    (exists id :: id in store && id !in todo && store[id] == item) && Current(item, tenant, cluster)
      {
        var id := PickAny(todo);
        todo := todo - {id};
        var item := store[id];
        if item.status != Validated { continue; }
        if tenant != "" && item.content.tenant != tenant { continue; }
        if cluster != "" && item.content.cluster != cluster { continue; }
        facts := facts + {item};
      }
    }
  }
}
