/** What an investigation hands back, and how it is turned into the status and the result that are
    committed: errors never become success, and error text never leaves the process. */
module Outcome {
  import opened Common

  datatype Status =
    | Created | Planning | Investigating | AwaitingConfirmation | AwaitingApproval | Executing | Verifying
    | Success | Partial | Failed | Regressed | Cancelled

  predicate Terminal(s: Status) { s == Success || s == Partial || s == Failed || s == Regressed || s == Cancelled }

  // A status an investigation may end with.
  predicate MayEndWith(s: Status) { Terminal(s) || s == AwaitingApproval || s == AwaitingConfirmation }

  function ParseStatus(s: string): Option<Status> {
    if s == "success" then Some(Success) else if s == "partial" then Some(Partial)
    else if s == "failed" then Some(Failed) else if s == "regressed" then Some(Regressed)
    else if s == "cancelled" then Some(Cancelled) else if s == "awaiting_approval" then Some(AwaitingApproval)
    else if s == "awaiting_confirmation" then Some(AwaitingConfirmation) else None
  }

  // An event is a mapping with a kind, or something else.
  datatype BrainEvent = Tagged(kind: string) | Untagged

  // An entry of a dictionary: a key that is missing and a key that holds nothing are not the same.
  datatype Slot<T> = Absent | Null | Given(value: T)

  datatype Result = Result(
    errorCode: Slot<string>, errorMessage: Option<string>, summary: Option<string>, graphContext: bool, events: Slot<nat>)

  const NO_RESULT := Result(Absent, None, None, false, Absent)

  // Sets an entry only if the key is missing.
  function SetDefault<T>(entry: Slot<T>, value: T): Slot<T> { if entry.Absent? then Given(value) else entry }

  datatype Raw =
    | Mapping(status: Option<string>, events: Option<seq<BrainEvent>>, result: Option<Result>, summary: Option<string>,
              errorCode: Option<string>)
    | Listing(items: seq<BrainEvent>)
    | Other

  // How an investigation ends: it returns, throws, or is cut off.
  datatype Brain = Returned(raw: Raw) | Raised | CutOff

  // What the runtime works with then.
  function RawOf(brain: Brain): Raw {
    match brain
    case Returned(raw) => raw
    case _ => Mapping(Some("failed"), Some([]), None, None, Some("BRAIN_EXCEPTION"))
  }

  // ---------------------------------------------------------------- error codes

  predicate CodeChar(c: char) { 'A' <= c <= 'Z' || '0' <= c <= '9' || c == '_' }

  predicate IsCode(s: string) {
    2 <= |s| <= 64 && 'A' <= s[0] <= 'Z' && forall i :: 0 < i < |s| ==> CodeChar(s[i])
  }

  function StableCode(value: string, fallback: string): (code: string)
    requires IsCode(fallback)
    ensures IsCode(code)
    ensures code == if IsCode(Upper(Strip(value))) then Upper(Strip(value)) else fallback
  {
    var candidate := Upper(Strip(value));
    if IsCode(candidate) then candidate else fallback
  }

  // The public shape of a code: two to sixty-four capitals, digits and underscores, a capital first.
  lemma IsCodeMeans(s: string)
    ensures IsCode(s) <==> 1 < |s| < 65 && Capital(s[0]) && forall i :: 0 <= i < |s| ==> Capital(s[i]) || DigitOrBar(s[i])
  {
    forall c: char ensures (Capital(c) <==> 'A' <= c <= 'Z') && (Capital(c) || DigitOrBar(c) <==> CodeChar(c)) { Alphabet(c); }
  }

  predicate Capital(c: char) { c in "ABCDEFGHIJKLMNOPQRSTUVWXYZ" }

  predicate DigitOrBar(c: char) { c in "0123456789_" }

  lemma Alphabet(c: char)
    ensures Capital(c) <==> 'A' <= c <= 'Z'
    ensures DigitOrBar(c) <==> '0' <= c <= '9' || c == '_'
  {
  }

  // A public code is kept as it is.
  lemma CodesAreStable()
    ensures forall code, fallback :: IsCode(code) && IsCode(fallback) ==> StableCode(code, fallback) == code
  {
    forall code, fallback | IsCode(code) && IsCode(fallback) ensures StableCode(code, fallback) == code {
      assert CodeChar(code[|code| - 1]);
      assert Strip(code) == code;
      assert Upper(code) == code;
    }
  }

  lemma EmptyIsNoCode()
    ensures forall fallback :: IsCode(fallback) ==> StableCode("", fallback) == fallback
  {
  }

  const BRAIN_ERROR := "BRAIN_ERROR"
  const INVALID_BRAIN_OUTCOME := "INVALID_BRAIN_OUTCOME"
  const INVALID_OUTCOME_STATUS := "INVALID_OUTCOME_STATUS"
  const BRAIN_ERROR_EVENT := "BRAIN_ERROR_EVENT"

  lemma OwnCodes()
    ensures IsCode(BRAIN_ERROR) && IsCode(INVALID_BRAIN_OUTCOME)
    ensures IsCode(INVALID_OUTCOME_STATUS) && IsCode(BRAIN_ERROR_EVENT)
  {
  }

  function PublicMessage(code: string): string {
    if code == "RCA_V2_UNAVAILABLE" then "RCA engine unavailable"
    else if code == "TOOL_FAILED" then "investigation tool failed"
    else if code == "GRAPH_CONTEXT_FINALIZE_FAILED" then "RCA context finalization failed"
    else if code == "GRAPH_UNAVAILABLE" then "graph data unavailable"
    else if code == "INSUFFICIENT_EVIDENCE" then "insufficient evidence"
    else "investigation failed"
  }

  // ---------------------------------------------------------------- what the caller may rely on

  function EventsOf(raw: Raw): seq<BrainEvent> {
    match raw
    case Mapping(_, Some(events), _, _, _) => events
    case Listing(items) => items
    case _ => []
  }

  const ERROR := Tagged("error")

  predicate AnyError(events: seq<BrainEvent>) { exists i :: 0 <= i < |events| && events[i] == ERROR }

  predicate HasError(raw: Raw) { AnyError(EventsOf(raw)) }

  // The status the investigation claims, before anything is held against it.
  function Claimed(raw: Raw): Option<Status> {
    match raw
    case Mapping(status, _, _, _, _) =>
      ParseStatus(Lower(match status case Some(s) => if s == "" then "success" else s case None => "success"))
    case Listing(_) => Some(Success)
    case Other => Some(Failed)
  }

  // A claim is believed unless it is no status at all, or a success with an error among the events.
  function StatusOf(raw: Raw): Status {
    match Claimed(raw)
    case None => Failed
    case Some(s) => if s == Success && HasError(raw) then Failed else s
  }

  lemma StatusMayEnd(raw: Raw)
    ensures MayEndWith(StatusOf(raw)) && (StatusOf(raw) == Success ==> !HasError(raw))
  {
  }

  // The result as the investigation handed it in.
  function GivenResult(raw: Raw): Result {
    match raw
    case Mapping(_, _, Some(result), _, _) => result
    case _ => NO_RESULT
  }

  function SummaryOf(raw: Raw): Option<string> {
    match raw
    case Mapping(_, _, _, Some(summary), _) => Some(summary)
    case _ => GivenResult(raw).summary
  }

  // The code it names, if any: its own, or the one in its result.
  function NamedCode(raw: Raw): Slot<string> {
    match raw
    case Mapping(_, _, _, _, Some(code)) => if code != "" then Given(code) else GivenResult(raw).errorCode
    case Mapping(_, _, _, _, None) => GivenResult(raw).errorCode
    case Listing(_) => Absent
    case Other => Given(INVALID_BRAIN_OUTCOME)
  }

  // The code that is left in the end.
  function CodeOf(raw: Raw): Slot<string> {
    match NamedCode(raw)
    case Given(code) => Given(StableCode(code, BRAIN_ERROR))
    case Absent =>
      if Claimed(raw).None? then Given(INVALID_OUTCOME_STATUS)
      else if HasError(raw) then Given(BRAIN_ERROR_EVENT)
      else if NeedsCode(StatusOf(raw)) then Given(BRAIN_ERROR)
      else Absent
    case Null => if NeedsCode(StatusOf(raw)) then Given(BRAIN_ERROR) else Null
  }

  // The code before the status is looked at, and what the status makes of it.
  function DefaultedCode(raw: Raw): Slot<string> {
    var named := match NamedCode(raw) case Given(code) => Given(StableCode(code, BRAIN_ERROR)) case other => other;
    var claimed := if Claimed(raw).None? then SetDefault(named, INVALID_OUTCOME_STATUS) else named;
    if HasError(raw) then SetDefault(claimed, BRAIN_ERROR_EVENT) else claimed
  }

  lemma CodeOfDefaulted(raw: Raw)
    ensures var code := DefaultedCode(raw);
            && (code.Given? ==> IsCode(code.value) && StableCode(code.value, BRAIN_ERROR) == code.value && CodeOf(raw) == code)
            && (!code.Given? ==> CodeOf(raw) == if NeedsCode(StatusOf(raw)) then Given(StableCode("", BRAIN_ERROR)) else code)
  {
    OwnCodes();
    CodesAreStable();
    EmptyIsNoCode();
  }

  predicate NeedsCode(status: Status) { status == Failed || status == Regressed }

  // An error among the events leaves a code behind exactly if the outcome fails or regresses, or the result
  // does not hold an empty entry for the code; every code has the public shape.
  lemma ErrorLeavesCodeIff(raw: Raw)
    requires HasError(raw)
    ensures CodeOf(raw).Given? <==> NeedsCode(StatusOf(raw)) || NamedCode(raw) != Null
    ensures CodeOf(raw).Given? ==> IsCode(CodeOf(raw).value)
  {
    OwnCodes();
  }

  // A partial outcome with an error among its events and an empty entry for the code ends without a code.
  lemma EmptyCodeHidesError()
    ensures var raw := Mapping(Some("partial"), Some([ERROR]), Some(NO_RESULT.(errorCode := Null)), None, None);
            HasError(raw) && StatusOf(raw) == Partial && CodeOf(raw) == Null
  {
    var raw := Mapping(Some("partial"), Some([ERROR]), Some(NO_RESULT.(errorCode := Null)), None, None);
    assert EventsOf(raw)[0] == ERROR;
    assert Lower("partial") == "partial";
  }

  // What an outcome says it is: nothing and the empty text stand for success, the seven names for themselves in
  // any case, and everything else for no status.
  predicate Says(raw: Raw, name: string) {
    match raw
    case Mapping(Some(text), _, _, _, _) => SameButForCase(text, name) || (text == "" && name == "success")
    case Mapping(None, _, _, _, _) => name == "success"
    case Listing(_) => name == "success"
    case Other => name == "failed"
  }

  lemma ClaimMeans(raw: Raw)
    ensures Claimed(raw) == Some(Success) <==> Says(raw, "success")
    ensures Claimed(raw) == Some(Partial) <==> Says(raw, "partial")
    ensures Claimed(raw) == Some(Failed) <==> Says(raw, "failed")
    ensures Claimed(raw) == Some(Regressed) <==> Says(raw, "regressed")
    ensures Claimed(raw) == Some(Cancelled) <==> Says(raw, "cancelled")
    ensures Claimed(raw) == Some(AwaitingApproval) <==> Says(raw, "awaiting_approval")
    ensures Claimed(raw) == Some(AwaitingConfirmation) <==> Says(raw, "awaiting_confirmation")
    ensures Claimed(raw).Some? ==> MayEndWith(Claimed(raw).value)
  {
    match raw
    case Mapping(Some(text), _, _, _, _) =>
      SpelledAs(text, "success"); SpelledAs(text, "partial"); SpelledAs(text, "failed"); SpelledAs(text, "regressed");
      SpelledAs(text, "cancelled"); SpelledAs(text, "awaiting_approval"); SpelledAs(text, "awaiting_confirmation");
    case Mapping(None, _, _, _, _) => SpelledAs("success", "success");
    case Listing(_) =>
    case Other =>
  }

  // A name in lower case is what a text is in lower case exactly if they differ in case alone.
  lemma SpelledAs(text: string, name: string)
    requires forall i :: 0 <= i < |name| ==> !('A' <= name[i] <= 'Z')
    ensures Lower(text) == name <==> SameButForCase(text, name)
  {
    CaseMeans(text, name);
    assert Lower(name) == name;
  }

  // Only a claimed success without an error event ends in success, every other claim ends as it says, and no status
  // or a success with an error event ends in failure.
  lemma StatusMeans(raw: Raw)
    ensures StatusOf(raw) == Success <==> Says(raw, "success") && !HasError(raw)
    ensures StatusOf(raw) == Failed <==> Says(raw, "failed") || (Says(raw, "success") && HasError(raw)) || Claimed(raw).None?
    ensures StatusOf(raw) == Partial <==> Says(raw, "partial")
    ensures StatusOf(raw) == Regressed <==> Says(raw, "regressed")
    ensures StatusOf(raw) == Cancelled <==> Says(raw, "cancelled")
    ensures StatusOf(raw) == AwaitingApproval <==> Says(raw, "awaiting_approval")
    ensures StatusOf(raw) == AwaitingConfirmation <==> Says(raw, "awaiting_confirmation")
    ensures HasError(raw) <==> (raw.Mapping? && raw.events.Some? && Tagged("error") in raw.events.value)
                               || (raw.Listing? && Tagged("error") in raw.items)
  {
    ClaimMeans(raw);
    if AnyError(EventsOf(raw)) {
      var i :| 0 <= i < |EventsOf(raw)| && EventsOf(raw)[i] == ERROR;
    }
  }

  // The codes the runtime puts in itself: one for each thing that can be wrong with an outcome that names none.
  lemma OwnCodeMeans(raw: Raw)
    ensures raw.Other? ==> CodeOf(raw) == Given("INVALID_BRAIN_OUTCOME")
    ensures raw.Listing? ==> CodeOf(raw) == if HasError(raw) then Given("BRAIN_ERROR_EVENT") else Absent
    ensures raw.Mapping? && NamedCode(raw) == Absent && Claimed(raw).None? ==> CodeOf(raw) == Given("INVALID_OUTCOME_STATUS")
    ensures raw.Mapping? && NamedCode(raw) == Absent && Claimed(raw).Some? && HasError(raw) ==>
              CodeOf(raw) == Given("BRAIN_ERROR_EVENT")
    ensures raw.Mapping? && NamedCode(raw) == Absent && (Says(raw, "failed") || Says(raw, "regressed")) && !HasError(raw) ==>
              CodeOf(raw) == Given("BRAIN_ERROR")
    ensures raw.Mapping? && raw.errorCode.Some? && IsCode(raw.errorCode.value) ==> CodeOf(raw) == Given(raw.errorCode.value)
    ensures raw.Mapping? && (raw.errorCode.None? || raw.errorCode.value == "") && raw.result.Some? ==>
              (forall code :: raw.result.value.errorCode == Given(code) && IsCode(code) ==> CodeOf(raw) == Given(code))
    ensures forall text :: raw.Mapping? && raw.errorCode == Some(text) && text != "" && !IsCode(Upper(Strip(text))) ==>
              CodeOf(raw) == Given("BRAIN_ERROR")
  {
    OwnCodes();
    CodesAreStable();
    ClaimMeans(raw);
    StatusMeans(raw);
  }

  const EXPLAINED := ["RCA_V2_UNAVAILABLE", "TOOL_FAILED", "GRAPH_CONTEXT_FINALIZE_FAILED", "GRAPH_UNAVAILABLE",
                      "INSUFFICIENT_EVIDENCE"]

  // The only messages there are: one of five for the codes the platform explains, and a general one.
  lemma MessageMeans(code: string)
    ensures PublicMessage("RCA_V2_UNAVAILABLE") == "RCA engine unavailable"
    ensures PublicMessage("TOOL_FAILED") == "investigation tool failed"
    ensures PublicMessage("GRAPH_CONTEXT_FINALIZE_FAILED") == "RCA context finalization failed"
    ensures PublicMessage("GRAPH_UNAVAILABLE") == "graph data unavailable"
    ensures PublicMessage("INSUFFICIENT_EVIDENCE") == "insufficient evidence"
    ensures code !in EXPLAINED ==> PublicMessage(code) == "investigation failed"
  {
  }

  // An investigation that throws counts as failed, with a code of its own.
  lemma RaisedMeans()
    ensures StatusOf(RawOf(Raised)) == Failed && CodeOf(RawOf(Raised)) == Given("BRAIN_EXCEPTION")
    ensures EventsOf(RawOf(Raised)) == []
    ensures forall raw :: RawOf(Returned(raw)) == raw
  {
    var raw := RawOf(Raised);
    SpelledAs("failed", "failed");
    ClaimMeans(raw);
    StatusMeans(raw);
    assert IsCode("BRAIN_EXCEPTION");
    OwnCodeMeans(raw);
  }

  method Normalize(raw: Raw) returns (status: Status, events: seq<BrainEvent>, result: Result)
    ensures events == EventsOf(raw) && status == StatusOf(raw)
    ensures MayEndWith(status) && (status == Success ==> !HasError(raw))
    // every code has the public shape, and failures always have one
    ensures result.errorCode == CodeOf(raw)
    ensures result.errorCode.Given? ==> IsCode(result.errorCode.value)
    ensures NeedsCode(status) ==> result.errorCode.Given?
    // the only message is the public one, and only failures have it
    ensures result.errorMessage == if NeedsCode(status) then Some(PublicMessage(result.errorCode.value)) else None
    ensures result.events == SetDefault(GivenResult(raw).events, |events|)
    ensures result.graphContext == GivenResult(raw).graphContext && result.summary == SummaryOf(raw)
  {
    OwnCodes();
    CodeOfDefaulted(raw);
    var claimed: Option<Status>;
    claimed, events, result := TakeApart(raw);
    StatusMayEnd(raw);
    if claimed.None? {
      status := Failed;
      result := result.(errorCode := SetDefault(result.errorCode, INVALID_OUTCOME_STATUS));
    } else {
      status := claimed.value;
    }
    var bad := FindError(events);
    if bad {
      if status == Success { status := Failed; }
      result := result.(errorCode := SetDefault(result.errorCode, BRAIN_ERROR_EVENT));
    }
    assert result.errorCode == DefaultedCode(raw) && status == StatusOf(raw);
    if status == Failed || status == Regressed {
      var code := if result.errorCode.Given? then result.errorCode.value else "";
      result := result.(errorCode := Given(StableCode(code, BRAIN_ERROR)));
      result := result.(errorMessage := Some(PublicMessage(result.errorCode.value)));
    } else {
      if result.errorCode.Given? && result.errorCode.value != "" {
        result := result.(errorCode := Given(StableCode(result.errorCode.value, BRAIN_ERROR)));
      }
      result := result.(errorMessage := None);
    }
    result := result.(events := SetDefault(result.events, |events|));
  }

  // The parts of a raw outcome: its claim, its events, and a result whose code, if any, is a public one.
  method TakeApart(raw: Raw) returns (claimed: Option<Status>, events: seq<BrainEvent>, result: Result)
    ensures claimed == Claimed(raw) && events == EventsOf(raw)
    ensures result.errorCode == match NamedCode(raw) case Given(c) => Given(StableCode(c, BRAIN_ERROR)) case other => other
    ensures result.events == GivenResult(raw).events && result.graphContext == GivenResult(raw).graphContext
    ensures result.summary == SummaryOf(raw)
  {
    OwnCodes();
    CodesAreStable();
    assert StableCode(INVALID_BRAIN_OUTCOME, BRAIN_ERROR) == INVALID_BRAIN_OUTCOME;
    result := NO_RESULT;
    match raw {
      case Mapping(given, evs, res, summary, code) =>
        events := match evs case Some(e) => e case None => [];
        var text := match given case Some(s) => if s == "" then "success" else s case None => "success";
        claimed := ParseStatus(Lower(text));
        if res.Some? { result := res.value; }
        if summary.Some? { result := result.(summary := summary); }
        var rawCode := if code.Some? && code.value != "" then Given(code.value) else result.errorCode;
        if rawCode.Given? { result := result.(errorCode := Given(StableCode(rawCode.value, BRAIN_ERROR))); }
        result := result.(errorMessage := None);
      case Listing(items) =>
        events := items;
        claimed := Some(Success);
      case Other =>
        events := [];
        claimed := Some(Failed);
        result := result.(errorCode := Given(INVALID_BRAIN_OUTCOME));
    }
  }

  method FindError(events: seq<BrainEvent>) returns (bad: bool)
    ensures bad == AnyError(events)
  {
    bad := false;
    for i := 0 to |events|
      invariant bad <==> exists k :: 0 <= k < i && events[k] == ERROR
    {
      if events[i] == ERROR { bad := true; }
    }
  }
}
