/** The transcript event (`StudioEvent`), with the fields the modelled code reads. A string the code only
    tests for emptiness or equality is "" where the source has `undefined`; a field whose absence is told
    apart from "" is an Option. */
module Events {
  import opened Sequences

  datatype EventType =
    | UserMessage | IntentRoute | AssistantDelta | ReasoningDelta
    | ModelStart | ModelDelta | ModelEnd | ModelError
    | ToolStart | ToolDelta | ToolEnd | AgentTurn | ToolObservation
    | PermissionRequest | FileChanged | FinalAnswer | ErrorEvent
    | OtherType(typeName: string)

  datatype Status = Queued | Running | WaitingUser | Completed | Failed | Blocked

  datatype Phase =
    | Understanding | Planning | Executing | Reviewing | Resuming | NextHint
    | OtherPhase(phaseName: string)

  datatype TranscriptKind =
    | NoTranscriptKind | AssistantMessage | PlanNote | TodoUpdate | ToolUse | ToolResult
    | VerificationNote | RepairNote | DiagnosticNote | FinalNote | StopNote | FileChangeNote
    | PermissionAsk | DecisionAsk | PlainAsk | SubagentSummary | ContextStatus
    | OtherNote(noteName: string)

  datatype RuntimeEventType =
    | NoRuntimeType | ToolCall | ToolOutput | RuntimeError | Decision | FinalReport
    | TurnStart | TurnEnd | RuntimeObservation
    | OtherRuntimeType(runtimeName: string)

  /** One `file_changes` record, or the record a `file_changed` event carries in `data`. */
  datatype RawChange = RawChange(
    path: Option<string>, file: Option<string>, relativePath: Option<string>,
    operation: string, eventType: string,
    additions: Option<int>, deletions: Option<int>)

  /** The structured payload (`event.data`), by the keys the code looks up. */
  datatype Data = Data(
    continuesRun: bool,       // decision.next_action === "continue_run"
    hasPromotion: bool,       // Boolean(promotion_id)
    hasPromotable: bool,      // Boolean(promotable_files)
    heldOpen: bool,           // held_open === true
    isTodoWrite: bool,        // tool_name === "todo_write"
    okIsFalse: bool,          // ok === false
    childTask: string,
    record: RawChange)

  datatype Event = Event(
    eventId: string,
    seqNo: Option<int>,
    etype: EventType,
    status: Status,
    title: string,
    summary: string,
    content: Option<string>,
    command: Option<seq<string>>,
    toolCall: string,
    phase: Option<Phase>,
    provider: Option<string>,
    telemetry: Option<string>,
    createdAt: string,
    displayLevel: string,
    transcriptKind: TranscriptKind,
    runtimeType: RuntimeEventType,
    onProgressChannel: bool,  // runtime_channel === "progress"
    jobId: string,
    data: Option<Data>,
    fileChanges: seq<RawChange>,
    artifactRefs: seq<string>)

  /** `a || b` on strings. */
  function Or(a: string, b: string): string { if a != "" then a else b }

  /** `content_delta ?? ""`. */
  function TextOf(e: Event): string { if e.content.Some? then e.content.value else "" }

  predicate IsActive(s: Status) { s == Running || s == Queued || s == WaitingUser }

  /** A transcript event as the heap object the source passes around and sometimes mutates. */
  class EventCell {
    var value: Event

    constructor (value: Event)
      ensures this.value == value
    {
      this.value := value;
    }
  }

  function Values(cells: seq<EventCell>): (r: seq<Event>)
    reads cells
    ensures |r| == |cells|
    ensures forall i :: 0 <= i < |cells| ==> r[i] == cells[i].value
  {
    seq(|cells|, i requires 0 <= i < |cells| reads cells => cells[i].value)
  }
}
