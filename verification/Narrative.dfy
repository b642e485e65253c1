/** `buildRunNarrative` on values: which events are shown, what kind of step each makes, and how adjacent
    events are grouped into steps and the whole run is closed off. */
module Narrative {
  import opened Sequences
  import opened Events
  import opened Text

  datatype Kind =
    | Goal | Thinking | Narration | PlanStep | Tool | Observation | Turn | Result | Repair | Verification
    | Guardrail | Final | ErrorStep | Subagent | Hold | Resume | Choice | Context

  datatype RunStatus = InProgress | RunCompleted | RunFailed

  datatype Step = Step(
    kind: Kind, caption: string, title: string, summary: string, status: Status, events: seq<Event>,
    defaultOpen: bool)

  /** The localisation tables, which the model leaves open. */
  datatype Tables = Tables(
    caption: (Kind, Event) -> string,     // narrativeLabel
    title: string -> string,              // projectTitle
    summary: string -> string,            // projectSummary
    bookkeeping: string -> bool)          // isBookkeepingTitle

  /** What decides the steps: which events are shown, the kind of each, and whether an event belongs with
      a step opened by a given first event. */
  datatype Rules = Rules(
    shown: Event -> bool,
    kind: Event -> Kind,
    belongs: (Event, Event) -> bool,
    tables: Tables)

  /** The rules the source uses. */
  function StudioRules(t: Tables): Rules {
    Rules(e => Shown(t.bookkeeping, e), e => KindOf(e), (first, e) => BelongsWith(first, e), t)
  }

  // ----- classifying one event

  predicate HasCommand(e: Event) { e.command.Some? && |e.command.value| > 0 }

  predicate IsRealToolEvent(e: Event) {
    e.runtimeType in {ToolCall, ToolOutput, RuntimeError} || e.toolCall != "" || HasCommand(e)
  }

  predicate HoldsPromotion(e: Event) {
    && e.data.Some?
    && ((e.transcriptKind == DecisionAsk && e.data.value.hasPromotion)
        || (e.onProgressChannel && e.runtimeType == Decision
            && (e.data.value.hasPromotable || e.data.value.hasPromotion)))
  }

  function KindOf(e: Event): Kind {
    if e.data.Some? && e.data.value.continuesRun then Resume
    else if HoldsPromotion(e) then Hold
    else
      match e.transcriptKind
      case AssistantMessage => Narration
      case PlanNote => PlanStep
      case TodoUpdate => PlanStep
      case ToolUse => if IsRealToolEvent(e) then Tool else Turn
      case ToolResult => if IsRealToolEvent(e) then Tool else Turn
      case _ => if e.data.Some? && e.data.value.heldOpen then Guardrail else KindByNote(e)
  }

  function KindByNote(e: Event): Kind {
    if e.transcriptKind == VerificationNote then Verification
    else if e.transcriptKind == RepairNote then Repair
    else if e.transcriptKind == DiagnosticNote then Observation
    else if e.runtimeType == FinalReport then Result
    else
      match e.transcriptKind
      case FinalNote => Final
      case StopNote => Final
      case FileChangeNote => Result
      case PermissionAsk => KindOfAsk(e)
      case DecisionAsk => KindOfAsk(e)
      case PlainAsk => KindOfAsk(e)
      case SubagentSummary => Subagent
      case _ => KindByType(e)
  }

  function KindOfAsk(e: Event): Kind {
    if e.status != WaitingUser then Observation else if e.jobId != "" then Tool else Choice
  }

  function KindByType(e: Event): Kind {
    if e.etype == UserMessage then Goal
    else if e.etype == AgentTurn || e.runtimeType == TurnStart || e.runtimeType == TurnEnd then Turn
    else if e.etype == IntentRoute then Thinking
    else if e.etype in {PermissionRequest, ToolStart, ToolDelta, ToolEnd} then Tool
    else if e.etype == ToolObservation || e.runtimeType == RuntimeObservation then Observation
    else if e.etype == ModelError || e.etype == ErrorEvent then ErrorStep
    else if e.etype == FinalAnswer then Final
    else if e.phase == Some(Planning) then PlanStep
    else if e.phase == Some(Reviewing) then Verification
    else if e.phase == Some(Executing) || e.phase == Some(Resuming) then
      if e.status == Failed then Repair else if IsRealToolEvent(e) then Tool else Turn
    else if e.etype in {ModelStart, ModelDelta, ModelEnd, ReasoningDelta} then Thinking
    else if e.etype == FileChanged then Result
    else Thinking
  }

  predicate IsInternalLoopScaffolding(e: Event) {
    || e.phase == Some(NextHint)
    || e.phase == Some(Understanding)
    || e.transcriptKind == ContextStatus
    || (e.data.Some? && e.data.value.isTodoWrite)
    || (e.transcriptKind == RepairNote && e.status != Failed)
    || (e.runtimeType == FinalReport && Trim(TextOf(e)) == "")
  }

  predicate OnMainLevel(e: Event) { e.displayLevel == "" || e.displayLevel == "main" }

  predicate IsMachinery(k: Kind) { k == Turn || k == Context || k == Observation }

  predicate Shown(bookkeeping: string -> bool, e: Event) {
    && !IsInternalLoopScaffolding(e)
    && OnMainLevel(e)
    && !bookkeeping(e.title)
    && !IsMachinery(KindOf(e))
  }

  // ----- grouping

  function CommandLine(e: Event): string { if e.command.Some? then Joined(" ", e.command.value) else "" }

  predicate IsToolType(t: EventType) { t in {ToolStart, ToolDelta, ToolEnd, ToolObservation} }

  function ChildTask(e: Event): string { if e.data.Some? then e.data.value.childTask else "" }

  /** `shouldGroup`, for a step of this kind whose first event is `first`. */
  predicate ShouldGroup(kind: Kind, first: Event, e: Event) {
    match kind
    case Goal => false
    case Final => false
    case ErrorStep => false
    case Hold => false
    case Resume => false
    case Choice => false
    case Thinking => first.phase == e.phase && first.provider == e.provider
    case Turn => first.toolCall != "" && first.toolCall == e.toolCall
    case Tool =>
      || (first.toolCall != "" && first.toolCall == e.toolCall)
      || (CommandLine(first) != "" && CommandLine(first) == CommandLine(e))
      || (IsToolType(first.etype) && IsToolType(e.etype) && first.title == e.title)
    case Observation => first.toolCall != "" && first.toolCall == e.toolCall
    case Subagent => ChildTask(first) != "" && ChildTask(first) == ChildTask(e)
    case _ => first.phase == e.phase
  }

  /** An event belongs with a group exactly when it has the kind of the group's first event and
      `shouldGroup` accepts it against that event. */
  predicate BelongsWith(first: Event, e: Event) {
    KindOf(first) == KindOf(e) && ShouldGroup(KindOf(first), first, e)
  }

  function MergeStatus(current: Status, next: Status): Status {
    if next == Failed || current == Failed then Failed
    else if next == WaitingUser || current == WaitingUser then WaitingUser
    else if next == Running || current == Running then Running
    else if next == Queued || current == Queued then Queued
    else Completed
  }

  function NewStep(r: Rules, e: Event): Step {
    var t, kind := r.tables, r.kind(e);
    Step(kind, t.caption(kind, e), t.title(e.title), t.summary(Or(Or(e.summary, TextOf(e)), e.title)),
         e.status, [e], kind == Final || kind == Guardrail)
  }

  function GrownStep(r: Rules, s: Step, e: Event): Step {
    var t := r.tables;
    s.(events := s.events + [e], summary := Or(t.summary(e.summary), s.summary),
       status := MergeStatus(s.status, e.status), title := Or(t.title(e.title), s.title))
  }

  ghost predicate Nonempty(steps: seq<Step>) {
    forall i :: 0 <= i < |steps| ==> steps[i].events != []
  }

  function AddEvent(r: Rules, steps: seq<Step>, e: Event): (after: seq<Step>)
    requires Nonempty(steps)
    ensures Nonempty(after)
  {
    if steps != [] && r.belongs(Last(steps).events[0], e)
    then Front(steps) + [GrownStep(r, Last(steps), e)]
    else steps + [NewStep(r, e)]
  }

  function Group(r: Rules, kept: seq<Event>): (steps: seq<Step>)
    ensures Nonempty(steps)
  {
    if kept == [] then [] else AddEvent(r, Group(r, Front(kept)), Last(kept))
  }

  // ----- closing off

  function Opens(steps: seq<Step>, i: int): seq<Step>
    requires i < |steps|
  {
    if i < 0 then steps else steps[i := steps[i].(defaultOpen := true)]
  }

  function IsOpenEnded(): Step -> bool { (s: Step) => s.status == Running || s.status == WaitingUser }

  function IsTrouble(): Step -> bool { (s: Step) => s.status == Failed || s.kind == ErrorStep }

  function IsFinalStep(): Step -> bool { (s: Step) => s.kind == Final }

  function AutoOpened(steps: seq<Step>): (r: seq<Step>)
    ensures |r| == |steps|
  {
    var lastActive := LastIndex(IsOpenEnded(), steps);
    var expanded := Opens(steps, lastActive);
    if LastIndex(IsFinalStep(), expanded) < 0 && lastActive < 0
    then Opens(expanded, LastIndex(IsTrouble(), expanded)) else expanded
  }

  function IsEnding(): Event -> bool { (e: Event) => e.etype == FinalAnswer || e.etype == ErrorEvent }

  function RunStatusOf(events: seq<Event>): RunStatus {
    var i := LastIndex(IsEnding(), events);
    if i < 0 then InProgress else if events[i].etype == ErrorEvent then RunFailed else RunCompleted
  }

  function Settled(s: Status): Status { if s == Running || s == Queued then Completed else s }

  function SettledEvent(e: Event): Event { e.(status := Settled(e.status)) }

  function SettledStep(s: Step): Step {
    s.(status := Settled(s.status), events := SettledEvents(s.events))
  }

  datatype RunNarrative = RunNarrative(steps: seq<Step>, status: RunStatus)

  function SettledEvents(events: seq<Event>): seq<Event> { Map((e: Event) => SettledEvent(e), events) }

  function Build(r: Rules, events: seq<Event>): RunNarrative {
    var steps := AutoOpened(Group(r, Filter(r.shown, events)));
    var status := RunStatusOf(events);
    RunNarrative(if status == InProgress then steps else Map((s: Step) => SettledStep(s), steps), status)
  }
}
