/** What a built narrative says, field by field, in terms of the transcript alone. */
module NarrativeReading {
  import opened Sequences
  import opened Events
  import opened Narrative
  import opened NarrativeLaws
  import opened Partitions
  import opened Text

  // ----- the run's status

  predicate Ends(e: Event) { e.etype == FinalAnswer || e.etype == ErrorEvent }

  /** The last final answer or error of the transcript stands at i. */
  ghost predicate EndsTheRun(events: seq<Event>, i: nat) {
    i < |events| && Ends(events[i]) && forall j :: i < j < |events| ==> !Ends(events[j])
  }

  lemma EndingFound(events: seq<Event>)
    ensures var i := LastIndex(IsEnding(), events);
            if i < 0 then forall j :: 0 <= j < |events| ==> !Ends(events[j]) else EndsTheRun(events, i)
  {
    assert forall e :: IsEnding()(e) <==> Ends(e);
  }

  lemma OneEnding(events: seq<Event>, i: nat, j: nat)
    requires EndsTheRun(events, i) && EndsTheRun(events, j)
    ensures i == j
  {
  }

  /** The run has failed exactly when the last final answer or error in the transcript is an error, has
      completed exactly when it is a final answer, and is in progress exactly when there is neither. */
  ghost predicate TellsTheTranscript(events: seq<Event>, status: RunStatus) {
    && (status == RunFailed <==> exists i: nat :: EndsTheRun(events, i) && events[i].etype == ErrorEvent)
    && (status == RunCompleted <==> exists i: nat :: EndsTheRun(events, i) && events[i].etype == FinalAnswer)
    && (status == InProgress <==> forall i :: 0 <= i < |events| ==> !Ends(events[i]))
  }

  lemma TellsAtEnding(events: seq<Event>, i: nat)
    requires EndsTheRun(events, i)
    ensures TellsTheTranscript(events, if events[i].etype == ErrorEvent then RunFailed else RunCompleted)
  {
    forall j: nat | EndsTheRun(events, j) ensures j == i { OneEnding(events, i, j); }
  }

  lemma StatusTells(events: seq<Event>)
    ensures TellsTheTranscript(events, RunStatusOf(events))
  {
    var w := LastIndex(IsEnding(), events);
    EndingFound(events);
    if w >= 0 { TellsAtEnding(events, w); }
  }

  lemma BuildStatus(r: Rules, events: seq<Event>)
    ensures Build(r, events).status == RunStatusOf(events)
  {
  }

  lemma StatusTellsTheTranscript(r: Rules, events: seq<Event>)
    ensures TellsTheTranscript(events, Build(r, events).status)
  {
    BuildStatus(r, events);
    StatusTells(events);
  }

  // ----- the texts of a step

  function TitlesOf(r: Rules, events: seq<Event>): seq<string> { Map((e: Event) => r.tables.title(e.title), events) }

  /** The summary each event of a step offers it: the first one's is made of its summary, its content or its
      title, whichever is there first. */
  function SummaryOffer(r: Rules, events: seq<Event>, i: nat): string
    requires i < |events|
  {
    var e := events[i];
    r.tables.summary(
      if i > 0 || e.summary != "" then e.summary
      else if e.content.Some? && e.content.value != "" then e.content.value
      else e.title)
  }

  function SummariesOf(r: Rules, events: seq<Event>): seq<string> {
    seq(|events|, i requires 0 <= i < |events| => SummaryOffer(r, events, i))
  }

  ghost predicate Reads(r: Rules, s: Step) {
    && s.events != []
    && s.kind == r.kind(s.events[0])
    && s.caption == r.tables.caption(s.kind, s.events[0])
    && IsLastNonEmpty(TitlesOf(r, s.events), s.title)
    && IsLastNonEmpty(SummariesOf(r, s.events), s.summary)
    && (s.defaultOpen <==> s.kind == Final || s.kind == Guardrail)
  }

  lemma OneReads(r: Rules, e: Event)
    ensures Reads(r, NewStep(r, e))
  {
    var s := NewStep(r, e);
    assert TitlesOf(r, [e])[0] == s.title && SummariesOf(r, [e])[0] == s.summary;
  }

  lemma GrownReads(r: Rules, s: Step, e: Event)
    requires Reads(r, s)
    ensures Reads(r, GrownStep(r, s, e))
  {
    LastNonEmptySnoc(TitlesOf(r, s.events), s.title, r.tables.title(e.title));
    LastNonEmptySnoc(SummariesOf(r, s.events), s.summary, r.tables.summary(e.summary));
    assert TitlesOf(r, s.events + [e]) == TitlesOf(r, s.events) + [r.tables.title(e.title)];
    assert SummariesOf(r, s.events + [e]) == SummariesOf(r, s.events) + [r.tables.summary(e.summary)];
  }

  /** Every step has the kind and caption of its first event, the last non-empty title and summary its events
      offer, and stands open by default exactly if it is a final step or a guardrail. */
  lemma {:induction false} StepsRead(r: Rules, kept: seq<Event>, k: nat)
    requires k < |Group(r, kept)|
    ensures Reads(r, Group(r, kept)[k])
  {
    var steps, e := Group(r, Front(kept)), Last(kept);
    if steps != [] && r.belongs(Last(steps).events[0], e) {
      if k < |steps| - 1 {
        StepsRead(r, Front(kept), k);
      } else {
        StepsRead(r, Front(kept), |steps| - 1);
        GrownReads(r, Last(steps), e);
      }
    } else if k < |steps| {
      StepsRead(r, Front(kept), k);
    } else {
      OneReads(r, e);
    }
  }

  // ----- which steps stand open

  ghost predicate LastSuch(steps: seq<Step>, k: nat, p: Step -> bool) {
    k < |steps| && p(steps[k]) && forall j :: k < j < |steps| ==> !p(steps[j])
  }

  function Active(): Step -> bool { (s: Step) => s.status == Running || s.status == WaitingUser }

  function InTrouble(): Step -> bool { (s: Step) => s.status == Failed || s.kind == ErrorStep }

  /** A step is opened on its own merits, or as the last active one, or, in a narrative with no active and no
      final step, as the last one in trouble. */
  ghost predicate ShouldOpen(steps: seq<Step>, k: nat)
    requires k < |steps|
  {
    || steps[k].defaultOpen
    || LastSuch(steps, k, Active())
    || (LastSuch(steps, k, InTrouble())
        && forall j :: 0 <= j < |steps| ==> !Active()(steps[j]) && steps[j].kind != Final)
  }

  lemma SameLastIndex(p: Step -> bool, q: Step -> bool, a: seq<Step>, b: seq<Step>)
    requires |a| == |b| && forall k :: 0 <= k < |a| ==> p(a[k]) == q(b[k])
    ensures LastIndex(p, a) == LastIndex(q, b)
  {
  }

  lemma LastIndexIsLast(p: Step -> bool, steps: seq<Step>, k: nat)
    requires k < |steps|
    ensures LastSuch(steps, k, p) <==> LastIndex(p, steps) == k
  {
  }

  lemma OpensAre(steps: seq<Step>, k: nat)
    requires k < |steps|
    ensures AutoOpened(steps)[k].defaultOpen <==> ShouldOpen(steps, k)
  {
    var active := LastIndex(IsOpenEnded(), steps);
    var expanded := Opens(steps, active);
    SameLastIndex(IsOpenEnded(), Active(), steps, steps);
    SameLastIndex(IsTrouble(), InTrouble(), expanded, steps);
    SameLastIndex(IsFinalStep(), IsFinalStep(), expanded, steps);
    LastIndexIsLast(Active(), steps, k);
    LastIndexIsLast(InTrouble(), steps, k);
  }

  /** Over a whole narrative, finished or not: which steps stand open depends on the statuses and kinds the
      steps had before any closing rewrite. */
  lemma NarrativeOpens(r: Rules, events: seq<Event>, k: nat)
    requires k < |Build(r, events).steps|
    ensures var before := Group(r, Filter(r.shown, events));
            |before| == |Build(r, events).steps| &&
            (Build(r, events).steps[k].defaultOpen <==> ShouldOpen(before, k))
  {
    OpensAre(Group(r, Filter(r.shown, events)), k);
  }

  // ----- what is shown

  /** Under the source's rules a step never holds an event of a hidden sort: routing hints, goal ceremony,
      context notes, plan-tool rows, repair notices that are no failure, empty reports, bookkeeping, events
      not on the main level, or machinery; and every other event of the transcript is in a step. */
  lemma ShownIff(t: Tables, events: seq<Event>, e: Event)
    ensures var r := StudioRules(t);
            e in Filter(r.shown, events) <==>
            && e in events
            && e.phase != Some(NextHint) && e.phase != Some(Understanding)
            && e.transcriptKind != ContextStatus
            && !(e.data.Some? && e.data.value.isTodoWrite)
            && !(e.transcriptKind == RepairNote && e.status != Failed)
            && !(e.runtimeType == FinalReport && (e.content.None? || Trim(e.content.value) == ""))
            && (e.displayLevel == "" || e.displayLevel == "main")
            && !t.bookkeeping(e.title)
            && KindOf(e) != Turn && KindOf(e) != Context && KindOf(e) != Observation
  {
    FilterMembers(StudioRules(t).shown, events);
    TrimOfNothing();
  }

  lemma TrimOfNothing()
    ensures Trim("") == ""
  {
  }

  // ----- what shares a step

  ghost predicate SharesCall(a: Event, b: Event) { a.toolCall != "" && a.toolCall == b.toolCall }

  ghost predicate SharesCommand(a: Event, b: Event) {
    && a.command.Some? && b.command.Some?
    && Joined(" ", a.command.value) != ""
    && Joined(" ", a.command.value) == Joined(" ", b.command.value)
  }

  ghost predicate SharesToolTitle(a: Event, b: Event) {
    && (a.etype == ToolStart || a.etype == ToolDelta || a.etype == ToolEnd || a.etype == ToolObservation)
    && (b.etype == ToolStart || b.etype == ToolDelta || b.etype == ToolEnd || b.etype == ToolObservation)
    && a.title == b.title
  }

  ghost predicate SharesExpert(a: Event, b: Event) {
    && a.data.Some? && b.data.Some?
    && a.data.value.childTask != "" && a.data.value.childTask == b.data.value.childTask
  }

  /** What makes two events of one kind the same thing to the reader. */
  ghost predicate SameThing(kind: Kind, a: Event, b: Event) {
    if kind in {Goal, Final, ErrorStep, Hold, Resume, Choice} then false
    else if kind == Thinking then a.phase == b.phase && a.provider == b.provider
    else if kind == Turn || kind == Observation then SharesCall(a, b)
    else if kind == Tool then SharesCall(a, b) || SharesCommand(a, b) || SharesToolTitle(a, b)
    else if kind == Subagent then SharesExpert(a, b)
    else a.phase == b.phase
  }

  lemma GroupsTheSameThing(kind: Kind, a: Event, b: Event)
    ensures ShouldGroup(kind, a, b) <==> SameThing(kind, a, b)
  {
    assert Joined(" ", []) == "";
  }

  /** Every event of a step is, to the reader, the same thing as its first one. So goals, finals, errors,
      holds, resumes and choices each stand alone, and two delegations to different experts never share a
      step. */
  lemma StepsHoldOneThing(t: Tables, kept: seq<Event>, k: nat, i: nat)
    requires k < |Group(StudioRules(t), kept)| && 0 < i < |Group(StudioRules(t), kept)[k].events|
    ensures var s := Group(StudioRules(t), kept)[k];
            KindOf(s.events[i]) == s.kind && SameThing(s.kind, s.events[0], s.events[i])
  {
    var r := StudioRules(t);
    GroupsAreGreedy(r, kept);
    StepsAreFaithful(r, kept);
    var s := Group(r, kept)[k];
    assert Coherent(r.belongs, EventsOf(Group(r, kept))[k]);
    assert Faithful(r, s) && r.belongs(s.events[0], s.events[i]);
    GroupsTheSameThing(s.kind, s.events[0], s.events[i]);
  }

  /** And what is the same thing, and adjacent, shares a step: two neighbouring steps of one kind begin with
      different things. */
  lemma NeighboursDiffer(t: Tables, kept: seq<Event>, k: nat)
    requires 0 < k < |Group(StudioRules(t), kept)|
    ensures var a, b := Group(StudioRules(t), kept)[k - 1], Group(StudioRules(t), kept)[k];
            a.events != [] && b.events != [] &&
            (a.kind == b.kind ==> !SameThing(a.kind, a.events[0], b.events[0]))
  {
    var r := StudioRules(t);
    GroupsAreGreedy(r, kept);
    StepsAreFaithful(r, kept);
    var a, b := Group(r, kept)[k - 1], Group(r, kept)[k];
    assert Separate(r.belongs, EventsOf(Group(r, kept))[k - 1], EventsOf(Group(r, kept))[k]);
    assert Faithful(r, a) && Faithful(r, b);
    GroupsTheSameThing(a.kind, a.events[0], b.events[0]);
  }

  // ----- what the kinds that stand out mean

  predicate Resumes(e: Event) { e.data.Some? && e.data.value.continuesRun }

  /** A decision event that holds a promotion back: by its transcript kind, or in the older shape. */
  predicate HoldsBack(e: Event) {
    && e.data.Some?
    && if e.transcriptKind == DecisionAsk && e.data.value.hasPromotion then true
       else e.onProgressChannel && e.runtimeType == Decision
            && (e.data.value.hasPromotion || e.data.value.hasPromotable)
  }

  predicate SetApart(e: Event) { Resumes(e) || HoldsBack(e) }

  predicate KeptGoing(e: Event) { e.data.Some? && e.data.value.heldOpen }

  predicate IsAsk(e: Event) { e.transcriptKind in {PermissionAsk, DecisionAsk, PlainAsk} }

  /** A note is read by its transcript kind before anything else is looked at. */
  predicate ReadAtOnce(e: Event) { e.transcriptKind in {AssistantMessage, PlanNote, TodoUpdate, ToolUse, ToolResult} }

  /** Neither what the event carries nor its transcript kind says what it is: its type does. */
  predicate ReadByType(e: Event) {
    && !SetApart(e) && !KeptGoing(e) && e.runtimeType != FinalReport
    && (e.transcriptKind in {NoTranscriptKind, ContextStatus} || e.transcriptKind.OtherNote?)
  }

  /** What it carries says nothing of its kind. */
  predicate Noted(e: Event) { !SetApart(e) && !KeptGoing(e) }

  predicate TurnMarker(e: Event) { e.runtimeType == TurnStart || e.runtimeType == TurnEnd }

  predicate Real(e: Event) {
    || e.runtimeType in {ToolCall, ToolOutput, RuntimeError} || e.toolCall != ""
    || (e.command.Some? && e.command.value != [])
  }

  predicate ToolTyped(e: Event) { e.etype in {PermissionRequest, ToolStart, ToolDelta, ToolEnd} }

  predicate ReportsObservation(e: Event) { e.etype == ToolObservation || e.runtimeType == RuntimeObservation }

  /** Its type does not say what it is either: its phase does, if it can. */
  predicate ReadByPhase(e: Event) {
    && ReadByType(e) && !ToolTyped(e) && !TurnMarker(e) && !ReportsObservation(e)
    && e.etype !in {UserMessage, AgentTurn, IntentRoute, ModelError, ErrorEvent, FinalAnswer}
  }

  predicate AtWork(e: Event) { e.phase == Some(Executing) || e.phase == Some(Resuming) }

  /** Resuming comes before a held promotion, and both before everything else; prose is the model's own
      message only; a guardrail is told by its data, never by its title; a card asks for a decision exactly
      when the loop waits for the user and no job does; and only a closing note, or an answer no transcript
      kind accounts for, is the final reply: no diagnostic and no final report ever is. */
  lemma KindsMean(e: Event)
    ensures KindOf(e) == Resume <==> Resumes(e)
    ensures KindOf(e) == Hold <==> !Resumes(e) && HoldsBack(e)
    ensures KindOf(e) == Narration <==> !SetApart(e) && e.transcriptKind == AssistantMessage
    ensures KindOf(e) == Guardrail <==> !SetApart(e) && !ReadAtOnce(e) && KeptGoing(e)
    ensures KindOf(e) == Choice <==> && Noted(e) && e.runtimeType != FinalReport
                                     && IsAsk(e) && e.status == WaitingUser && e.jobId == ""
    ensures KindOf(e) == Subagent <==> Noted(e) && e.runtimeType != FinalReport && e.transcriptKind == SubagentSummary
    ensures KindOf(e) == Goal <==> ReadByType(e) && e.etype == UserMessage
    ensures KindOf(e) == ErrorStep <==> && ReadByType(e) && e.etype in {ModelError, ErrorEvent}
                                        && !TurnMarker(e) && !ReportsObservation(e)
    ensures KindOf(e) == Final <==>
            || (Noted(e) && e.runtimeType != FinalReport && e.transcriptKind in {FinalNote, StopNote})
            || (ReadByType(e) && e.etype == FinalAnswer && !TurnMarker(e) && !ReportsObservation(e))
  {
  }

  /** The kinds of the process: recorded decisions and diagnostics are observations, a failure at work is a
      repair, a final report a result. Nothing is mere context, and thinking is the rest. */
  lemma ProcessKindsMean(e: Event)
    ensures KindOf(e) == PlanStep <==>
            || (!SetApart(e) && e.transcriptKind in {PlanNote, TodoUpdate})
            || (ReadByPhase(e) && e.phase == Some(Planning))
    ensures KindOf(e) == Verification <==>
            || (Noted(e) && e.transcriptKind == VerificationNote)
            || (ReadByPhase(e) && e.phase == Some(Reviewing))
    ensures KindOf(e) == Repair <==>
            || (Noted(e) && e.transcriptKind == RepairNote)
            || (ReadByPhase(e) && AtWork(e) && e.status == Failed)
    ensures KindOf(e) == Observation <==>
            || (Noted(e) && e.transcriptKind == DiagnosticNote)
            || (Noted(e) && e.runtimeType != FinalReport && IsAsk(e) && e.status != WaitingUser)
            || (ReadByType(e) && !ToolTyped(e) && !TurnMarker(e) && ReportsObservation(e)
                && e.etype !in {UserMessage, AgentTurn, IntentRoute})
    ensures KindOf(e) == Result <==>
            || (Noted(e) && e.runtimeType == FinalReport && !ReadAtOnce(e)
                && e.transcriptKind !in {VerificationNote, RepairNote, DiagnosticNote})
            || (Noted(e) && e.transcriptKind == FileChangeNote)
            || (ReadByPhase(e) && !AtWork(e) && e.etype == FileChanged
                && e.phase != Some(Planning) && e.phase != Some(Reviewing))
    ensures KindOf(e) != Context
  {
  }

  /** A card for every real tool event at work, a turn for everything that only looks like one. */
  lemma ToolCardsAreReal(e: Event)
    ensures KindOf(e) == Tool <==>
            || (!SetApart(e) && e.transcriptKind in {ToolUse, ToolResult} && Real(e))
            || (Noted(e) && e.runtimeType != FinalReport && IsAsk(e) && e.status == WaitingUser && e.jobId != "")
            || (ReadByType(e) && ToolTyped(e) && !TurnMarker(e))
            || (ReadByPhase(e) && AtWork(e) && e.status != Failed && Real(e))
    ensures KindOf(e) == Turn <==>
            || (!SetApart(e) && e.transcriptKind in {ToolUse, ToolResult} && !Real(e))
            || (ReadByType(e) && e.etype != UserMessage && (e.etype == AgentTurn || TurnMarker(e)))
            || (ReadByPhase(e) && AtWork(e) && e.status != Failed && !Real(e))
  {
  }
}
