/** The whole way from raw transcript events to the scopes of the diff view, and what survives all of it. */
module Pipeline {
  import opened Sequences
  import opened Events
  import opened ModelCards
  import opened Narrative
  import opened NarrativeLaws
  import opened NarrativeBuilder
  import opened FileChanges
  import opened Turns
  import opened Scopes

  function MainLevel(): Event -> bool { (e: Event) => OnMainLevel(e) }

  /** The events a narrative is built from: main-level only, model fragments coalesced. */
  function Prepared(events: seq<Event>): seq<Event> { NarrativeEvents(Filter(MainLevel(), events)) }

  function TurnsOfTranscript(r: Rules, events: seq<Event>): seq<seq<Step>> {
    TurnsOf(Build(r, Prepared(events)).steps)
  }

  function TurnFiles(): Files<seq<Step>> { (turn: seq<Step>) => FilesOf(turn) }

  function Views(cells: seq<NarrativeStep>): (steps: seq<Step>)
    reads cells
    ensures |steps| == |cells|
    ensures forall k :: 0 <= k < |cells| ==> steps[k] == cells[k].View()
  {
    seq(|cells|, k requires 0 <= k < |cells| reads cells => cells[k].View())
  }

  method MainEvents(events: seq<EventCell>) returns (main: seq<EventCell>)
    ensures Values(main) == Filter(MainLevel(), Values(events))
  {
    main := [];
    var values := Values(events);
    for i := 0 to |events|
      invariant Values(main) == Filter(MainLevel(), values[..i])
    {
      assert Front(values[..i + 1]) == values[..i];
      if OnMainLevel(events[i].value) {
        assert Values(main + [events[i]]) == Values(main) + [values[i]];
        main := main + [events[i]];
      }
    }
    assert values[..|values|] == values;
  }

  method StepsOfTranscript(r: Rules, events: seq<EventCell>) returns (steps: seq<Step>)
    ensures steps == Build(r, Prepared(Values(events))).steps
  {
    var mainEvents := MainEvents(events);
    var cards := ToNarrativeEvents(mainEvents);
    var cells, _ := BuildRunNarrative(r, Values(cards));
    return Views(cells);
  }

  method BuildTurnDiffScopes(r: Rules, events: seq<EventCell>) returns (scopes: Option<seq<ScopeCell>>)
    ensures var turns := TurnsOfTranscript(r, Values(events));
            && (scopes.Some? <==> DiffScopes(TurnFiles(), turns).Some?)
            && (scopes.Some? ==> Holds(scopes.value, DiffScopes(TurnFiles(), turns).value))
  {
    var steps := StepsOfTranscript(r, events);
    var turns := SplitIntoTurns(steps);
    scopes := BuildScopes(TurnFiles(), turns);
  }

  /** Every event that is shown ends up in exactly one step of exactly one turn, in transcript order, and
      nothing else does; a finished run's events differ only in no longer being running or queued. */
  lemma TurnsConserveTheTranscript(r: Rules, events: seq<Event>)
    ensures var shown := Filter(r.shown, Prepared(events));
            var inTurns := Flatten(EventsOf(Flatten(TurnsOfTranscript(r, events))));
            inTurns == if RunStatusOf(Prepared(events)) == InProgress then shown else SettledEvents(shown)
  {
    NarrativeShowsAll(r, Prepared(events));
    TurnsFlattenBack(Build(r, Prepared(events)).steps);
  }

  /** A turn's files are those first named by an event of its middle steps whose call did not fail there:
      in first-named order, each once, none under the runtime's own directory. */
  lemma TurnFilesAreFirstNamed(turn: seq<Step>)
    requires FilesOf(turn).Some?
    ensures var middle := Flatten(EventsOf(MiddleSteps(turn)));
            var offered := AllOffered(Filter(Survives(FailedCalls(middle)), middle));
            offered.Some? && FirstSeen(offered.value, FilesOf(turn).value)
  {
    var middle := Flatten(EventsOf(MiddleSteps(turn)));
    PushedInFirstSeenOrder(AllOffered(Filter(Survives(FailedCalls(middle)), middle)).value);
  }

  /** A turn's middle events are among all of the transcript's, so what they know to have failed did fail. */
  lemma {:induction false} MoreEventsMoreFailures(part: seq<Event>, all: seq<Event>)
    requires forall e :: e in part ==> e in all
    ensures FailedCalls(part) <= FailedCalls(all)
  {
  }

  /** A turn shows a failed call's files exactly as the transcript as a whole would, provided its middle steps
      know of every failure of their own calls. */
  lemma TurnFilesErase(turn: seq<Step>, all: seq<Event>)
    requires forall e :: e in Flatten(EventsOf(MiddleSteps(turn))) ==> e in all
    ensures var middle := Flatten(EventsOf(MiddleSteps(turn)));
            && (SurvivorsOwn(middle) == Filter(Survives(FailedCalls(all)), middle) <==>
                KnowsFailures(middle, FailedCalls(all)))
            && (KnowsFailures(middle, FailedCalls(all)) ==>
                  FilesOf(turn) == Extract(Filter(Survives(FailedCalls(all)), middle)))
  {
    var middle := Flatten(EventsOf(MiddleSteps(turn)));
    MoreEventsMoreFailures(middle, all);
    PartErasesIff(middle, FailedCalls(all));
  }

  lemma MiddleOfThree(goal: Step, work: Step, answer: Step)
    requires work.kind == Tool && answer.kind == ErrorStep
    ensures MiddleSteps([goal, work, answer]) == [work]
  {
    var turn := [goal, work, answer];
    assert turn[1..] == [work, answer] && [work, answer][..1] + [work, answer][2..] == [work];
  }

  lemma EventsOfOne(s: Step)
    ensures Flatten(EventsOf([s])) == s.events
  {
    FlattenSnoc([], s.events);
    assert EventsOf([s]) == [] + [s.events] && [] + s.events == s.events;
  }

  lemma LastEventsAreThere(steps: seq<Step>, s: Step)
    ensures forall e :: e in s.events ==> e in Flatten(EventsOf(steps + [s]))
    ensures forall more: Step, last: Step :: steps == [more, last] ==> steps + [s] == [more, last, s]
  {
    assert EventsOf(steps + [s]) == EventsOf(steps) + [s.events];
    FlattenSnoc(EventsOf(steps), s.events);
  }

  lemma OneCallChanges(call: Event, raw: RawChange)
    requires call.toolCall != "" && !Fails(call) && call.etype == ToolStart && call.fileChanges == [raw]
    requires Reviewable(PathOf(raw))
    ensures Extract([call]) == Some([RecordOf(raw)])
  {
    var p := Survives(FailedCalls([call]));
    assert [] + [call] == [call] && [] + [raw] == [raw];
    assert FailedCalls([call]) == {};
    FilterSnoc(p, [], call);
    assert Filter(p, [call]) == [call];
    OfferGrows([], call);
    assert AllOffered([call]) == Some([raw]);
    assert Front([raw]) == [] && PushAll([], [raw]) == Push([], raw);
    assert !Listed([], PathOf(raw)) && [] + [RecordOf(raw)] == [RecordOf(raw)];
  }

  /** They need not: a call announced in a middle step and reported failed by the turn's own error step still
      counts as a change. */
  lemma FailureInResponseIsMissed(goal: Step, work: Step, answer: Step, call: Event, report: Event, raw: RawChange)
    requires work.events == [call] && answer.events == [report] && work.kind == Tool && answer.kind == ErrorStep
    requires call.toolCall != "" && !Fails(call) && call.etype == ToolStart && call.fileChanges == [raw]
    requires report.toolCall == call.toolCall && Fails(report) && Reviewable(PathOf(raw))
    ensures FilesOf([goal, work, answer]) == Some([RecordOf(raw)])
    ensures call.toolCall in FailedCalls(Flatten(EventsOf([goal, work, answer])))
  {
    MiddleOfThree(goal, work, answer);
    EventsOfOne(work);
    OneCallChanges(call, raw);
    LastEventsAreThere([goal, work], answer);
  }
}
