/** `buildRunNarrative` as the source runs it: step objects pushed to a list and then updated in place,
    through whatever reference finds them. */
module NarrativeBuilder {
  import opened Sequences
  import opened Events
  import opened Narrative

  class NarrativeStep {
    var kind: Kind
    var caption: string
    var title: string
    var summary: string
    var status: Status
    var events: seq<Event>
    var defaultOpen: bool

    function View(): Step
      reads this
    {
      Step(kind, caption, title, summary, status, events, defaultOpen)
    }

    constructor (s: Step)
      ensures View() == s
    {
      kind, caption, title, summary := s.kind, s.caption, s.title, s.summary;
      status, events, defaultOpen := s.status, s.events, s.defaultOpen;
    }
  }

  /** The objects in the list are distinct and read as the given steps. */
  ghost predicate Reads(cells: seq<NarrativeStep>, steps: seq<Step>)
    reads cells
  {
    && |cells| == |steps|
    && (forall k :: 0 <= k < |cells| ==> cells[k].View() == steps[k])
    && (forall i, j :: 0 <= i < j < |cells| ==> cells[i] != cells[j])
  }

  /** The body of the grouping loop. */
  method TakeEvent(r: Rules, cells: seq<NarrativeStep>, event: Event, ghost steps: seq<Step>)
    returns (cells': seq<NarrativeStep>)
    requires Nonempty(steps) && Reads(cells, steps)
    modifies cells
    ensures Reads(cells', AddEvent(r, steps, event))
    ensures |cells| <= |cells'|
    ensures forall k :: 0 <= k < |cells'| ==> if k < |cells| then cells'[k] == cells[k] else fresh(cells'[k])
  {
    cells' := cells;
    if |cells| > 0 {
      var previous := cells[|cells| - 1];
      assert previous.View() == Last(steps);
      if r.belongs(previous.events[0], event) {
        previous.events := previous.events + [event];
        previous.summary := Or(r.tables.summary(event.summary), previous.summary);
        previous.status := MergeStatus(previous.status, event.status);
        previous.title := Or(r.tables.title(event.title), previous.title);
        assert previous.View() == GrownStep(r, Last(steps), event);
        return;
      }
    }
    var step := new NarrativeStep(NewStep(r, event));
    cells' := cells + [step];
  }

  /** `[...steps].reverse().find(p)`, by position. */
  method FindLast(p: Step -> bool, cells: seq<NarrativeStep>, ghost steps: seq<Step>) returns (i: int)
    requires Reads(cells, steps)
    ensures i == LastIndex(p, steps)
  {
    i := |cells| - 1;
    while i >= 0
      invariant -1 <= i < |cells|
      invariant forall k :: i < k < |cells| ==> !p(steps[k])
    {
      if p(cells[i].View()) { return; }
      i := i - 1;
    }
  }

  method OpenAt(cells: seq<NarrativeStep>, i: int, ghost steps: seq<Step>)
    requires Reads(cells, steps) && i < |cells|
    modifies cells
    ensures Reads(cells, Opens(steps, i))
  {
    if i >= 0 {
      cells[i].defaultOpen := true;
    }
  }

  method SettleAll(cells: seq<NarrativeStep>, ghost steps: seq<Step>)
    requires Reads(cells, steps)
    modifies cells
    ensures Reads(cells, Map((s: Step) => SettledStep(s), steps))
  {
    for n := 0 to |cells|
      invariant forall k :: 0 <= k < n ==> cells[k].View() == SettledStep(steps[k])
      invariant forall k :: n <= k < |cells| ==> cells[k].View() == steps[k]
    {
      var step := cells[n];
      assert step.View() == steps[n];
      if step.status == Running || step.status == Queued { step.status := Completed; }
      step.events := SettledEvents(step.events);
      assert step.View() == SettledStep(steps[n]);
    }
  }

  lemma GroupsOneMore(r: Rules, events: seq<Event>, n: nat)
    requires n < |events|
    ensures Group(r, Filter(r.shown, events[..n + 1])) ==
            if r.shown(events[n]) then AddEvent(r, Group(r, Filter(r.shown, events[..n])), events[n])
            else Group(r, Filter(r.shown, events[..n]))
  {
    TakeOneMore(events, n);
    FilterSnoc(r.shown, events[..n], events[n]);
    Joins(Filter(r.shown, events[..n]), events[n]);
  }

  /** One turn of the loop. */
  method TakeIfShown(r: Rules, cells: seq<NarrativeStep>, events: seq<Event>, n: nat, ghost steps: seq<Step>)
    returns (cells': seq<NarrativeStep>, ghost steps': seq<Step>)
    requires n < |events| && steps == Group(r, Filter(r.shown, events[..n]))
    requires Nonempty(steps) && Reads(cells, steps)
    modifies cells
    ensures steps' == Group(r, Filter(r.shown, events[..n + 1])) && Nonempty(steps') && Reads(cells', steps')
    ensures |cells| <= |cells'|
    ensures forall k :: 0 <= k < |cells'| ==> if k < |cells| then cells'[k] == cells[k] else fresh(cells'[k])
  {
    GroupsOneMore(r, events, n);
    cells', steps' := cells, steps;
    if r.shown(events[n]) {
      cells' := TakeEvent(r, cells, events[n], steps);
      steps' := AddEvent(r, steps, events[n]);
    }
  }

  method GroupEvents(r: Rules, events: seq<Event>) returns (cells: seq<NarrativeStep>)
    ensures Reads(cells, Group(r, Filter(r.shown, events)))
    ensures forall k :: 0 <= k < |cells| ==> fresh(cells[k])
  {
    cells := [];
    ghost var steps: seq<Step> := [];
    assert events[..0] == [];
    for n := 0 to |events|
      invariant steps == Group(r, Filter(r.shown, events[..n]))
      invariant Nonempty(steps) && Reads(cells, steps)
      invariant forall k :: 0 <= k < |cells| ==> fresh(cells[k])
    {
      cells, steps := TakeIfShown(r, cells, events, n, steps);
    }
    assert events[..|events|] == events;
  }

  method AutoOpen(cells: seq<NarrativeStep>, ghost steps: seq<Step>)
    requires Reads(cells, steps)
    modifies cells
    ensures Reads(cells, AutoOpened(steps))
  {
    var lastActive := FindLast(IsOpenEnded(), cells, steps);
    OpenAt(cells, lastActive, steps);
    ghost var expanded := Opens(steps, lastActive);
    var lastFinal := FindLast(IsFinalStep(), cells, expanded);
    if lastFinal < 0 && lastActive < 0 {
      var lastFailed := FindLast(IsTrouble(), cells, expanded);
      OpenAt(cells, lastFailed, expanded);
    }
  }

  method BuildRunNarrative(r: Rules, events: seq<Event>)
    returns (cells: seq<NarrativeStep>, status: RunStatus)
    ensures Reads(cells, Build(r, events).steps) && status == Build(r, events).status
    ensures forall k :: 0 <= k < |cells| ==> fresh(cells[k])
  {
    cells := GroupEvents(r, events);
    ghost var steps := Group(r, Filter(r.shown, events));
    AutoOpen(cells, steps);
    status := RunStatusOf(events);
    if status != InProgress {
      SettleAll(cells, AutoOpened(steps));
    }
  }
}
