/** What `buildRunNarrative` keeps and promises. */
module NarrativeLaws {
  import opened Sequences
  import opened Events
  import opened Narrative
  import opened Partitions

  function EventsOf(steps: seq<Step>): seq<seq<Event>> { Map((s: Step) => s.events, steps) }

  // ----- nothing shown is lost, and the boundaries are the greedy ones

  lemma AddEventGrows(r: Rules, steps: seq<Step>, e: Event)
    requires Nonempty(steps)
    ensures EventsOf(AddEvent(r, steps, e)) == Grown(r.belongs, EventsOf(steps), e)
  {
    if steps != [] { assert Last(EventsOf(steps)) == Last(steps).events; }
  }

  lemma {:induction false} GroupsArePartition(r: Rules, kept: seq<Event>)
    ensures EventsOf(Group(r, kept)) == Partition(r.belongs, kept)
  {
    if kept != [] {
      GroupsArePartition(r, Front(kept));
      AddEventGrows(r, Group(r, Front(kept)), Last(kept));
    }
  }

  /** Flattening the steps gives back exactly the events shown, in order. */
  lemma GroupsFlattenBack(r: Rules, kept: seq<Event>)
    ensures Flatten(EventsOf(Group(r, kept))) == kept
  {
    GroupsArePartition(r, kept);
    PartitionFlattensBack(r.belongs, kept);
  }

  /** Every event of a step belongs with its first one, and the event opening the next step does not. */
  lemma GroupsAreGreedy(r: Rules, kept: seq<Event>)
    ensures Greedy(r.belongs, EventsOf(Group(r, kept)))
  {
    GroupsArePartition(r, kept);
    PartitionIsGreedy(r.belongs, kept);
  }

  /** There is no other greedy partition. */
  lemma GreedyIsUnique(r: Rules, groups: seq<seq<Event>>)
    requires Greedy(r.belongs, groups)
    ensures EventsOf(Group(r, Flatten(groups))) == groups
  {
    PartitionIsUnique(r.belongs, groups);
    GroupsArePartition(r, Flatten(groups));
  }

  // ----- closing off does not disturb what is shown or how it is grouped

  /** No rule tells running from queued from completed. */
  ghost predicate SettlingBlind(r: Rules) {
    && (forall e :: r.shown(SettledEvent(e)) == r.shown(e))
    && (forall first, e :: r.belongs(SettledEvent(first), SettledEvent(e)) == r.belongs(first, e))
  }

  lemma TypeIsSettlingBlind(e: Event)
    ensures IsRealToolEvent(SettledEvent(e)) == IsRealToolEvent(e)
    ensures KindByType(SettledEvent(e)) == KindByType(e)
  {
  }

  lemma NoteIsSettlingBlind(e: Event)
    ensures KindByNote(SettledEvent(e)) == KindByNote(e)
  {
    TypeIsSettlingBlind(e);
    assert KindOfAsk(SettledEvent(e)) == KindOfAsk(e);
  }

  lemma KindIsSettlingBlind(e: Event)
    ensures KindOf(SettledEvent(e)) == KindOf(e)
  {
    TypeIsSettlingBlind(e);
    NoteIsSettlingBlind(e);
  }

  lemma GroupingIsSettlingBlind(kind: Kind, first: Event, e: Event)
    ensures ShouldGroup(kind, SettledEvent(first), SettledEvent(e)) == ShouldGroup(kind, first, e)
  {
  }

  lemma StudioRulesAreSettlingBlind(t: Tables)
    ensures SettlingBlind(StudioRules(t))
  {
    var r := StudioRules(t);
    forall e ensures r.shown(SettledEvent(e)) == r.shown(e) {
      KindIsSettlingBlind(e);
      assert TextOf(SettledEvent(e)) == TextOf(e);
    }
    forall first, e ensures r.belongs(SettledEvent(first), SettledEvent(e)) == r.belongs(first, e) {
      KindIsSettlingBlind(first);
      KindIsSettlingBlind(e);
      GroupingIsSettlingBlind(KindOf(first), first, e);
    }
  }

  lemma {:induction false} SettledFlatten(groups: seq<seq<Event>>)
    ensures Flatten(Map((g: seq<Event>) => SettledEvents(g), groups)) == SettledEvents(Flatten(groups))
  {
    if groups != [] {
      var f := (g: seq<Event>) => SettledEvents(g);
      assert Front(Map(f, groups)) == Map(f, Front(groups));
      SettledFlatten(Front(groups));
    }
  }

  /** Regrouping the closed-off events reproduces the boundaries. */
  lemma RegroupingReproducesBoundaries(r: Rules, kept: seq<Event>)
    requires SettlingBlind(r)
    ensures EventsOf(Group(r, SettledEvents(kept)))
         == Map((g: seq<Event>) => SettledEvents(g), EventsOf(Group(r, kept)))
  {
    var groups := EventsOf(Group(r, kept));
    var settled := Map((g: seq<Event>) => SettledEvents(g), groups);
    GroupsAreGreedy(r, kept);
    assert Greedy(r.belongs, settled) by {
      forall k | 0 <= k < |settled| ensures Coherent(r.belongs, settled[k]) {
        assert Coherent(r.belongs, groups[k]);
      }
      forall k | 0 < k < |settled| ensures Separate(r.belongs, settled[k - 1], settled[k]) {
        assert Separate(r.belongs, groups[k - 1], groups[k]);
      }
    }
    GreedyIsUnique(r, settled);
    SettledFlatten(groups);
    GroupsFlattenBack(r, kept);
  }

  // ----- statuses

  predicate Has(events: seq<Event>, s: Status) { exists i :: 0 <= i < |events| && events[i].status == s }

  /** The join of the events' statuses, worst first. It looks only at which statuses occur, so neither order
      nor repetition matters; `blocked` counts as completed. */
  function Join(events: seq<Event>): Status {
    if Has(events, Failed) then Failed
    else if Has(events, WaitingUser) then WaitingUser
    else if Has(events, Running) then Running
    else if Has(events, Queued) then Queued
    else Completed
  }

  /** A step of one event has that event's status. */
  function StatusOfGroup(events: seq<Event>): Status
    requires events != []
  {
    if |events| == 1 then events[0].status else Join(events)
  }

  lemma HasSnoc(events: seq<Event>, e: Event, s: Status)
    ensures Has(events + [e], s) <==> Has(events, s) || e.status == s
  {
    if Has(events, s) {
      var i :| 0 <= i < |events| && events[i].status == s;
      assert (events + [e])[i].status == s;
    }
    if e.status == s { assert (events + [e])[|events|].status == s; }
  }

  lemma JoinSnoc(events: seq<Event>, e: Event)
    requires events != []
    ensures MergeStatus(StatusOfGroup(events), e.status) == Join(events + [e])
  {
    HasSnoc(events, e, Failed);
    HasSnoc(events, e, WaitingUser);
    HasSnoc(events, e, Running);
    HasSnoc(events, e, Queued);
    if |events| == 1 {
      assert events[0].status == events[0].status;
      assert forall s :: Has(events, s) <==> events[0].status == s;
    }
  }

  /** Every step has the kind of its first event and the joined status of all of them. */
  lemma {:induction false} StepsAreFaithful(r: Rules, kept: seq<Event>)
    ensures forall k :: 0 <= k < |Group(r, kept)| ==> Faithful(r, Group(r, kept)[k])
  {
    if kept != [] {
      var steps := Group(r, Front(kept));
      StepsAreFaithful(r, Front(kept));
      if steps != [] {
        assert Faithful(r, steps[|steps| - 1]);
        JoinSnoc(Last(steps).events, Last(kept));
      }
    }
  }

  predicate Faithful(r: Rules, s: Step) {
    s.events != [] && s.kind == r.kind(s.events[0]) && s.status == StatusOfGroup(s.events)
  }

  lemma HasSettled(events: seq<Event>, s: Status)
    requires s != Running && s != Queued && s != Completed
    ensures Has(SettledEvents(events), s) <==> Has(events, s)
  {
    if Has(events, s) {
      var i :| 0 <= i < |events| && events[i].status == s;
      assert SettledEvents(events)[i].status == s;
    }
    if Has(SettledEvents(events), s) {
      var i :| 0 <= i < |events| && SettledEvents(events)[i].status == s;
      assert events[i].status == s;
    }
  }

  /** Closing off a step's events and closing off its joined status agree. */
  lemma SettlingCommutesWithJoin(events: seq<Event>)
    requires events != []
    ensures StatusOfGroup(SettledEvents(events)) == Settled(StatusOfGroup(events))
    ensures forall i :: 0 <= i < |events| ==> Settled(events[i].status) == SettledEvents(events)[i].status
  {
    HasSettled(events, Failed);
    HasSettled(events, WaitingUser);
    assert !Has(SettledEvents(events), Running) && !Has(SettledEvents(events), Queued);
  }

  // ----- the built narrative

  lemma OpensKeeps(steps: seq<Step>, i: int)
    requires i < |steps|
    ensures |Opens(steps, i)| == |steps|
    ensures forall k :: 0 <= k < |steps| ==> Opens(steps, i)[k].(defaultOpen := steps[k].defaultOpen) == steps[k]
  {
  }

  lemma AutoOpenedKeeps(steps: seq<Step>)
    ensures EventsOf(AutoOpened(steps)) == EventsOf(steps)
    ensures forall k :: 0 <= k < |steps| ==>
              AutoOpened(steps)[k].(defaultOpen := steps[k].defaultOpen) == steps[k]
  {
    var expanded := Opens(steps, LastIndex(IsOpenEnded(), steps));
    OpensKeeps(steps, LastIndex(IsOpenEnded(), steps));
    OpensKeeps(expanded, LastIndex(IsTrouble(), expanded));
  }

  /** The narrative shows every event the rules keep, once and in order, with the closing status rewrite
      applied to all of them exactly when the run is over. */
  lemma NarrativeShowsAll(r: Rules, events: seq<Event>)
    ensures var n := Build(r, events);
            Flatten(EventsOf(n.steps)) ==
            if n.status == InProgress then Filter(r.shown, events)
            else SettledEvents(Filter(r.shown, events))
  {
    var steps := AutoOpened(Group(r, Filter(r.shown, events)));
    GroupsFlattenBack(r, Filter(r.shown, events));
    AutoOpenedKeeps(Group(r, Filter(r.shown, events)));
    SettledFlatten(EventsOf(steps));
    assert EventsOf(Map((s: Step) => SettledStep(s), steps))
        == Map((g: seq<Event>) => SettledEvents(g), EventsOf(steps));
  }

  predicate Closed(s: Status) { s != Running && s != Queued }

  /** Nothing in the step is running or queued any more; its status is still the join of its events'; and a
      failure, wait or block of the step or of one of its events is neither lost nor invented. */
  ghost predicate ClosedOff(before: Step, after: Step) {
    && Closed(after.status)
    && after.kind == before.kind
    && after.events != []
    && after.status == StatusOfGroup(after.events)
    && after.status == (if Closed(before.status) then before.status else Completed)
    && |after.events| == |before.events|
    && forall i :: 0 <= i < |after.events| ==> EventClosedOff(before.events[i], after.events[i])
  }

  predicate EventClosedOff(before: Event, after: Event) {
    && Closed(after.status)
    && after == before.(status := after.status)
    && after.status == (if Closed(before.status) then before.status else Completed)
  }

  lemma SettledStepIsClosedOff(r: Rules, before: Step, shownAs: Step)
    requires Faithful(r, before) && shownAs.(defaultOpen := before.defaultOpen) == before
    ensures ClosedOff(before, SettledStep(shownAs))
  {
    SettlingCommutesWithJoin(before.events);
    forall i | 0 <= i < |before.events|
      ensures EventClosedOff(before.events[i], SettledStep(shownAs).events[i])
    {
    }
  }

  /** In the narrative of a run that is over, every step is closed off. */
  lemma FinishedRunIsSettled(r: Rules, events: seq<Event>)
    requires Build(r, events).status != InProgress
    ensures |Build(r, events).steps| == |Group(r, Filter(r.shown, events))|
    ensures forall k :: 0 <= k < |Build(r, events).steps| ==>
              ClosedOff(Group(r, Filter(r.shown, events))[k], Build(r, events).steps[k])
  {
    var before := Group(r, Filter(r.shown, events));
    AutoOpenedKeeps(before);
    StepsAreFaithful(r, Filter(r.shown, events));
    forall k | 0 <= k < |before| ensures ClosedOff(before[k], Build(r, events).steps[k]) {
      SettledStepIsClosedOff(r, before[k], AutoOpened(before)[k]);
    }
  }

  /** Rebuilding a narrative from the events in its own steps finds the same groups again, closed off or
      not, under the rules the source uses. */
  lemma RebuildingFindsTheSameGroups(t: Tables, events: seq<Event>)
    ensures var r := StudioRules(t);
            var groups := EventsOf(Build(r, events).steps);
            EventsOf(Group(r, Filter(r.shown, Flatten(groups)))) == groups
  {
    var r := StudioRules(t);
    var kept := Filter(r.shown, events);
    var groups := EventsOf(Group(r, kept));
    StudioRulesAreSettlingBlind(t);
    NarrativeShowsAll(r, events);
    AutoOpenedKeeps(Group(r, kept));
    FilterMembers(r.shown, events);
    FilterAll(r.shown, kept);
    if Build(r, events).status != InProgress {
      FilterMap(r.shown, (e: Event) => SettledEvent(e), kept);
      RegroupingReproducesBoundaries(r, kept);
      assert EventsOf(Build(r, events).steps) == Map((g: seq<Event>) => SettledEvents(g), groups);
    }
  }
}
