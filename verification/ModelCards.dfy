/** `toNarrativeEvents`: streamed model fragments coalesce into cards. The source keeps the open card in a
    variable that aliases the last element of its result and mutates it there; `CardStep` is one turn of
    its loop on values, and the method at the end does it on the heap. */
module ModelCards {
  import opened Sequences
  import opened Events
  import opened Text

  const WAITING := "等待模型响应..."

  /** The result so far, and whether its last element is a card still open for fragments. */
  datatype Cards = Cards(out: seq<Event>, open: bool) {
    ghost predicate Ok() { open ==> out != [] && Last(out).etype == ModelDelta }
  }

  predicate SameModel(card: Event, e: Event) { card.phase == e.phase && card.provider == e.provider }

  function Opened(e: Event): Event { e.(etype := ModelDelta, summary := Or(e.summary, WAITING)) }

  function Extended(card: Event, e: Event): Event {
    card.(content := Some(TextOf(card) + TextOf(e)), summary := Or(e.summary, card.summary),
          status := e.status, createdAt := e.createdAt)
  }

  function Closed(card: Event, e: Event): Event {
    card.(status := Completed, summary := Or(e.summary, card.summary), telemetry := e.telemetry)
  }

  function CardStep(st: Cards, e: Event): (r: Cards)
    requires st.Ok()
    ensures r.Ok()
  {
    match e.etype
    case ModelStart => Cards(st.out + [Opened(e)], true)
    case ModelDelta =>
      if st.open && SameModel(Last(st.out), e)
      then Cards(Front(st.out) + [Extended(Last(st.out), e)], true)
      else Cards(st.out + [e], true)
    case ModelEnd =>
      if st.open && SameModel(Last(st.out), e)
      then Cards(Front(st.out) + [Closed(Last(st.out), e)], false)
      else Cards(st.out, false)
    case _ => Cards(st.out + [e], false)
  }

  function CardRun(st: Cards, events: seq<Event>): (r: Cards)
    requires st.Ok()
    ensures r.Ok()
  {
    if events == [] then st else CardStep(CardRun(st, Front(events)), Last(events))
  }

  const NO_CARDS := Cards([], false)

  function NarrativeEvents(events: seq<Event>): seq<Event> { CardRun(NO_CARDS, events).out }

  lemma {:induction false} CardRunConcat(st: Cards, a: seq<Event>, b: seq<Event>)
    requires st.Ok()
    ensures CardRun(st, a + b) == CardRun(CardRun(st, a), b)
  {
    if b == [] {
      assert a + b == a;
    } else {
      assert Front(a + b) == a + Front(b) && Last(a + b) == Last(b);
      CardRunConcat(st, a, Front(b));
    }
  }

  lemma CardRunSnoc(events: seq<Event>, e: Event)
    ensures CardRun(NO_CARDS, events + [e]) == CardStep(CardRun(NO_CARDS, events), e)
  {
    Joins(events, e);
  }

  // ----- chunking

  lemma TwoFragmentsAreOne(st: Cards, e: Event, first: Option<string>, second: Option<string>)
    requires st.Ok() && e.etype == ModelDelta
    requires e.content == Some(TextOf(e.(content := first)) + TextOf(e.(content := second)))
    ensures CardStep(CardStep(st, e.(content := first)), e.(content := second)) == CardStep(st, e)
  {
    var a, b := e.(content := first), e.(content := second);
    if st.open && SameModel(Last(st.out), e) {
      var card := Last(st.out);
      assert (TextOf(card) + TextOf(a)) + TextOf(b) == TextOf(card) + (TextOf(a) + TextOf(b));
      assert Extended(Extended(card, a), b) == Extended(card, e);
      assert Front(Front(st.out) + [Extended(card, a)]) == Front(st.out);
    } else {
      assert Extended(a, b) == e;
      assert Front(st.out + [a]) == st.out;
    }
  }

  lemma CardRunOfTwo(before: seq<Event>, a: Event, b: Event)
    ensures CardRun(NO_CARDS, before + [a, b]) == CardStep(CardStep(CardRun(NO_CARDS, before), a), b)
  {
    var once := before + [a];
    CardRunSnoc(once, b);
    CardRunSnoc(before, a);
    assert before + [a, b] == once + [b];
  }

  /** One fragment or the same text in two: the transcript reads the same, whatever surrounds it. */
  lemma ChunkingInsensitive(before: seq<Event>, e: Event, first: Option<string>, second: Option<string>,
                            after: seq<Event>)
    requires e.etype == ModelDelta
    requires e.content == Some(TextOf(e.(content := first)) + TextOf(e.(content := second)))
    ensures NarrativeEvents(before + [e] + after)
         == NarrativeEvents(before + [e.(content := first), e.(content := second)] + after)
  {
    var a, b := e.(content := first), e.(content := second);
    TwoFragmentsAreOne(CardRun(NO_CARDS, before), e, first, second);
    CardRunSnoc(before, e);
    CardRunOfTwo(before, a, b);
    CardRunConcat(NO_CARDS, before + [e], after);
    CardRunConcat(NO_CARDS, before + [a, b], after);
  }

  /** One event adds at most one element, and otherwise touches at most the last, and that only when it is the
      card still open, and of the event's own model, to extend or close it. */
  predicate Local(st: Cards, e: Event, after: seq<Event>) {
    && |st.out| <= |after| <= |st.out| + 1
    && (forall i :: 0 <= i < |st.out| - 1 ==> after[i] == st.out[i])
    && (st.out <= after ||
        (st.open && st.out != [] && Last(st.out).etype == ModelDelta && SameModel(Last(st.out), e)
         && ((e.etype == ModelDelta && after == Front(st.out) + [Extended(Last(st.out), e)])
             || (e.etype == ModelEnd && after == Front(st.out) + [Closed(Last(st.out), e)]))))
  }

  lemma StepIsLocal(st: Cards, e: Event)
    requires st.Ok()
    ensures Local(st, e, CardStep(st, e).out)
  {
  }

  /** One more input event changes the output only locally. */
  lemma AppendIsLocal(events: seq<Event>, e: Event)
    ensures Local(CardRun(NO_CARDS, events), e, NarrativeEvents(events + [e]))
  {
    CardRunSnoc(events, e);
    StepIsLocal(CardRun(NO_CARDS, events), e);
  }

  // ----- conservation

  predicate IsFragment(e: Event) { e.etype == ModelStart || e.etype == ModelDelta }

  function NotModelTraffic(): Event -> bool {
    (e: Event) => !IsFragment(e) && e.etype != ModelEnd
  }

  /** The text of all fragments, in order. */
  function FragmentText(events: seq<Event>): string {
    if events == [] then ""
    else FragmentText(Front(events)) + if IsFragment(Last(events)) then TextOf(Last(events)) else ""
  }

  /** The index of the output card that event number i of the input went into. */
  function CardOf(events: seq<Event>, i: nat): int
    requires i < |events|
  {
    |NarrativeEvents(events[..i + 1])| - 1
  }

  /** The text of the fragments that went into card k, in order. */
  function OwnedText(events: seq<Event>, k: nat): string {
    if events == [] then ""
    else
      OwnedText(Front(events), k)
      + if IsFragment(Last(events)) && CardOf(events, |events| - 1) == k then TextOf(Last(events)) else ""
  }

  lemma OwnedGrows(before: seq<Event>, e: Event, k: nat)
    ensures OwnedText(before + [e], k) ==
            OwnedText(before, k)
            + if IsFragment(e) && |NarrativeEvents(before + [e])| - 1 == k then TextOf(e) else ""
  {
    Joins(before, e);
    var events := before + [e];
    assert events[..|events|] == events;
  }

  lemma {:induction false} NothingOwnedBeyond(events: seq<Event>, k: nat)
    requires k >= |NarrativeEvents(events)|
    ensures OwnedText(events, k) == ""
  {
    if events != [] {
      EndsWithLast(events);
      CardRunSnoc(Front(events), Last(events));
      NothingOwnedBeyond(Front(events), k);
      OwnedGrows(Front(events), Last(events), k);
    }
  }

  ghost predicate HoldsItsText(events: seq<Event>, k: nat) {
    k < |NarrativeEvents(events)| && NarrativeEvents(events)[k].etype == ModelDelta ==>
      TextOf(NarrativeEvents(events)[k]) == OwnedText(events, k)
  }

  /** One turn of the loop adds the fragment's text to the card it leaves last. */
  lemma StepAddsText(st: Cards, e: Event, k: nat, owned: string)
    requires st.Ok()
    requires k < |st.out| && st.out[k].etype == ModelDelta ==> TextOf(st.out[k]) == owned
    requires k >= |st.out| ==> owned == ""
    ensures var out := CardStep(st, e).out;
            k < |out| && out[k].etype == ModelDelta ==>
              TextOf(out[k]) == owned + if IsFragment(e) && |out| - 1 == k then TextOf(e) else ""
  {
  }

  lemma StillHoldsItsText(before: seq<Event>, e: Event, k: nat)
    requires HoldsItsText(before, k)
    ensures HoldsItsText(before + [e], k)
  {
    CardRunSnoc(before, e);
    OwnedGrows(before, e, k);
    if k >= |NarrativeEvents(before)| { NothingOwnedBeyond(before, k); }
    StepAddsText(CardRun(NO_CARDS, before), e, k, OwnedText(before, k));
  }

  /** Every output card is exactly the concatenation of the fragments that went into it. */
  lemma {:induction false} CardsHoldTheirFragments(events: seq<Event>, k: nat)
    requires k < |NarrativeEvents(events)| && NarrativeEvents(events)[k].etype == ModelDelta
    ensures TextOf(NarrativeEvents(events)[k]) == OwnedText(events, k)
  {
    TextStaysWithItsCard(events, k);
  }

  lemma {:induction false} TextStaysWithItsCard(events: seq<Event>, k: nat)
    ensures HoldsItsText(events, k)
  {
    if events != [] {
      EndsWithLast(events);
      TextStaysWithItsCard(Front(events), k);
      StillHoldsItsText(Front(events), Last(events), k);
    }
  }

  // ----- what a card says

  /** Whether e goes into card k, or closes it. */
  predicate TouchesAt(st: Cards, e: Event, k: nat)
    requires st.Ok()
  {
    if IsFragment(e) then |CardStep(st, e).out| - 1 == k
    else e.etype == ModelEnd && st.open && SameModel(Last(st.out), e) && |st.out| - 1 == k
  }

  /** The events that went into card k, in order, and the one that closed it. */
  function Touches(events: seq<Event>, k: nat): seq<Event> {
    if events == [] then []
    else
      var st := CardRun(NO_CARDS, Front(events));
      Touches(Front(events), k) + if TouchesAt(st, Last(events), k) then [Last(events)] else []
  }

  function SummariesOf(events: seq<Event>): seq<string> { Map((e: Event) => e.summary, events) }

  /** A card is its first fragment with its text, summary, status, time and telemetry brought up to date by
      those after it. Only its first can be a start, only its last an end. */
  ghost predicate CardReads(card: Event, touches: seq<Event>) {
    && OneOpeningAndClosing(touches)
    && card == touches[0].(etype := ModelDelta, content := card.content, summary := card.summary,
                           status := card.status, createdAt := card.createdAt, telemetry := card.telemetry)
    && ClosingReads(card, touches)
    && SummaryReads(card, touches)
  }

  predicate OneOpeningAndClosing(touches: seq<Event>) {
    && touches != [] && IsFragment(touches[0])
    && (forall i :: 0 < i < |touches| ==> touches[i].etype != ModelStart)
    && (forall i :: 0 <= i < |touches| - 1 ==> touches[i].etype != ModelEnd)
  }

  /** The status is "completed" and the telemetry the end's once there is an end; until then the status is the
      last fragment's. The time is the last fragment's either way. */
  predicate ClosingReads(card: Event, touches: seq<Event>)
    requires touches != []
  {
    var last := touches[|touches| - 1];
    if last.etype == ModelEnd then
      && card.status == Completed && card.telemetry == last.telemetry
      && |touches| > 1 && card.createdAt == touches[|touches| - 2].createdAt
    else card.status == last.status && card.telemetry == touches[0].telemetry && card.createdAt == last.createdAt
  }

  /** The summary is the last one given; if none is, a card opened by a start says it is waiting. */
  ghost predicate SummaryReads(card: Event, touches: seq<Event>)
    requires touches != []
  {
    if forall i :: 0 <= i < |touches| ==> touches[i].summary == ""
    then card.summary == if touches[0].etype == ModelStart then "等待模型响应..." else ""
    else IsLastNonEmpty(SummariesOf(touches), card.summary)
  }

  lemma OpenedReads(e: Event)
    requires IsFragment(e)
    ensures CardReads(if e.etype == ModelStart then Opened(e) else e, [e])
  {
    assert SummariesOf([e])[0] == e.summary;
    assert [e][0] == e;
  }

  lemma SummaryGrows(card: Event, card': Event, touches: seq<Event>, e: Event)
    requires touches != [] && SummaryReads(card, touches) && card'.summary == Or(e.summary, card.summary)
    ensures SummaryReads(card', touches + [e])
  {
    var more := touches + [e];
    assert more[|touches|] == e && more[0] == touches[0];
    assert SummariesOf(more) == SummariesOf(touches) + [e.summary];
    if forall i :: 0 <= i < |touches| ==> touches[i].summary == "" {
      if e.summary != "" { assert SummariesOf(more)[|touches|] == card'.summary; }
    } else {
      LastNonEmptySnoc(SummariesOf(touches), card.summary, e.summary);
      var i :| 0 <= i < |touches| && touches[i].summary != "";
      assert more[i].summary != "";
    }
  }

  lemma OneOpeningGrows(touches: seq<Event>, e: Event)
    requires OneOpeningAndClosing(touches) && touches[|touches| - 1].etype != ModelEnd && e.etype != ModelStart
    ensures OneOpeningAndClosing(touches + [e]) && (touches + [e])[0] == touches[0] && (touches + [e])[|touches|] == e
  {
  }

  lemma ExtendedReads(card: Event, touches: seq<Event>, e: Event)
    requires CardReads(card, touches) && touches[|touches| - 1].etype != ModelEnd
    requires e.etype == ModelDelta
    ensures CardReads(Extended(card, e), touches + [e])
  {
    OneOpeningGrows(touches, e);
    SummaryGrows(card, Extended(card, e), touches, e);
  }

  lemma ClosedReads(card: Event, touches: seq<Event>, e: Event)
    requires CardReads(card, touches) && touches[|touches| - 1].etype != ModelEnd
    requires e.etype == ModelEnd
    ensures CardReads(Closed(card, e), touches + [e])
  {
    OneOpeningGrows(touches, e);
    SummaryGrows(card, Closed(card, e), touches, e);
  }

  ghost predicate CardInOrder(st: Cards, k: nat, touches: seq<Event>) {
    && (k >= |st.out| ==> touches == [])
    && (k < |st.out| && st.out[k].etype == ModelDelta ==> CardReads(st.out[k], touches))
    && (st.open && k == |st.out| - 1 ==> touches != [] && touches[|touches| - 1].etype != ModelEnd)
  }

  lemma OpenCardReads(st: Cards, e: Event, touches: seq<Event>)
    requires st.Ok() && st.open && SameModel(Last(st.out), e) && (e.etype == ModelDelta || e.etype == ModelEnd)
    requires CardInOrder(st, |st.out| - 1, touches)
    ensures CardInOrder(CardStep(st, e), |st.out| - 1, touches + [e])
  {
    if e.etype == ModelDelta {
      ExtendedReads(Last(st.out), touches, e);
    } else {
      ClosedReads(Last(st.out), touches, e);
    }
  }

  lemma StepReadsCard(st: Cards, e: Event, k: nat, touches: seq<Event>)
    requires st.Ok() && CardInOrder(st, k, touches)
    ensures CardInOrder(CardStep(st, e), k, touches + if TouchesAt(st, e, k) then [e] else [])
  {
    assert touches + [] == touches;
    if TouchesAt(st, e, k) {
      if st.open && SameModel(Last(st.out), e) && e.etype != ModelStart {
        OpenCardReads(st, e, touches);
      } else {
        OpenedReads(e);
        assert touches == [] && [] + [e] == [e];
      }
    }
  }

  lemma TouchesGrow(events: seq<Event>, e: Event, k: nat)
    ensures Touches(events + [e], k) ==
            Touches(events, k) + if TouchesAt(CardRun(NO_CARDS, events), e, k) then [e] else []
  {
    Joins(events, e);
  }

  lemma {:induction false} CardStaysInOrder(events: seq<Event>, k: nat)
    ensures CardInOrder(CardRun(NO_CARDS, events), k, Touches(events, k))
  {
    if events != [] {
      var front, e := Front(events), Last(events);
      EndsWithLast(events);
      CardStaysInOrder(front, k);
      CardRunSnoc(front, e);
      TouchesGrow(front, e, k);
      StepReadsCard(CardRun(NO_CARDS, front), e, k, Touches(front, k));
    }
  }

  /** Every card reads as its fragments, and the end that closed it, say. */
  lemma CardsRead(events: seq<Event>, k: nat)
    requires k < |NarrativeEvents(events)| && NarrativeEvents(events)[k].etype == ModelDelta
    ensures CardReads(NarrativeEvents(events)[k], Touches(events, k))
  {
    CardStaysInOrder(events, k);
  }

  /** A fragment goes into a card of its own phase and provider. */
  lemma {:induction false} CardsDoNotMix(events: seq<Event>, i: nat)
    requires i < |events| && IsFragment(events[i])
    ensures var k := CardOf(events, i);
            && 0 <= k < |NarrativeEvents(events)|
            && NarrativeEvents(events)[k].etype == ModelDelta
            && SameModel(NarrativeEvents(events)[k], events[i])
    decreases |events|
  {
    if i < |events| - 1 {
      CardsDoNotMix(Front(events), i);
      assert Front(events)[..i + 1] == events[..i + 1];
    } else {
      assert events[..i + 1] == events;
    }
  }

  function PlainPart(e: Event): seq<Event> { if NotModelTraffic()(e) then [e] else [] }

  function FragmentPart(e: Event): string { if IsFragment(e) then TextOf(e) else "" }

  lemma SnocConserves(out: seq<Event>, e: Event)
    ensures FragmentText(out + [e]) == FragmentText(out) + FragmentPart(e)
    ensures Filter(NotModelTraffic(), out + [e]) == Filter(NotModelTraffic(), out) + PlainPart(e)
  {
    assert Front(out + [e]) == out;
  }

  lemma LastReplacedConserves(out: seq<Event>, card: Event, text: string)
    requires out != [] && Last(out).etype == ModelDelta && card.etype == ModelDelta
    requires TextOf(card) == TextOf(Last(out)) + text
    ensures FragmentText(Front(out) + [card]) == FragmentText(out) + text
    ensures Filter(NotModelTraffic(), Front(out) + [card]) == Filter(NotModelTraffic(), out)
  {
    EndsWithLast(out);
    SnocConserves(Front(out), Last(out));
    SnocConserves(Front(out), card);
  }

  lemma OpenCardConserves(st: Cards, e: Event)
    requires st.Ok() && st.open && SameModel(Last(st.out), e) && (e.etype == ModelDelta || e.etype == ModelEnd)
    ensures FragmentText(CardStep(st, e).out) == FragmentText(st.out) + FragmentPart(e)
    ensures Filter(NotModelTraffic(), CardStep(st, e).out) == Filter(NotModelTraffic(), st.out)
  {
    if e.etype == ModelDelta {
      LastReplacedConserves(st.out, Extended(Last(st.out), e), TextOf(e));
    } else {
      LastReplacedConserves(st.out, Closed(Last(st.out), e), "");
    }
  }

  lemma StepConserves(st: Cards, e: Event)
    requires st.Ok()
    ensures FragmentText(CardStep(st, e).out) == FragmentText(st.out) + FragmentPart(e)
    ensures Filter(NotModelTraffic(), CardStep(st, e).out)
         == Filter(NotModelTraffic(), st.out) + PlainPart(e)
  {
    if st.open && SameModel(Last(st.out), e) && (e.etype == ModelDelta || e.etype == ModelEnd) {
      OpenCardConserves(st, e);
    } else if e.etype == ModelStart {
      SnocConserves(st.out, Opened(e));
    } else if e.etype != ModelEnd {
      SnocConserves(st.out, e);
    }
  }

  /** All model text survives, in order; everything that is not model traffic survives unchanged, in
      order. */
  lemma {:induction false} CoalescingConserves(events: seq<Event>)
    ensures FragmentText(NarrativeEvents(events)) == FragmentText(events)
    ensures Filter(NotModelTraffic(), NarrativeEvents(events)) == Filter(NotModelTraffic(), events)
  {
    if events != [] {
      CoalescingConserves(Front(events));
      StepConserves(CardRun(NO_CARDS, Front(events)), Last(events));
    }
  }

  /** The output holds no start or end marker, so what is not plain is a card. */
  lemma {:induction false} OnlyCardsAndPlain(events: seq<Event>)
    ensures forall e :: e in NarrativeEvents(events) ==> e.etype == ModelDelta || NotModelTraffic()(e)
  {
    if events != [] {
      OnlyCardsAndPlain(Front(events));
    }
  }

  // ----- the loop, on the heap

  method ExtendCard(card: EventCell, event: Event)
    modifies card
    ensures card.value == Extended(old(card.value), event)
  {
    card.value := card.value.(content := Some(TextOf(card.value) + TextOf(event)));
    card.value := card.value.(summary := Or(event.summary, card.value.summary));
    card.value := card.value.(status := event.status);
    card.value := card.value.(createdAt := event.createdAt);
  }

  method CloseCard(card: EventCell, event: Event)
    modifies card
    ensures card.value == Closed(old(card.value), event)
  {
    card.value := card.value.(status := Completed);
    card.value := card.value.(summary := Or(event.summary, card.value.summary));
    card.value := card.value.(telemetry := event.telemetry);
  }

  /** The heap shows the cards of st: `active` is null or is the last cell of the result, and only that. */
  ghost predicate Shows(result: seq<EventCell>, active: EventCell?, st: Cards)
    reads result
  {
    && |result| == |st.out|
    && (forall k :: 0 <= k < |result| ==> result[k].value == st.out[k])
    && (st.open <==> active != null)
    && (active != null ==> result != [] && result[|result| - 1] == active)
    && (active != null ==> forall k :: 0 <= k < |result| - 1 ==> result[k] != active)
  }

  /** A fragment extends the open card of its own model, and opens a card otherwise. */
  method TakeFragment(result: seq<EventCell>, active: EventCell?, event: Event, ghost st: Cards)
    returns (result': seq<EventCell>, active': EventCell)
    requires st.Ok() && Shows(result, active, st) && event.etype == ModelDelta
    modifies if active == null then {} else {active}
    ensures Shows(result', active', CardStep(st, event))
    ensures active' == active || fresh(active')
    ensures result' == result || (|result'| == |result| + 1 && result'[..|result|] == result && fresh(Last(result')))
  {
    if active != null && SameModel(active.value, event) {
      ExtendCard(active, event);
      result', active' := result, active;
    } else {
      active' := new EventCell(event);
      result' := result + [active'];
    }
  }

  /** One turn of the loop. */
  method TakeEvent(result: seq<EventCell>, active: EventCell?, cell: EventCell, ghost st: Cards)
    returns (result': seq<EventCell>, active': EventCell?)
    requires st.Ok() && Shows(result, active, st) && cell != active
    modifies if active == null then {} else {active}
    ensures Shows(result', active', CardStep(st, old(cell.value)))
    ensures active' == null || active' == active || fresh(active')
    ensures result' == result || (|result'| == |result| + 1 && result'[..|result|] == result
                                  && (fresh(Last(result')) || Last(result') == cell))
  {
    var event := cell.value;
    result', active' := result, active;
    if event.etype == ModelStart {
      active' := new EventCell(Opened(event));
      result' := result + [active'];
    } else if event.etype == ModelDelta {
      result', active' := TakeFragment(result, active, event, st);
    } else if event.etype == ModelEnd {
      if active != null && SameModel(active.value, event) {
        CloseCard(active, event);
      }
      active' := null;
    } else {
      active' := null;
      result' := result + [cell];
    }
  }

  /** No cell that existed before is written: the method has no `modifies` clause, and every cell of the
      result is either new or one of the input cells. */
  method ToNarrativeEvents(events: seq<EventCell>) returns (result: seq<EventCell>)
    ensures Values(result) == NarrativeEvents(Values(events))
    ensures forall c :: c in result ==> fresh(c) || c in events
  {
    result := [];
    var activeModel: EventCell? := null;
    ghost var vs, st := Values(events), NO_CARDS;
    for i := 0 to |events|
      invariant st == CardRun(NO_CARDS, vs[..i])
      invariant Shows(result, activeModel, st)
      invariant activeModel != null ==> fresh(activeModel)
      invariant forall k :: 0 <= k < |result| ==> fresh(result[k]) || result[k] in events
    {
      assert Front(vs[..i + 1]) == vs[..i] && Last(vs[..i + 1]) == events[i].value;
      result, activeModel := TakeEvent(result, activeModel, events[i], st);
      st := CardStep(st, vs[i]);
    }
    assert vs[..|vs|] == vs;
  }
}
