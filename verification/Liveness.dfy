/** `isSessionLive`: whether the latest turn of an append-only transcript is still active. `time` stands for
    `eventTime`; an event's `seqNo` is its `seq ?? sequence` when that is a number. */
module Liveness {
  import opened Sequences
  import opened Events
  import opened Narrative
  import opened NarrativeReading

  type Clock = Event -> int

  predicate IsTerminal(e: Event) {
    e.status == Completed || e.status == Failed || e.etype in {ToolEnd, FinalAnswer, ErrorEvent}
  }

  predicate Decisive(e: Event) { IsActive(e.status) || IsTerminal(e) }

  function LaterThan(time: Clock, cutoff: int): Event -> bool { (e: Event) => time(e) > cutoff }

  /** The events after the last final answer or error. A cutoff of 0 is falsy, and cuts nothing off. */
  function LiveEvents(time: Clock, events: seq<Event>): seq<Event> {
    var i := LastIndex(IsEnding(), events);
    if i >= 0 && time(events[i]) != 0 then Filter(LaterThan(time, time(events[i])), events) else events
  }

  datatype Rank = Rank(time: int, order: int)

  function RankAt(time: Clock, live: seq<Event>, i: nat): Rank
    requires i < |live|
  {
    Rank(time(live[i]), if live[i].seqNo.Some? then live[i].seqNo.value else i)
  }

  predicate AtMost(a: Rank, b: Rank) { a.time < b.time || (a.time == b.time && a.order <= b.order) }

  /** Position w holds the decisive event of greatest rank, the latest arrival among equals. */
  ghost predicate Decides(time: Clock, live: seq<Event>, w: int) {
    && 0 <= w < |live|
    && Decisive(live[w])
    && forall i :: 0 <= i < |live| && Decisive(live[i]) ==>
         && AtMost(RankAt(time, live, i), RankAt(time, live, w))
         && (w < i ==> !AtMost(RankAt(time, live, w), RankAt(time, live, i)))
  }

  /** The verdict: the deciding event, if there is one, is active. */
  ghost predicate SessionLive(time: Clock, events: seq<Event>) {
    exists w :: Decides(time, LiveEvents(time, events), w) && IsActive(LiveEvents(time, events)[w].status)
  }

  /** Among the first n live events. */
  ghost predicate Leads(time: Clock, live: seq<Event>, n: nat, w: int)
    requires n <= |live|
  {
    && 0 <= w < n
    && Decisive(live[w])
    && forall i :: 0 <= i < n && Decisive(live[i]) ==>
         && AtMost(RankAt(time, live, i), RankAt(time, live, w))
         && (w < i ==> !AtMost(RankAt(time, live, w), RankAt(time, live, i)))
  }

  lemma LeadChanges(time: Clock, live: seq<Event>, n: nat, w: int)
    requires n < |live| && Leads(time, live, n, w)
    ensures !Decisive(live[n]) ==> Leads(time, live, n + 1, w)
    ensures Decisive(live[n]) && !AtMost(RankAt(time, live, w), RankAt(time, live, n)) ==>
              Leads(time, live, n + 1, w)
    ensures Decisive(live[n]) && AtMost(RankAt(time, live, w), RankAt(time, live, n)) ==>
              Leads(time, live, n + 1, n)
  {
  }

  method IsSessionLive(time: Clock, events: seq<Event>) returns (verdict: bool)
    ensures verdict <==> SessionLive(time, events)
  {
    var live := LiveEvents(time, events);
    if |live| == 0 { return false; }
    verdict := false;
    var best: Option<Rank> := None;
    ghost var w := -1;
    for i := 0 to |live|
      invariant best.None? ==> !verdict && forall k :: 0 <= k < i ==> !Decisive(live[k])
      invariant best.Some? ==> Leads(time, live, i, w)
      invariant best.Some? ==> best.value == RankAt(time, live, w) && verdict == IsActive(live[w].status)
    {
      if best.Some? { LeadChanges(time, live, i, w); }
      if !Decisive(live[i]) { continue; }
      var current := RankAt(time, live, i);
      if best.None? || AtMost(best.value, current) {
        best, verdict, w := Some(current), IsActive(live[i].status), i;
      }
    }
    if best.Some? {
      assert Decides(time, live, w);
      forall v | Decides(time, live, v) ensures v == w {
        OneDecides(time, live, v, w);
      }
    }
  }

  lemma OneDecides(time: Clock, live: seq<Event>, v: int, w: int)
    requires Decides(time, live, v) && Decides(time, live, w)
    ensures v == w
  {
  }

  /** Appending a non-active terminal event of greatest rank always ends the session: no decisive event of
      the transcript is later, and, if it is among the events it is judged with, none of them outranks it. */
  lemma TerminalEventEnds(time: Clock, events: seq<Event>, e: Event)
    requires IsTerminal(e) && !IsActive(e.status)
    requires forall x :: x in events && Decisive(x) ==> time(x) <= time(e)
    requires var live := LiveEvents(time, events + [e]);
             live != [] && Last(live) == e ==>
               forall i :: 0 <= i < |live| && Decisive(live[i]) ==>
                 AtMost(RankAt(time, live, i), RankAt(time, live, |live| - 1))
    ensures !SessionLive(time, events + [e])
  {
    var all := events + [e];
    var live := LiveEvents(time, all);
    var cut := LastIndex(IsEnding(), all);
    assert Front(all) == events && Last(all) == e;
    forall w | Decides(time, live, w) ensures !IsActive(live[w].status) {
      if cut >= 0 && time(all[cut]) != 0 {
        FilterMembers(LaterThan(time, time(all[cut])), all);
      }
      assert live[w] in live && live[w] in all;
      assert time(live[w]) <= time(e);
    }
  }

  lemma SameMembers<T>(a: seq<T>, b: seq<T>)
    requires multiset(a) == multiset(b)
    ensures forall x :: x in a <==> x in b
  {
    assert forall x :: x in a <==> x in multiset(a);
    assert forall x :: x in b <==> x in multiset(b);
  }

  /** With no final answer or error in the transcript, and decisive events numbered and distinct in
      (time, number), the verdict does not depend on the order of arrival. */
  lemma VerdictIgnoresArrivalOrder(time: Clock, a: seq<Event>, b: seq<Event>)
    requires multiset(a) == multiset(b)
    requires forall x :: x in a ==> !IsEnding()(x)
    requires forall x :: x in a && Decisive(x) ==> x.seqNo.Some?
    requires forall x, y :: x in a && y in a && Decisive(x) && Decisive(y) && x != y ==>
               time(x) != time(y) || x.seqNo != y.seqNo
    ensures SessionLive(time, a) <==> SessionLive(time, b)
  {
    SameMembers(a, b);
    LiveMovesAcross(time, a, b);
    LiveMovesAcross(time, b, a);
  }

  lemma LiveMovesAcross(time: Clock, a: seq<Event>, b: seq<Event>)
    requires forall x :: x in a <==> x in b
    requires forall x :: x in a ==> !IsEnding()(x)
    requires forall x :: x in a && Decisive(x) ==> x.seqNo.Some?
    requires forall x, y :: x in a && y in a && Decisive(x) && Decisive(y) && x != y ==>
               time(x) != time(y) || x.seqNo != y.seqNo
    ensures SessionLive(time, a) ==> SessionLive(time, b)
  {
    assert LiveEvents(time, a) == a && LiveEvents(time, b) == b;
    if SessionLive(time, a) {
      var w :| Decides(time, a, w) && IsActive(a[w].status);
      var v := LastIndex((x: Event) => x == a[w], b);
      assert a[w] in b;
      assert v >= 0;
      forall i | 0 <= i < |b| && Decisive(b[i])
        ensures AtMost(RankAt(time, b, i), RankAt(time, b, v))
        ensures v < i ==> !AtMost(RankAt(time, b, v), RankAt(time, b, i))
      {
        assert b[i] in a;
        var k :| 0 <= k < |a| && a[k] == b[i];
        assert AtMost(RankAt(time, a, k), RankAt(time, a, w));
      }
      assert Decides(time, b, v);
    }
  }

  // ----- the verdict, read off the transcript

  predicate IsOn(e: Event) { e.status == Running || e.status == Queued || e.status == WaitingUser }

  predicate Counts(e: Event) {
    || IsOn(e) || e.status == Completed || e.status == Failed
    || e.etype == ToolEnd || e.etype == FinalAnswer || e.etype == ErrorEvent
  }

  /** Event i is later than the last final answer or error of the transcript; one at time 0 bounds nothing. */
  ghost predicate InPlay(time: Clock, events: seq<Event>, i: nat) {
    && i < |events|
    && forall c: nat :: EndsTheRun(events, c) && time(events[c]) != 0 ==> time(events[i]) > time(events[c])
  }

  /** Whether a, which arrived earlier than b or not, ranks below it. */
  predicate Below(time: Clock, a: Event, b: Event, earlier: bool) {
    || time(a) < time(b)
    || (time(a) == time(b) && a.seqNo.Some? && b.seqNo.Some?
        && (a.seqNo.value < b.seqNo.value || (a.seqNo == b.seqNo && earlier)))
  }

  /** Event i counts, is in play, and outranks every other event that does and is. */
  ghost predicate Wins(time: Clock, events: seq<Event>, i: nat) {
    && InPlay(time, events, i) && Counts(events[i])
    && forall j: nat :: j != i && InPlay(time, events, j) && Counts(events[j]) ==>
                          Below(time, events[j], events[i], j < i)
  }

  ghost predicate DecisiveNumbered(events: seq<Event>) {
    forall i :: 0 <= i < |events| && Counts(events[i]) ==> events[i].seqNo.Some?
  }

  function Bound(time: Clock, events: seq<Event>): Option<int> {
    var i := LastIndex(IsEnding(), events);
    if i >= 0 && time(events[i]) != 0 then Some(time(events[i])) else None
  }

  function Past(time: Clock, bound: Option<int>): Event -> bool {
    (e: Event) => bound.None? || time(e) > bound.value
  }

  lemma LiveAreThosePast(time: Clock, events: seq<Event>)
    ensures LiveEvents(time, events) == Filter(Past(time, Bound(time, events)), events)
  {
    var bound := Bound(time, events);
    if bound.None? {
      FilterAll(Past(time, bound), events);
    } else {
      SameSelection(LaterThan(time, bound.value), Past(time, bound), events);
    }
  }

  lemma {:induction false} SameSelection(p: Event -> bool, q: Event -> bool, events: seq<Event>)
    requires forall e :: p(e) == q(e)
    ensures Filter(p, events) == Filter(q, events)
  {
    if events != [] { SameSelection(p, q, Front(events)); }
  }

  lemma PastIsInPlay(time: Clock, events: seq<Event>, i: nat)
    requires i < |events|
    ensures Past(time, Bound(time, events))(events[i]) <==> InPlay(time, events, i)
  {
    var w := LastIndex(IsEnding(), events);
    EndingFound(events);
    if w >= 0 {
      forall c: nat | EndsTheRun(events, c) ensures c == w { OneEnding(events, c, w); }
    }
  }

  lemma DecisiveCounts(e: Event)
    ensures Decisive(e) <==> Counts(e)
    ensures IsActive(e.status) <==> IsOn(e)
  {
  }

  /** Between numbered events, the ranks say who yields to whom. */
  lemma RankTells(time: Clock, live: seq<Event>, k: nat, w: nat)
    requires k < |live| && w < |live| && k != w && live[k].seqNo.Some? && live[w].seqNo.Some?
    ensures Below(time, live[k], live[w], k < w) <==>
            && AtMost(RankAt(time, live, k), RankAt(time, live, w))
            && (w < k ==> !AtMost(RankAt(time, live, w), RankAt(time, live, k)))
  {
  }

  /** The live events are those in play, in the order in which they stand in the transcript. */
  ghost predicate Embeds(time: Clock, events: seq<Event>, live: seq<Event>, at: seq<nat>) {
    && |at| == |live|
    && (forall k :: 0 <= k < |at| ==> InPlay(time, events, at[k]) && events[at[k]] == live[k])
    && (forall k, l :: 0 <= k < l < |at| ==> at[k] < at[l])
    && (forall i: nat :: InPlay(time, events, i) ==> i in at)
  }

  lemma LiveEmbed(time: Clock, events: seq<Event>) returns (at: seq<nat>)
    ensures Embeds(time, events, LiveEvents(time, events), at)
  {
    var p := Past(time, Bound(time, events));
    at := Positions(p, events);
    PositionsLocate(p, events);
    LiveAreThosePast(time, events);
    forall k | 0 <= k < |at| ensures InPlay(time, events, at[k]) { PastIsInPlay(time, events, at[k]); }
    forall i: nat | InPlay(time, events, i) ensures i in at { PastIsInPlay(time, events, i); }
  }

  /** The deciding event of the live ones wins in the transcript ... */
  lemma DeciderWins(time: Clock, events: seq<Event>, live: seq<Event>, at: seq<nat>, w: nat)
    requires DecisiveNumbered(events) && Embeds(time, events, live, at) && Decides(time, live, w)
    ensures Wins(time, events, at[w])
  {
    DecisiveCounts(live[w]);
    forall j: nat | j != at[w] && InPlay(time, events, j) && Counts(events[j])
      ensures Below(time, events[j], events[at[w]], j < at[w])
    {
      var k :| 0 <= k < |at| && at[k] == j;
      DecisiveCounts(live[k]);
      RankTells(time, live, k, w);
    }
  }

  lemma LoserYields(time: Clock, events: seq<Event>, live: seq<Event>, at: seq<nat>, w: nat, k: nat)
    requires DecisiveNumbered(events) && Embeds(time, events, live, at) && w < |at| && Wins(time, events, at[w])
    requires k < |live| && Decisive(live[k])
    ensures AtMost(RankAt(time, live, k), RankAt(time, live, w))
    ensures w < k ==> !AtMost(RankAt(time, live, w), RankAt(time, live, k))
  {
    if k != w {
      DecisiveCounts(live[k]);
      assert at[k] != at[w];
      assert Below(time, events[at[k]], events[at[w]], at[k] < at[w]);
      RankTells(time, live, k, w);
    }
  }

  /** ... and what wins in the transcript decides among the live events. */
  lemma WinnerDecides(time: Clock, events: seq<Event>, live: seq<Event>, at: seq<nat>, w: nat)
    requires DecisiveNumbered(events) && Embeds(time, events, live, at) && w < |at| && Wins(time, events, at[w])
    ensures Decides(time, live, w)
  {
    DecisiveCounts(live[w]);
    forall k | 0 <= k < |live| && Decisive(live[k])
      ensures AtMost(RankAt(time, live, k), RankAt(time, live, w))
      ensures w < k ==> !AtMost(RankAt(time, live, w), RankAt(time, live, k))
    {
      LoserYields(time, events, live, at, w, k);
    }
  }

  /** The session is live exactly when some active event later than the last final answer or error outranks
      every other decisive event later than it, by time, then number, then arrival. */
  lemma LiveIff(time: Clock, events: seq<Event>)
    requires DecisiveNumbered(events)
    ensures SessionLive(time, events) <==> exists i: nat :: Wins(time, events, i) && IsOn(events[i])
  {
    var live := LiveEvents(time, events);
    var at := LiveEmbed(time, events);
    if SessionLive(time, events) {
      var w: int :| Decides(time, live, w) && IsActive(live[w].status);
      DeciderWins(time, events, live, at, w);
      assert Wins(time, events, at[w]) && IsOn(events[at[w]]);
    }
    if i: nat :| Wins(time, events, i) && IsOn(events[i]) {
      assert i in at;
      var w :| 0 <= w < |at| && at[w] == i;
      WinnerDecides(time, events, live, at, w);
      DecisiveCounts(live[w]);
    }
  }

  /** An active event later than everything before it makes the session live, numbered or not, whatever ended
      earlier. */
  lemma LaterActiveRevives(time: Clock, events: seq<Event>, e: Event)
    requires IsOn(e) && e.etype != FinalAnswer && e.etype != ErrorEvent
    requires forall x :: x in events ==> time(x) < time(e)
    ensures SessionLive(time, events + [e])
  {
    var all, bound := events + [e], Bound(time, events + [e]);
    LiveAreThosePast(time, all);
    FilterSnoc(Past(time, bound), events, e);
    PastIsInPlay(time, all, |events|);
    assert InPlay(time, all, |events|) by {
      forall c: nat | EndsTheRun(all, c) ensures time(all[c]) < time(e) { assert c < |events| && all[c] in events; }
      assert all[|events|] == e;
    }
    var live := LiveEvents(time, all);
    FilterMembers(Past(time, bound), events);
    forall k | 0 <= k < |live| - 1 ensures time(live[k]) < time(e) {
      assert live[k] in Filter(Past(time, bound), events);
    }
    DecisiveCounts(e);
    assert Decides(time, live, |live| - 1);
  }
}
