/** The handlers of `subscribeToEvents` as the source writes them: closure variables updated in place.
    Each method is proved to take the view of those variables where the function of the same name in
    module Delivery takes it. */
module SubscriptionHandlers {
  import opened Sequences
  import opened Events
  import opened Delivery

  class Subscription {
    const available: bool
    var stopped: bool
    var pollTimer: Timer
    var reconnectTimer: Timer
    var streamOpen: bool
    var sseOk: bool
    var pollFailures: nat
    var reconnectAttempts: nat
    var lastStatus: Option<Connectivity>
    var seen: set<string>
    var cursor: int
    var batches: seq<seq<Event>>
    var reports: seq<Connectivity>

    function View(): ClientState
      reads this
    {
      ClientState(stopped, pollTimer, reconnectTimer, streamOpen, sseOk, pollFailures,
                  reconnectAttempts, lastStatus, seen, cursor, batches, reports)
    }

    constructor (available: bool)
      ensures this.available == available
      ensures View() == Delivery.Subscribe(available)
    {
      this.available := available;
      stopped, sseOk, streamOpen := false, false, false;
      pollTimer, reconnectTimer := NoTimer, NoTimer;
      pollFailures, reconnectAttempts := 0, 0;
      lastStatus, seen, cursor, batches, reports := None, {}, -1, [], [];
      new;
      if available {
        OpenStream();
        StartPoll(8000);
      } else {
        StartPoll(1500);
      }
    }

    method SetStatus(next: Connectivity)
      modifies this
      ensures View() == Delivery.SetStatus(old(View()), next)
    {
      if stopped || lastStatus == Some(next) { return; }
      lastStatus := Some(next);
      reports := reports + [next];
    }

    method ComputeStatus()
      modifies this
      ensures View() == Delivery.ComputeStatus(old(View()))
    {
      if sseOk {
        SetStatus(Live);
      } else if pollFailures >= 2 {
        SetStatus(Offline);
      } else {
        SetStatus(Reconnecting);
      }
    }

    /** The events whose ids are not in `seen`, as it is before any of them is added. */
    method SelectUnseen(events: seq<Event>) returns (unseen: seq<Event>)
      ensures unseen == Unseen(seen, events)
    {
      unseen := [];
      for i := 0 to |events|
        invariant unseen == Unseen(seen, events[..i])
      {
        TakeOneMore(events, i);
        FilterSnoc(NotIn(seen), events[..i], events[i]);
        if events[i].eventId !in seen { unseen := unseen + [events[i]]; }
      }
      assert events[..|events|] == events;
    }

    method MarkSeen(events: seq<Event>)
      modifies this
      ensures View() == old(View()).(seen := old(seen) + Ids(events))
    {
      for i := 0 to |events|
        invariant View() == old(View()).(seen := old(seen) + Ids(events[..i]))
      {
        TakeOneMore(events, i);
        seen := seen + {events[i].eventId};
      }
      assert events[..|events|] == events;
    }

    method AdvanceCursor(events: seq<Event>)
      modifies this
      ensures View() == old(View()).(cursor := Advance(old(cursor), events))
    {
      for i := 0 to |events|
        invariant View() == old(View()).(cursor := Advance(old(cursor), events[..i]))
      {
        TakeOneMore(events, i);
        Joins(events[..i], events[i]);
        if events[i].seqNo.Some? && events[i].seqNo.value > cursor {
          cursor := events[i].seqNo.value;
        }
      }
      assert events[..|events|] == events;
    }

    method AddFresh(events: seq<Event>)
      modifies this
      ensures View() == Delivery.AddFresh(old(View()), events)
    {
      var unseen := SelectUnseen(events);
      MarkSeen(unseen);
      AdvanceCursor(events);
      if |unseen| > 0 {
        batches := batches + [unseen];
      }
    }

    method StartPoll(interval: int)
      modifies this
      ensures View() == Delivery.StartPoll(old(View()), interval)
    {
      if pollTimer != NoTimer { return; }
      pollTimer := Armed(interval);
    }

    method OpenStream()
      modifies this
      ensures View() == Delivery.OpenStream(old(View()), available)
    {
      if stopped || !available { return; }
      streamOpen := true;
    }

    method OnOpen()
      modifies this
      ensures View() == Delivery.OnOpen(old(View()))
    {
      sseOk := true;
      reconnectAttempts := 0;
      ComputeStatus();
    }

    method OnMessage(line: Line)
      modifies this
      ensures View() == Delivery.OnMessage(old(View()), line)
    {
      if line.Ping? { return; }
      sseOk := true;
      if line.Parsed? {
        AddFresh([line.event]);
      }
      ComputeStatus();
    }

    method OnError(closed: bool)
      modifies this
      ensures View() == Delivery.OnError(old(View()), closed)
    {
      sseOk := false;
      ComputeStatus();
      if streamOpen && closed {
        streamOpen := false;
        if stopped || reconnectTimer != NoTimer { return; }
        reconnectTimer := Armed(Backoff(reconnectAttempts));
        reconnectAttempts := reconnectAttempts + 1;
      }
    }

    method OnReconnectTimer()
      modifies this
      ensures View() == Delivery.OnReconnectTimer(old(View()), available)
    {
      reconnectTimer := NoTimer;
      OpenStream();
    }

    /** The interval's callback up to its `await`: the cursor the request carries, unless stopped. */
    method OnPollTick() returns (since: Option<int>)
      modifies this
      ensures since == if stopped then None else Some(cursor)
      ensures View() == if stopped then old(View()).(pollTimer := NoTimer) else old(View())
    {
      if stopped {
        pollTimer := NoTimer;
        return None;
      }
      return Some(cursor);
    }

    method OnPollAnswer(events: seq<Event>)
      modifies this
      ensures View() == Delivery.OnPollAnswer(old(View()), events)
    {
      AddFresh(events);
      pollFailures := 0;
      ComputeStatus();
    }

    method OnPollFailure()
      modifies this
      ensures View() == Delivery.OnPollFailure(old(View()))
    {
      pollFailures := pollFailures + 1;
      ComputeStatus();
    }

    method Unsubscribe()
      modifies this
      ensures View() == Delivery.Unsubscribe(old(View()))
    {
      stopped := true;
      if pollTimer != NoTimer { pollTimer := Cleared; }
      if reconnectTimer != NoTimer { reconnectTimer := Cleared; }
    }
  }
}
