/** `subscribeToEvents`: one client cursor fed by two interleaved channels, an SSE stream that reconnects
    natively and manually, and overlapping fallback polls.

    `ClientState` is the closure's variables together with what the two callbacks have been told; one
    function per handler says what that handler does to them. Module SubscriptionHandlers holds the imperative
    handlers, proved equal to these functions. */
module Delivery {
  import opened Sequences
  import opened Events

  datatype Connectivity = Live | Reconnecting | Offline

  /** A timer handle: never set, pending, or set and since cleared by the unsubscriber. */
  datatype Timer = NoTimer | Armed(millis: int) | Cleared

  /** What one SSE `data:` line holds. */
  datatype Line = Ping | Malformed | Parsed(event: Event)

  datatype ClientState = ClientState(
    stopped: bool,
    pollTimer: Timer,
    reconnectTimer: Timer,
    streamOpen: bool,                    // es !== null
    sseOk: bool,
    pollFailures: nat,
    reconnectAttempts: nat,
    lastStatus: Option<Connectivity>,
    seen: set<string>,
    cursor: int,
    batches: seq<seq<Event>>,            // the arguments of every onEvents call
    reports: seq<Connectivity>)          // the arguments of every onStatus call

  const FRESH_CLIENT :=
    ClientState(false, NoTimer, NoTimer, false, false, 0, 0, None, {}, -1, [], [])

  function Max(a: int, b: int): int { if a > b then a else b }

  function Pow2(n: nat): (r: nat)
    ensures r >= 1
  {
    if n == 0 then 1 else 2 * Pow2(n - 1)
  }

  /** Math.min(30000, 1000 * 2 ** attempts) */
  function Backoff(attempts: nat): int {
    if 1000 * Pow2(attempts) < 30000 then 1000 * Pow2(attempts) else 30000
  }

  // ----- the handlers, on values

  function SetStatus(c: ClientState, next: Connectivity): ClientState {
    if c.stopped || c.lastStatus == Some(next) then c
    else c.(lastStatus := Some(next), reports := c.reports + [next])
  }

  function StatusOf(sseOk: bool, pollFailures: nat): Connectivity {
    if sseOk then Live else if pollFailures >= 2 then Offline else Reconnecting
  }

  function ComputeStatus(c: ClientState): ClientState {
    SetStatus(c, StatusOf(c.sseOk, c.pollFailures))
  }

  function NotIn(seen: set<string>): Event -> bool { (e: Event) => e.eventId !in seen }

  function Unseen(seen: set<string>, events: seq<Event>): seq<Event> {
    Filter(NotIn(seen), events)
  }

  function Ids(events: seq<Event>): set<string> { set e | e in events :: e.eventId }

  function Advance(cursor: int, events: seq<Event>): int {
    if events == [] then cursor
    else
      var before := Advance(cursor, Front(events));
      if Last(events).seqNo.Some? then Max(before, Last(events).seqNo.value) else before
  }

  function AddFresh(c: ClientState, events: seq<Event>): ClientState {
    var unseen := Unseen(c.seen, events);
    c.(seen := c.seen + Ids(unseen),
       cursor := Advance(c.cursor, events),
       batches := if unseen == [] then c.batches else c.batches + [unseen])
  }

  function StartPoll(c: ClientState, interval: int): ClientState {
    if c.pollTimer != NoTimer then c else c.(pollTimer := Armed(interval))
  }

  function OpenStream(c: ClientState, available: bool): ClientState {
    if c.stopped || !available then c else c.(streamOpen := true)
  }

  function Subscribe(available: bool): ClientState {
    if available then StartPoll(OpenStream(FRESH_CLIENT, available), 8000)
    else StartPoll(FRESH_CLIENT, 1500)
  }

  function OnOpen(c: ClientState): ClientState {
    ComputeStatus(c.(sseOk := true, reconnectAttempts := 0))
  }

  function OnMessage(c: ClientState, line: Line): ClientState {
    match line
    case Ping => c
    case Malformed => ComputeStatus(c.(sseOk := true))
    case Parsed(e) => ComputeStatus(AddFresh(c.(sseOk := true), [e]))
  }

  /** `closed` is readyState === CLOSED; otherwise the EventSource is retrying on its own. */
  function OnError(c: ClientState, closed: bool): ClientState {
    var d := ComputeStatus(c.(sseOk := false));
    if !(d.streamOpen && closed) then d
    else
      var e := d.(streamOpen := false);
      if e.stopped || e.reconnectTimer != NoTimer then e
      else e.(reconnectTimer := Armed(Backoff(e.reconnectAttempts)),
              reconnectAttempts := e.reconnectAttempts + 1)
  }

  function OnReconnectTimer(c: ClientState, available: bool): ClientState {
    OpenStream(c.(reconnectTimer := NoTimer), available)
  }

  function OnPollAnswer(c: ClientState, events: seq<Event>): ClientState {
    ComputeStatus(AddFresh(c, events).(pollFailures := 0))
  }

  function OnPollFailure(c: ClientState): ClientState {
    ComputeStatus(c.(pollFailures := c.pollFailures + 1))
  }

  function Clear(t: Timer): Timer { if t == NoTimer then NoTimer else Cleared }

  /** The unsubscriber closes the stream object but leaves the `es` variable set. */
  function Unsubscribe(c: ClientState): ClientState {
    c.(stopped := true, pollTimer := Clear(c.pollTimer), reconnectTimer := Clear(c.reconnectTimer))
  }
}
