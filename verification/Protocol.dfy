/** The subscription against a server: a transition system whose steps interleave freely, and what every
    run of it keeps.

    The server is modelled by its log: `seq` grows strictly and ids are never reused. A poll's body is taken
    from the log at some moment between request and response. A stream hands out events in log order from a
    cursor, but a line can be lost: the server registers a client for broadcasts only after it has taken the
    snapshot it replays, and a line may fail to parse. It can also be repeated, when an event is in the
    snapshot and its broadcast is still to come. */
module Protocol {
  import opened Sequences
  import opened Events
  import opened Delivery

  /** A live EventSource: the cursor in its URL, and how far into the log the server has written. */
  datatype Stream = Stream(since: int, pos: nat)

  /** A poll in flight: its cursor, and the length of the log when it was sent. */
  datatype Poll = Poll(since: int, floor: nat)

  datatype World = World(
    available: bool,            // typeof EventSource !== "undefined"
    client: ClientState,
    log: seq<Event>,
    stream: Option<Stream>,
    polls: multiset<Poll>,
    backoffs: seq<int>)         // manual reconnect delays armed since the last open

  datatype Action =
    | Append(event: Event)
    | StreamOpens
    | StreamWritesNext
    | StreamSkips               // the next line is never written to this stream
    | StreamGarbles             // the next line arrives and does not parse
    | StreamRepeats             // the line before it is written once more
    | StreamPings
    | StreamRetriesNatively
    | StreamCloses
    | ReconnectFires
    | PollSent
    | PollAnswered(poll: Poll, upTo: nat)
    | PollFails(poll: Poll)
    | Unsubscribes

  // ----- the server

  function Newer(since: int): Event -> bool {
    (e: Event) => e.seqNo.None? || e.seqNo.value > since
  }

  /** `eventsAfter` of the server. */
  function EventsAfter(log: seq<Event>, since: int): seq<Event> {
    if since < 0 then log else Filter(Newer(since), log)
  }

  /** Where in the log the first event newer than the cursor stands. */
  function Covered(log: seq<Event>, since: int): (n: nat)
    ensures n <= |log|
  {
    if log == [] then 0
    else if Last(log).seqNo.Some? && Last(log).seqNo.value > since then Covered(Front(log), since)
    else |log|
  }

  /** What the server promises of its log: every event numbered, numbers growing, ids never reused. */
  ghost predicate Numbered(log: seq<Event>) {
    && (forall i :: 0 <= i < |log| ==> log[i].seqNo.Some? && log[i].seqNo.value >= 0)
    && (forall i, j :: 0 <= i < j < |log| ==> InSequence(log[i], log[j]))
  }

  predicate InSequence(a: Event, b: Event) {
    a.seqNo.Some? && b.seqNo.Some? && a.seqNo.value < b.seqNo.value && a.eventId != b.eventId
  }

  // ----- the steps

  ghost predicate Enabled(w: World, a: Action) {
    match a
    case Append(e) => Numbered(w.log + [e])
    case StreamOpens => w.stream.Some?
    case StreamWritesNext => w.stream.Some? && w.stream.value.pos < |w.log|
    case StreamSkips => w.stream.Some? && w.stream.value.pos < |w.log|
    case StreamGarbles => w.stream.Some? && w.stream.value.pos < |w.log|
    case StreamRepeats => w.stream.Some? && 0 < w.stream.value.pos <= |w.log|
    case StreamPings => w.stream.Some?
    case StreamRetriesNatively => w.stream.Some?
    case StreamCloses => w.stream.Some?
    case ReconnectFires => w.client.reconnectTimer.Armed?
    case PollSent => w.client.pollTimer.Armed?
    case PollAnswered(p, n) => p in w.polls && p.floor <= n <= |w.log|
    case PollFails(p) => p in w.polls
    case Unsubscribes => !w.client.stopped
  }

  function Connect(w: World, client: ClientState): World {
    w.(client := client,
       stream := if client.streamOpen then Some(Stream(client.cursor, Covered(w.log, client.cursor)))
                 else None)
  }

  function Step(w: World, a: Action): World
    requires Enabled(w, a)
  {
    match a
    case Append(e) => w.(log := w.log + [e])
    case StreamOpens => w.(client := OnOpen(w.client), backoffs := [])
    case StreamWritesNext =>
      var s := w.stream.value;
      w.(client := OnMessage(w.client, Parsed(w.log[s.pos])), stream := Some(s.(pos := s.pos + 1)))
    case StreamSkips => var s := w.stream.value; w.(stream := Some(s.(pos := s.pos + 1)))
    case StreamGarbles =>
      var s := w.stream.value;
      w.(client := OnMessage(w.client, Malformed), stream := Some(s.(pos := s.pos + 1)))
    case StreamRepeats => w.(client := OnMessage(w.client, Parsed(w.log[w.stream.value.pos - 1])))
    case StreamPings => w.(client := OnMessage(w.client, Ping))
    case StreamRetriesNatively =>
      // The browser repeats the request with the URL it was given: the old cursor.
      var s := w.stream.value;
      w.(client := OnError(w.client, false), stream := Some(s.(pos := Covered(w.log, s.since))))
    case StreamCloses =>
      var c := OnError(w.client, true);
      w.(client := c, stream := None,
         backoffs := if c.reconnectTimer.Armed? then w.backoffs + [c.reconnectTimer.millis]
                     else w.backoffs)
    case ReconnectFires => Connect(w, OnReconnectTimer(w.client, w.available))
    case PollSent => w.(polls := w.polls + multiset{Poll(w.client.cursor, |w.log|)})
    case PollAnswered(p, n) =>
      w.(client := OnPollAnswer(w.client, EventsAfter(w.log[..n], p.since)),
         polls := w.polls - multiset{p})
    case PollFails(p) => w.(client := OnPollFailure(w.client), polls := w.polls - multiset{p})
    case Unsubscribes => w.(client := Unsubscribe(w.client), stream := None)
  }

  function Start(available: bool, log: seq<Event>): World {
    Connect(World(available, FRESH_CLIENT, log, None, multiset{}, []), Subscribe(available))
  }

  /** The state after a run of steps, if every one of them was enabled. */
  ghost function After(w: World, run: seq<Action>): Option<World> {
    if run == [] then Some(w)
    else
      var before := After(w, Front(run));
      if before.Some? && Enabled(before.value, Last(run)) then Some(Step(before.value, Last(run)))
      else None
  }

  lemma AfterSnoc(w: World, run: seq<Action>, a: Action)
    ensures After(w, run + [a]) ==
            if After(w, run).Some? && Enabled(After(w, run).value, a) then Some(Step(After(w, run).value, a)) else None
  {
    Joins(run, a);
  }

  /** The position in the log of the line a step hands to the client, if it hands it one. */
  function LineOf(w: World, a: Action): Option<nat>
    requires Enabled(w, a)
  {
    match a
    case StreamWritesNext => Some(w.stream.value.pos)
    case StreamRepeats => Some(w.stream.value.pos - 1)
    case _ => None
  }

  /** The line a step hands over, if any, is not beyond the first one not yet delivered. */
  predicate InTime(w: World, a: Action)
    requires Enabled(w, a)
  {
    LineOf(w, a).Some? ==> LineOf(w, a).value <= |Delivered(w.client)|
  }

  /** Every line of the run arrives in time: what was lost before it has by then come another way. */
  ghost predicate LinesInTime(w: World, run: seq<Action>)
    requires After(w, run).Some?
  {
    run == [] || (LinesInTime(w, Front(run)) && InTime(After(w, Front(run)).value, Last(run)))
  }

  // ----- what every state keeps

  function Delivered(c: ClientState): seq<Event> { Flatten(c.batches) }

  /** The client has been handed exactly the first d events of the log: in order, none missing, none
      twice; and its cursor is the number of the last one. */
  ghost predicate HasFirst(c: ClientState, log: seq<Event>, d: nat) {
    && d <= |log|
    && Delivered(c) == log[..d]
    && c.seen == Ids(log[..d])
    && c.cursor == CursorAt(log, d)
  }

  function CursorAt(log: seq<Event>, d: nat): int
    requires d <= |log|
  {
    if d == 0 || log[d - 1].seqNo.None? then -1 else log[d - 1].seqNo.value
  }

  ghost predicate InOrder(w: World) {
    Numbered(w.log) && HasFirst(w.client, w.log, |Delivered(w.client)|)
  }

  /** No request was made from a cursor ahead of what has been delivered. */
  ghost predicate ChannelsBehind(w: World) {
    && (w.stream.Some? ==> -1 <= w.stream.value.since <= w.client.cursor)
    && (forall p :: p in w.polls ==> -1 <= p.since <= w.client.cursor && p.floor <= |w.log|)
  }

  /** While subscribed, SSE is always being pursued, and in one way only. */
  ghost predicate OneConnection(w: World) {
    if w.client.stopped then w.stream.None? && !w.client.pollTimer.Armed? && !w.client.reconnectTimer.Armed?
    else
      && w.client.pollTimer == Armed(if w.available then 8000 else 1500)
      && (w.stream.Some? <==> w.client.streamOpen)
      && w.client.reconnectTimer != Cleared
      && (if w.available then w.stream.Some? != w.client.reconnectTimer.Armed?
          else w.stream.None? && w.client.reconnectTimer == NoTimer)
  }

  ghost predicate BackedOff(w: World) {
    && |w.backoffs| == w.client.reconnectAttempts
    && (forall i :: 0 <= i < |w.backoffs| ==> w.backoffs[i] == Backoff(i))
  }

  /** The last status reported is the true one, and no report repeats the one before it. */
  ghost predicate HonestStatus(c: ClientState) {
    && c.lastStatus == (if c.reports == [] then None else Some(Last(c.reports)))
    && (forall i :: 0 < i < |c.reports| ==> c.reports[i - 1] != c.reports[i])
    && (!c.stopped ==>
          if c.reports == [] then !c.sseOk && c.pollFailures == 0
          else Last(c.reports) == StatusOf(c.sseOk, c.pollFailures))
  }

  ghost predicate Safe(w: World) {
    InOrder(w) && ChannelsBehind(w) && Control(w)
  }

  /** The part of the invariant that does not look at the events. */
  ghost predicate Control(w: World) {
    OneConnection(w) && BackedOff(w) && HonestStatus(w.client)
  }

  // ----- the cursor and the log

  lemma NumberedPrefix(log: seq<Event>, n: nat)
    requires Numbered(log) && n <= |log|
    ensures Numbered(log[..n])
  {
    forall i, j | 0 <= i < j < n ensures InSequence(log[..n][i], log[..n][j]) {
      assert InSequence(log[i], log[j]);
    }
  }

  lemma {:induction false} CoveredTells(log: seq<Event>, since: int, i: nat)
    requires Numbered(log) && i < |log|
    ensures i < Covered(log, since) <==> log[i].seqNo.value <= since
  {
    if Last(log).seqNo.value > since {
      NumberedPrefix(log, |log| - 1);
      if i < |log| - 1 { CoveredTells(Front(log), since, i); }
    } else if i < |log| - 1 {
      assert InSequence(log[i], log[|log| - 1]);
    }
  }

  lemma AfterIsSuffix(log: seq<Event>, since: int)
    requires Numbered(log) && since >= -1
    ensures EventsAfter(log, since) == log[Covered(log, since)..]
  {
    forall i | 0 <= i < |log| ensures i < Covered(log, since) <==> !Newer(since)(log[i]) {
      CoveredTells(log, since, i);
    }
    FilterCuts(Newer(since), log, Covered(log, since));
    if since < 0 && log != [] { CoveredTells(log, since, 0); }
  }

  lemma IdsTell(log: seq<Event>, d: nat, i: nat)
    requires Numbered(log) && d <= |log| && i < |log|
    ensures log[i].eventId in Ids(log[..d]) <==> i < d
  {
    if i < d {
      assert log[..d][i] == log[i];
    } else {
      forall e | e in log[..d] ensures e.eventId != log[i].eventId {
        var j :| 0 <= j < d && log[..d][j] == e;
        assert InSequence(log[j], log[i]);
      }
    }
  }

  /** A slice that starts no later than the delivered prefix ends contributes exactly what lies beyond it. */
  lemma UnseenOfSlice(log: seq<Event>, seen: set<string>, d: nat, k: nat, n: nat)
    requires k <= d <= |log| && k <= n <= |log|
    requires forall i :: 0 <= i < |log| ==> (log[i].eventId in seen <==> i < d)
    ensures Unseen(seen, log[k..n]) == if n <= d then [] else log[d..n]
  {
    var slice, cut := log[k..n], if n <= d then n - k else d - k;
    forall i | 0 <= i < |slice| ensures NotIn(seen)(slice[i]) <==> cut <= i {
      assert slice[i] == log[k + i];
    }
    FilterCuts(NotIn(seen), slice, cut);
  }

  lemma AdvanceSnoc(cursor: int, events: seq<Event>, e: Event)
    requires e.seqNo.Some?
    ensures Advance(cursor, events + [e]) == Max(Advance(cursor, events), e.seqNo.value)
  {
    Joins(events, e);
  }

  lemma {:induction false} AdvanceOverSlice(cursor: int, log: seq<Event>, k: nat, n: nat)
    requires Numbered(log) && k <= n <= |log|
    ensures Advance(cursor, log[k..n]) == if k == n then cursor else Max(cursor, log[n - 1].seqNo.value)
    decreases n
  {
    if k < n {
      AdvanceOverSlice(cursor, log, k, n - 1);
      SliceOneMore(log, k, n - 1);
      AdvanceSnoc(cursor, log[k..n - 1], log[n - 1]);
      assert k < n - 1 ==> InSequence(log[n - 2], log[n - 1]);
    }
  }

  lemma IdsConcat(a: seq<Event>, b: seq<Event>)
    ensures Ids(a + b) == Ids(a) + Ids(b)
  {
  }

  lemma CursorAfterSlice(log: seq<Event>, d: nat, k: nat, n: nat)
    requires Numbered(log) && k <= d <= |log| && k <= n <= |log|
    ensures Advance(CursorAt(log, d), log[k..n]) == CursorAt(log, Max(d, n))
  {
    AdvanceOverSlice(CursorAt(log, d), log, k, n);
    assert 0 < d < n ==> InSequence(log[d - 1], log[n - 1]);
    assert 0 < n < d ==> InSequence(log[n - 1], log[d - 1]);
  }

  lemma AddSlice(c: ClientState, log: seq<Event>, d: nat, k: nat, n: nat)
    requires Numbered(log) && HasFirst(c, log, d) && k <= d && k <= n <= |log|
    ensures HasFirst(AddFresh(c, log[k..n]), log, Max(d, n))
  {
    forall i | 0 <= i < |log| ensures log[i].eventId in c.seen <==> i < d { IdsTell(log, d, i); }
    UnseenOfSlice(log, c.seen, d, k, n);
    CursorAfterSlice(log, d, k, n);
    if d < n {
      FlattenSnoc(c.batches, log[d..n]);
      assert log[..n] == log[..d] + log[d..n];
      IdsConcat(log[..d], log[d..n]);
    }
  }

  // ----- every step keeps the invariant

  lemma StatusSettles(c: ClientState)
    requires c.lastStatus == (if c.reports == [] then None else Some(Last(c.reports)))
    requires forall i :: 0 < i < |c.reports| ==> c.reports[i - 1] != c.reports[i]
    ensures HonestStatus(ComputeStatus(c))
    ensures ComputeStatus(c).(lastStatus := c.lastStatus, reports := c.reports) == c
    ensures c.stopped ==> ComputeStatus(c) == c
  {
  }

  predicate OfStream(a: Action) {
    || a.StreamOpens? || a.StreamWritesNext? || a.StreamSkips? || a.StreamGarbles? || a.StreamRepeats?
    || a.StreamPings? || a.StreamRetriesNatively? || a.StreamCloses?
  }

  lemma StreamKeepsConnection(w: World, a: Action)
    requires Control(w) && Enabled(w, a) && OfStream(a)
    ensures OneConnection(Step(w, a))
  {
  }

  predicate SameControl(c: ClientState, c': ClientState) {
    && c'.stopped == c.stopped && c'.pollTimer == c.pollTimer && c'.reconnectTimer == c.reconnectTimer
    && c'.streamOpen == c.streamOpen && c'.reconnectAttempts == c.reconnectAttempts
  }

  lemma AnswerKeepsControl(c: ClientState, events: seq<Event>)
    ensures SameControl(c, OnPollAnswer(c, events))
  {
    assert SameControl(c, AddFresh(c, events));
  }

  lemma WaitingKeepsConnection(w: World, v: World)
    requires OneConnection(w) && SameControl(w.client, v.client) && v.stream == w.stream && v.available == w.available
    ensures OneConnection(v)
  {
  }

  lemma OthersKeepConnection(w: World, a: Action)
    requires Control(w) && Enabled(w, a) && !OfStream(a)
    ensures OneConnection(Step(w, a))
  {
    match a
    case PollAnswered(p, n) =>
      AnswerKeepsControl(w.client, EventsAfter(w.log[..n], p.since));
      WaitingKeepsConnection(w, Step(w, a));
    case PollFails(p) => WaitingKeepsConnection(w, Step(w, a));
    case _ =>
  }

  lemma BackoffKeeps(w: World, a: Action)
    requires Control(w) && Enabled(w, a)
    ensures BackedOff(Step(w, a))
  {
  }

  lemma LineKeepsStatus(c: ClientState, line: Line)
    requires HonestStatus(c)
    ensures HonestStatus(OnMessage(c, line))
  {
    match line
    case Ping =>
    case Malformed => StatusSettles(c.(sseOk := true));
    case Parsed(e) => StatusSettles(AddFresh(c.(sseOk := true), [e]));
  }

  lemma StreamKeepsStatus(w: World, a: Action)
    requires HonestStatus(w.client) && Enabled(w, a) && OfStream(a)
    ensures HonestStatus(Step(w, a).client)
  {
    match a
    case StreamOpens => StatusSettles(w.client.(sseOk := true, reconnectAttempts := 0));
    case StreamWritesNext => LineKeepsStatus(w.client, Parsed(w.log[w.stream.value.pos]));
    case StreamGarbles => LineKeepsStatus(w.client, Malformed);
    case StreamRepeats => LineKeepsStatus(w.client, Parsed(w.log[w.stream.value.pos - 1]));
    case StreamRetriesNatively => StatusSettles(w.client.(sseOk := false));
    case StreamCloses => StatusSettles(w.client.(sseOk := false));
    case _ =>
  }

  lemma AnswerKeepsStatus(c: ClientState, events: seq<Event>)
    requires HonestStatus(c)
    ensures HonestStatus(OnPollAnswer(c, events))
  {
    var d := AddFresh(c, events);
    assert d.(seen := c.seen, cursor := c.cursor, batches := c.batches) == c;
    StatusSettles(d.(pollFailures := 0));
  }

  lemma OthersKeepStatus(w: World, a: Action)
    requires HonestStatus(w.client) && Enabled(w, a) && !OfStream(a)
    ensures HonestStatus(Step(w, a).client)
  {
    match a
    case PollAnswered(p, n) => AnswerKeepsStatus(w.client, EventsAfter(w.log[..n], p.since));
    case PollFails(p) => StatusSettles(w.client.(pollFailures := w.client.pollFailures + 1));
    case _ =>
  }

  lemma ControlKeeps(w: World, a: Action)
    requires Control(w) && Enabled(w, a)
    ensures Control(Step(w, a))
  {
    BackoffKeeps(w, a);
    if OfStream(a) {
      StreamKeepsConnection(w, a);
      StreamKeepsStatus(w, a);
    } else {
      OthersKeepConnection(w, a);
      OthersKeepStatus(w, a);
    }
  }

  lemma CoversDelivered(log: seq<Event>, d: nat, since: int)
    requires Numbered(log) && d <= |log| && -1 <= since <= CursorAt(log, d)
    ensures Covered(log, since) <= d
    ensures EventsAfter(log, since) == log[Covered(log, since)..]
  {
    AfterIsSuffix(log, since);
    if d < |log| {
      assert 0 < d ==> InSequence(log[d - 1], log[d]);
      CoveredTells(log, since, d);
    }
  }

  lemma LineExtends(c: ClientState, log: seq<Event>, d: nat, pos: nat)
    requires Numbered(log) && HasFirst(c, log, d) && pos <= d && pos < |log|
    ensures HasFirst(AddFresh(c, [log[pos]]), log, Max(d, pos + 1))
  {
    AddSlice(c, log, d, pos, pos + 1);
    SliceOneMore(log, pos, pos);
    assert log[pos..pos] == [];
  }

  /** Only what has been delivered, seen and counted matters. */
  lemma SameDelivery(c: ClientState, c': ClientState, log: seq<Event>, d: nat)
    requires HasFirst(c, log, d) && c'.batches == c.batches && c'.seen == c.seen && c'.cursor == c.cursor
    ensures HasFirst(c', log, d)
  {
  }

  lemma MessageExtends(c: ClientState, log: seq<Event>, d: nat, pos: nat)
    requires Numbered(log) && HasFirst(c, log, d) && pos <= d && pos < |log|
    ensures HasFirst(OnMessage(c, Parsed(log[pos])), log, Max(d, pos + 1))
  {
    var heard := c.(sseOk := true);
    SameDelivery(c, heard, log, d);
    LineExtends(heard, log, d, pos);
    SameDelivery(AddFresh(heard, [log[pos]]), OnMessage(c, Parsed(log[pos])), log, Max(d, pos + 1));
  }

  lemma HandsOver(w: World, a: Action)
    requires Enabled(w, a) && LineOf(w, a).Some?
    ensures LineOf(w, a).value < |w.log| && Step(w, a).log == w.log
    ensures Step(w, a).client == OnMessage(w.client, Parsed(w.log[LineOf(w, a).value]))
  {
  }

  /** A line that arrives in time moves the client past that line, whether it was news or a replay. */
  lemma LineDelivers(w: World, a: Action)
    requires Safe(w) && Enabled(w, a) && LineOf(w, a).Some? && InTime(w, a)
    ensures HasFirst(Step(w, a).client, w.log, Max(|Delivered(w.client)|, LineOf(w, a).value + 1))
  {
    HandsOver(w, a);
    MessageExtends(w.client, w.log, |Delivered(w.client)|, LineOf(w, a).value);
  }

  lemma PollBody(log: seq<Event>, d: nat, since: int, n: nat) returns (k: nat)
    requires Numbered(log) && d <= |log| && n <= |log| && -1 <= since <= CursorAt(log, d)
    ensures k <= d && k <= n && EventsAfter(log[..n], since) == log[k..n]
  {
    var shown := log[..n];
    NumberedPrefix(log, n);
    k := Covered(shown, since);
    AfterIsSuffix(shown, since);
    assert shown[k..] == log[k..n];
    if d <= n { CoversDelivered(shown, d, since); }
  }

  /** A poll whose body reflects a log of length n leaves at least n events delivered, however late it
      arrives and whatever was delivered meanwhile. */
  lemma PollDelivers(w: World, p: Poll, n: nat)
    requires Safe(w) && Enabled(w, PollAnswered(p, n))
    ensures HasFirst(Step(w, PollAnswered(p, n)).client, w.log, Max(|Delivered(w.client)|, n))
  {
    var d := |Delivered(w.client)|;
    var k := PollBody(w.log, d, p.since, n);
    AddSlice(w.client, w.log, d, k, n);
  }

  lemma CursorGrows(log: seq<Event>, d: nat, e: nat)
    requires Numbered(log) && d <= e <= |log|
    ensures -1 <= CursorAt(log, d) <= CursorAt(log, e)
  {
    assert 0 < d < e ==> InSequence(log[d - 1], log[e - 1]);
  }

  /** Delivery has gone from d to e events, the channels as they were or restarted behind it. */
  lemma StaysBehind(w: World, v: World, e: nat)
    requires Safe(w) && v.log == w.log && HasFirst(v.client, v.log, e) && |Delivered(w.client)| <= e
    requires v.stream.Some? ==> -1 <= v.stream.value.since <= CursorAt(w.log, e)
    requires forall p :: p in v.polls ==> p in w.polls || p == Poll(w.client.cursor, |w.log|)
    ensures InOrder(v) && ChannelsBehind(v)
  {
    CursorGrows(w.log, |Delivered(w.client)|, e);
  }

  lemma AppendKeeps(w: World, e: Event)
    requires Safe(w) && Enabled(w, Append(e))
    ensures InOrder(Step(w, Append(e))) && ChannelsBehind(Step(w, Append(e)))
  {
    var d := |Delivered(w.client)|;
    assert (w.log + [e])[..d] == w.log[..d];
  }

  lemma LineKeeps(w: World, a: Action)
    requires Safe(w) && Enabled(w, a) && LineOf(w, a).Some? && InTime(w, a)
    ensures InOrder(Step(w, a)) && ChannelsBehind(Step(w, a))
    ensures |Delivered(Step(w, a).client)| >= |Delivered(w.client)|
  {
    var e := Max(|Delivered(w.client)|, LineOf(w, a).value + 1);
    LineDelivers(w, a);
    CursorGrows(w.log, |Delivered(w.client)|, e);
    StaysBehind(w, Step(w, a), e);
  }

  lemma PollKeeps(w: World, p: Poll, n: nat)
    requires Safe(w) && Enabled(w, PollAnswered(p, n))
    ensures InOrder(Step(w, PollAnswered(p, n))) && ChannelsBehind(Step(w, PollAnswered(p, n)))
    ensures |Delivered(Step(w, PollAnswered(p, n)).client)| >= |Delivered(w.client)|
  {
    var e := Max(|Delivered(w.client)|, n);
    PollDelivers(w, p, n);
    CursorGrows(w.log, |Delivered(w.client)|, e);
    StaysBehind(w, Step(w, PollAnswered(p, n)), e);
  }

  predicate DeliversNothing(a: Action) {
    || a.StreamOpens? || a.StreamSkips? || a.StreamGarbles? || a.StreamPings? || a.StreamRetriesNatively?
    || a.StreamCloses? || a.ReconnectFires? || a.PollSent? || a.PollFails? || a.Unsubscribes?
  }

  predicate SameEvents(c: ClientState, c': ClientState) {
    c'.batches == c.batches && c'.seen == c.seen && c'.cursor == c.cursor
  }

  lemma ErrorKeepsEvents(c: ClientState, closed: bool)
    ensures SameEvents(c, OnError(c, closed))
  {
  }

  lemma OpenKeepsEvents(c: ClientState)
    ensures SameEvents(c, OnOpen(c)) && SameEvents(c, OnPollFailure(c))
  {
  }

  lemma NothingDelivered(w: World, a: Action)
    requires Enabled(w, a) && DeliversNothing(a)
    ensures SameEvents(w.client, Step(w, a).client) && Step(w, a).log == w.log
  {
    match a
    case StreamOpens => OpenKeepsEvents(w.client);
    case StreamGarbles => BadLineChangesNothing(w.client);
    case StreamRetriesNatively => ErrorKeepsEvents(w.client, false);
    case StreamCloses => ErrorKeepsEvents(w.client, true);
    case PollFails(p) => OpenKeepsEvents(w.client);
    case _ =>
  }

  lemma BadLineChangesNothing(c: ClientState)
    ensures OnMessage(c, Malformed).(sseOk := c.sseOk, lastStatus := c.lastStatus, reports := c.reports) == c
  {
  }

  lemma QuietStepKeeps(w: World, a: Action)
    requires Safe(w) && Enabled(w, a) && DeliversNothing(a)
    ensures InOrder(Step(w, a)) && ChannelsBehind(Step(w, a))
    ensures Delivered(Step(w, a).client) == Delivered(w.client)
  {
    var d, v := |Delivered(w.client)|, Step(w, a);
    NothingDelivered(w, a);
    SameDelivery(w.client, v.client, w.log, d);
    CursorGrows(w.log, d, d);
    StaysBehind(w, v, d);
  }

  lemma EventsKeep(w: World, a: Action)
    requires Safe(w) && Enabled(w, a) && InTime(w, a)
    ensures InOrder(Step(w, a)) && ChannelsBehind(Step(w, a))
    ensures |Delivered(Step(w, a).client)| >= |Delivered(w.client)|
  {
    match a
    case Append(e) => AppendKeeps(w, e);
    case StreamWritesNext => LineKeeps(w, a);
    case StreamRepeats => LineKeeps(w, a);
    case PollAnswered(p, n) => PollKeeps(w, p, n);
    case _ => QuietStepKeeps(w, a);
  }

  lemma StepKeeps(w: World, a: Action)
    requires Safe(w) && Enabled(w, a) && InTime(w, a)
    ensures Safe(Step(w, a))
    ensures |Delivered(Step(w, a).client)| >= |Delivered(w.client)|
  {
    ControlKeeps(w, a);
    EventsKeep(w, a);
  }

  lemma StartsSafe(available: bool, log: seq<Event>)
    requires Numbered(log)
    ensures Safe(Start(available, log))
  {
  }

  // ----- a line that is not in time

  /** The client was handed an event at a place where the log has another. */
  ghost predicate Gapped(c: ClientState, log: seq<Event>) {
    exists i :: 0 <= i < |Delivered(c)| && i < |log| && Delivered(c)[i] != log[i]
  }

  lemma AddFreshGrows(c: ClientState, events: seq<Event>)
    ensures Delivered(c) <= Delivered(AddFresh(c, events))
  {
    var unseen := Unseen(c.seen, events);
    if unseen != [] { FlattenSnoc(c.batches, unseen); }
  }

  lemma NextLineDelivers(c: ClientState, e: Event)
    ensures Delivered(OnMessage(c, Parsed(e))) == Delivered(AddFresh(c, [e]))
  {
    assert OnMessage(c, Parsed(e)).batches == AddFresh(c.(sseOk := true), [e]).batches;
  }

  lemma DeliveredGrows(w: World, a: Action)
    requires Enabled(w, a)
    ensures Delivered(w.client) <= Delivered(Step(w, a).client) && w.log <= Step(w, a).log
  {
    if LineOf(w, a).Some? {
      var e := w.log[LineOf(w, a).value];
      HandsOver(w, a);
      NextLineDelivers(w.client, e);
      AddFreshGrows(w.client, [e]);
    } else if a.PollAnswered? {
      AddFreshGrows(w.client, EventsAfter(w.log[..a.upTo], a.poll.since));
    } else if !a.Append? {
      NothingDelivered(w, a);
    }
  }

  /** Batches only grow, so a gap is for good: nothing that arrives later fills it. */
  lemma GapStays(w: World, a: Action)
    requires Enabled(w, a) && Gapped(w.client, w.log)
    ensures Gapped(Step(w, a).client, Step(w, a).log)
  {
    DeliveredGrows(w, a);
    var got, got' := Delivered(w.client), Delivered(Step(w, a).client);
    var i :| 0 <= i < |got| && i < |w.log| && got[i] != w.log[i];
    assert got'[i] == got[i] && Step(w, a).log[i] == w.log[i];
  }

  lemma BeyondLeavesGap(c: ClientState, log: seq<Event>, d: nat, k: nat)
    requires Numbered(log) && HasFirst(c, log, d) && d < k < |log|
    ensures Gapped(AddFresh(c, [log[k]]), log)
  {
    IdsTell(log, d, k);
    FilterSnoc(NotIn(c.seen), [], log[k]);
    assert [] + [log[k]] == [log[k]];
    FlattenSnoc(c.batches, [log[k]]);
    assert Delivered(AddFresh(c, [log[k]])) == log[..d] + [log[k]];
    assert InSequence(log[d], log[k]);
  }

  lemma LateLineLeavesGap(w: World, a: Action)
    requires Safe(w) && Enabled(w, a) && !InTime(w, a)
    ensures Gapped(Step(w, a).client, Step(w, a).log)
  {
    var k := LineOf(w, a).value;
    HandsOver(w, a);
    BeyondLeavesGap(w.client, w.log, |Delivered(w.client)|, k);
    NextLineDelivers(w.client, w.log[k]);
  }

  // ----- main results, over every run

  /** In every reachable state, lines lost or not, SSE is pursued in exactly one way, the reconnect delays
      are the capped backoff, and the status reported last is the true one. */
  lemma {:induction false} EveryRunIsControlled(available: bool, log: seq<Event>, run: seq<Action>)
    requires Numbered(log) && After(Start(available, log), run).Some?
    ensures Control(After(Start(available, log), run).value)
  {
    if run == [] {
      StartsSafe(available, log);
    } else {
      EveryRunIsControlled(available, log, Front(run));
      ControlKeeps(After(Start(available, log), Front(run)).value, Last(run));
    }
  }

  /** Whatever the interleaving of stream lines, repeated lines, native retries that replay an old cursor,
      manual reconnects and overlapping late polls, every state is safe as long as the lines arrive in time,
      and has a gap for good once one has not. */
  lemma {:induction false} EveryRunIsSafe(available: bool, log: seq<Event>, run: seq<Action>)
    requires Numbered(log) && After(Start(available, log), run).Some?
    ensures var start, w := Start(available, log), After(Start(available, log), run).value;
            if LinesInTime(start, run) then Safe(w) else Gapped(w.client, w.log)
  {
    if run == [] {
      StartsSafe(available, log);
    } else {
      var before, a := After(Start(available, log), Front(run)).value, Last(run);
      EveryRunIsSafe(available, log, Front(run));
      if !LinesInTime(Start(available, log), Front(run)) {
        GapStays(before, a);
      } else if InTime(before, a) {
        StepKeeps(before, a);
      } else {
        LateLineLeavesGap(before, a);
      }
    }
  }

  /** What has been handed to onEvents is a prefix of the server's log exactly when every line arrived in
      time, and then the cursor names its last event. */
  lemma DeliveryIsPrefixIff(available: bool, log: seq<Event>, run: seq<Action>)
    requires Numbered(log) && After(Start(available, log), run).Some?
    ensures var w := After(Start(available, log), run).value;
            var got := Delivered(w.client);
            && (got <= w.log <==> LinesInTime(Start(available, log), run))
            && (got <= w.log ==>
                  if got == [] then w.client.cursor == -1 else Last(got).seqNo == Some(w.client.cursor))
  {
    EveryRunIsSafe(available, log, run);
  }

  predicate LosesNoLine(run: seq<Action>) {
    forall i :: 0 <= i < |run| ==> !run[i].StreamSkips? && !run[i].StreamGarbles?
  }

  /** Where the stream stands, everything before it has been delivered. */
  predicate StreamCaughtUp(w: World) { w.stream.Some? ==> w.stream.value.pos <= |Delivered(w.client)| }

  lemma StreamStaysCaughtUp(w: World, a: Action)
    requires Safe(w) && StreamCaughtUp(w) && Enabled(w, a) && !a.StreamSkips? && !a.StreamGarbles?
    ensures InTime(w, a) && StreamCaughtUp(Step(w, a))
  {
    EventsKeep(w, a);
    match a
    case StreamWritesNext => LineDelivers(w, a);
    case StreamRetriesNatively => CoversDelivered(w.log, |Delivered(w.client)|, w.stream.value.since);
    case ReconnectFires => CoversDelivered(w.log, |Delivered(w.client)|, w.client.cursor);
    case _ =>
  }

  lemma StartsCaughtUp(available: bool, log: seq<Event>)
    requires Numbered(log)
    ensures StreamCaughtUp(Start(available, log))
  {
    CoversDelivered(log, 0, -1);
  }

  /** A run that loses no line is in time throughout, so it delivers a prefix. */
  lemma {:induction false} LosslessRunIsInTime(available: bool, log: seq<Event>, run: seq<Action>)
    requires Numbered(log) && After(Start(available, log), run).Some? && LosesNoLine(run)
    ensures LinesInTime(Start(available, log), run)
    ensures StreamCaughtUp(After(Start(available, log), run).value)
  {
    if run == [] {
      StartsCaughtUp(available, log);
    } else {
      var before, last := After(Start(available, log), Front(run)).value, run[|run| - 1];
      LosslessRunIsInTime(available, log, Front(run));
      EveryRunIsSafe(available, log, Front(run));
      StreamStaysCaughtUp(before, last);
    }
  }

  /** After the unsubscriber has run no status is ever reported, even by a poll that was in flight. */
  lemma {:induction false} QuietAfterUnsubscribe(w: World, run: seq<Action>)
    requires Control(w) && w.client.stopped && After(w, run).Some?
    ensures After(w, run).value.client.stopped
    ensures After(w, run).value.client.reports == w.client.reports
    ensures Control(After(w, run).value)
  {
    if run != [] {
      QuietAfterUnsubscribe(w, Front(run));
      ControlKeeps(After(w, Front(run)).value, Last(run));
      StoppedStepIsQuiet(After(w, Front(run)).value, Last(run));
    }
  }

  lemma StoppedStepIsQuiet(w: World, a: Action)
    requires Control(w) && w.client.stopped && Enabled(w, a)
    ensures Step(w, a).client.stopped && Step(w, a).client.reports == w.client.reports
  {
    assert w.stream.None?;
    if a.PollAnswered? { AnswerKeepsControl(w.client, EventsAfter(w.log[..a.upTo], a.poll.since)); }
  }

  function Sum(s: seq<int>): int {
    if s == [] then 0 else Sum(Front(s)) + Last(s)
  }

  lemma {:induction false} Pow2Monotone(a: nat, b: nat)
    requires a <= b
    ensures Pow2(a) <= Pow2(b)
  {
    if a < b { Pow2Monotone(a, b - 1); }
  }

  lemma BackoffShape(a: nat, b: nat)
    requires a <= b
    ensures 1000 <= Backoff(a) <= Backoff(b) <= 30000
    ensures a >= 5 ==> Backoff(a) == 30000
  {
    Pow2Monotone(a, b);
    if a >= 5 {
      Pow2Monotone(5, a);
      assert Pow2(5) == 32 by { assert Pow2(3) == 8; }
    }
  }

  lemma {:induction false} WaitAtLeast(s: seq<int>)
    requires forall i :: 0 <= i < |s| ==> s[i] >= Backoff(i)
    ensures Sum(s) >= if |s| <= 5 then 1000 * (Pow2(|s|) - 1) else 31000 + 30000 * (|s| - 5)
  {
    if s != [] {
      WaitAtLeast(Front(s));
      if |s| <= 5 {
        Pow2Monotone(|s| - 1, 4);
      } else {
        BackoffShape(|s| - 1, |s| - 1);
      }
      assert Pow2(3) == 8 && Pow2(5) == 32;
    }
  }

  lemma DelaysAddUp(delays: seq<int>, from: nat, to: nat)
    requires forall i :: 0 <= i < |delays| ==> delays[i] == Backoff(i)
    requires from + 5 <= to <= |delays|
    ensures Sum(delays[from..to]) >= 31000 + 30000 * (to - from - 5)
  {
    var part := delays[from..to];
    forall i | 0 <= i < |part| ensures part[i] >= Backoff(i) {
      BackoffShape(i, from + i);
    }
    WaitAtLeast(part);
    assert Pow2(3) == 8 && Pow2(5) == 32;
  }

  lemma BackoffDoubles(n: nat)
    ensures Backoff(0) == 1000
    ensures Backoff(n + 1) == if 2 * Backoff(n) < 30000 then 2 * Backoff(n) else 30000
  {
  }

  lemma DelaysGrow(delays: seq<int>)
    requires forall i :: 0 <= i < |delays| ==> delays[i] == Backoff(i)
    ensures forall i, j :: 0 <= i <= j < |delays| ==> 1000 <= delays[i] <= delays[j] <= 30000
  {
    forall i, j | 0 <= i <= j < |delays| ensures 1000 <= delays[i] <= delays[j] <= 30000 {
      BackoffShape(i, j);
    }
  }

  /** The manual reconnect delays armed since the last open start at 1 s and double up to 30 s. */
  lemma DelaysDouble(available: bool, log: seq<Event>, run: seq<Action>)
    requires Numbered(log) && After(Start(available, log), run).Some?
    ensures var delays := After(Start(available, log), run).value.backoffs;
            && (delays != [] ==> delays[0] == 1000)
            && (forall i :: 0 < i < |delays| ==>
                  delays[i] == if 2 * delays[i - 1] < 30000 then 2 * delays[i - 1] else 30000)
  {
    EveryRunIsControlled(available, log, run);
    var delays := After(Start(available, log), run).value.backoffs;
    BackoffDoubles(0);
    forall i | 0 < i < |delays|
      ensures delays[i] == if 2 * delays[i - 1] < 30000 then 2 * delays[i - 1] else 30000
    {
      BackoffDoubles(i - 1);
    }
  }

  /** The manual reconnect delays armed since the last open never shrink, stay within 1 s and 30 s, and any
      n >= 5 consecutive ones add up to at least 31 s + 30 s for each beyond the fifth. */
  lemma ReconnectsBackOff(available: bool, log: seq<Event>, run: seq<Action>, from: nat, to: nat)
    requires Numbered(log) && After(Start(available, log), run).Some?
    requires from <= to <= |After(Start(available, log), run).value.backoffs|
    ensures var delays := After(Start(available, log), run).value.backoffs;
            && (forall i, j :: 0 <= i <= j < |delays| ==> 1000 <= delays[i] <= delays[j] <= 30000)
            && (to - from >= 5 ==> Sum(delays[from..to]) >= 31000 + 30000 * (to - from - 5))
  {
    EveryRunIsControlled(available, log, run);
    var delays := After(Start(available, log), run).value.backoffs;
    DelaysGrow(delays);
    if to - from >= 5 { DelaysAddUp(delays, from, to); }
  }

  /** In one step: a line that does not parse, directly followed by one that does, leaves a prefix exactly when
      the bad line was a replay. */
  lemma UnparsedLineIsSafeIff(w: World)
    requires Safe(w) && w.stream.Some? && w.stream.value.pos + 1 < |w.log|
    ensures var v := Step(Step(w, StreamGarbles), StreamWritesNext);
            Delivered(v.client) <= v.log <==> w.stream.value.pos < |Delivered(w.client)|
  {
    var v := Step(w, StreamGarbles);
    StepKeeps(w, StreamGarbles);
    NothingDelivered(w, StreamGarbles);
    if InTime(v, StreamWritesNext) { StepKeeps(v, StreamWritesNext); } else { LateLineLeavesGap(v, StreamWritesNext); }
  }

  // ----- what the status says of the run

  /** The stream gave a sign of life. */
  predicate Hears(a: Action) { a.StreamOpens? || a.StreamWritesNext? || a.StreamRepeats? || a.StreamGarbles? }

  predicate Loses(a: Action) { a.StreamRetriesNatively? || a.StreamCloses? }

  /** The latest word from the stream was a sign of life. */
  ghost predicate LastHeard(run: seq<Action>) {
    exists i :: 0 <= i < |run| && Hears(run[i]) && forall j :: i < j < |run| ==> !Loses(run[j])
  }

  /** Two polls have failed with none answered since the first of them. */
  ghost predicate TwoPollsFailed(run: seq<Action>) {
    exists i, j :: 0 <= i < j < |run| && run[i].PollFails? && run[j].PollFails? && NoneAnswered(run, i)
  }

  /** A poll has failed and none has been answered since. */
  ghost predicate OnePollFailed(run: seq<Action>) {
    exists i :: 0 <= i < |run| && run[i].PollFails? && NoneAnswered(run, i)
  }

  ghost predicate NoneAnswered(run: seq<Action>, i: nat) { forall k :: i < k < |run| ==> !run[k].PollAnswered? }

  predicate Tells(a: Action) { Hears(a) || Loses(a) || a.PollAnswered? || a.PollFails? }

  lemma LastHeardSnoc(run: seq<Action>, a: Action)
    ensures LastHeard(run + [a]) <==> Hears(a) || (LastHeard(run) && !Loses(a))
  {
    var more := run + [a];
    assert more[|run|] == a;
    if Hears(a) { assert Hears(more[|run|]); }
    if LastHeard(run) && !Loses(a) {
      var i :| 0 <= i < |run| && Hears(run[i]) && forall j :: i < j < |run| ==> !Loses(run[j]);
      assert Hears(more[i]);
      forall j | i < j < |more| ensures !Loses(more[j]) { assert j < |run| ==> more[j] == run[j]; }
    }
    if LastHeard(more) && !Hears(a) {
      var i :| 0 <= i < |more| && Hears(more[i]) && forall j :: i < j < |more| ==> !Loses(more[j]);
      assert Hears(run[i]);
      forall j | i < j < |run| ensures !Loses(run[j]) { assert more[j] == run[j]; }
    }
  }

  lemma NoneAnsweredSnoc(run: seq<Action>, a: Action, i: nat)
    requires i < |run|
    ensures NoneAnswered(run + [a], i) <==> NoneAnswered(run, i) && !a.PollAnswered?
  {
    var more := run + [a];
    assert more[|run|] == a;
    if NoneAnswered(more, i) {
      forall k | i < k < |run| ensures !run[k].PollAnswered? { assert more[k] == run[k]; }
      assert !more[|run|].PollAnswered?;
    }
  }

  lemma OnePollFailedSnoc(run: seq<Action>, a: Action)
    ensures OnePollFailed(run + [a]) <==> a.PollFails? || (OnePollFailed(run) && !a.PollAnswered?)
  {
    var more := run + [a];
    if a.PollFails? { assert more[|run|] == a && NoneAnswered(more, |run|); }
    if OnePollFailed(run) && !a.PollAnswered? {
      var i :| 0 <= i < |run| && run[i].PollFails? && NoneAnswered(run, i);
      NoneAnsweredSnoc(run, a, i);
      assert more[i] == run[i];
    }
    if OnePollFailed(more) && !a.PollFails? {
      var i :| 0 <= i < |more| && more[i].PollFails? && NoneAnswered(more, i);
      NoneAnsweredSnoc(run, a, i);
      assert run[i] == more[i];
    }
  }

  lemma TwoPollsFailedSnoc(run: seq<Action>, a: Action)
    ensures TwoPollsFailed(run + [a]) <==>
            if a.PollFails? then OnePollFailed(run) else TwoPollsFailed(run) && !a.PollAnswered?
  {
    var more := run + [a];
    assert more[|run|] == a;
    if a.PollFails? && OnePollFailed(run) {
      var i :| 0 <= i < |run| && run[i].PollFails? && NoneAnswered(run, i);
      NoneAnsweredSnoc(run, a, i);
      assert more[i].PollFails? && more[|run|].PollFails?;
    }
    if TwoPollsFailed(run) && !a.PollAnswered? {
      var i, j :| 0 <= i < j < |run| && run[i].PollFails? && run[j].PollFails? && NoneAnswered(run, i);
      NoneAnsweredSnoc(run, a, i);
      assert more[i].PollFails? && more[j].PollFails?;
    }
    if TwoPollsFailed(more) {
      var i, j :| 0 <= i < j < |more| && more[i].PollFails? && more[j].PollFails? && NoneAnswered(more, i);
      NoneAnsweredSnoc(run, a, i);
      assert run[i].PollFails?;
      if j < |run| { assert run[j].PollFails?; }
    }
  }

  lemma TwoIncludesOne(run: seq<Action>)
    ensures TwoPollsFailed(run) ==> OnePollFailed(run)
  {
  }

  lemma StreamMovesHealth(w: World, a: Action)
    requires Enabled(w, a)
    ensures Step(w, a).client.sseOk == if Hears(a) then true else if Loses(a) then false else w.client.sseOk
  {
    if a.PollAnswered? {
      assert AddFresh(w.client, EventsAfter(w.log[..a.upTo], a.poll.since)).sseOk == w.client.sseOk;
    }
  }

  lemma SettingStatusMovesNeither(c: ClientState)
    ensures ComputeStatus(c).sseOk == c.sseOk && ComputeStatus(c).pollFailures == c.pollFailures
  {
  }

  lemma LineMovesNoFailures(c: ClientState, line: Line)
    ensures OnMessage(c, line).pollFailures == c.pollFailures
    ensures OnMessage(c, line).sseOk == if line.Ping? then c.sseOk else true
  {
    if line.Parsed? { SettingStatusMovesNeither(AddFresh(c.(sseOk := true), [line.event])); }
  }

  lemma PollsMoveFailures(w: World, a: Action)
    requires Enabled(w, a)
    ensures Step(w, a).client.pollFailures ==
            if a.PollAnswered? then 0 else if a.PollFails? then w.client.pollFailures + 1 else w.client.pollFailures
  {
    match a
    case StreamWritesNext => LineMovesNoFailures(w.client, Parsed(w.log[w.stream.value.pos]));
    case StreamRepeats => LineMovesNoFailures(w.client, Parsed(w.log[w.stream.value.pos - 1]));
    case PollAnswered(p, n) =>
      var events := EventsAfter(w.log[..n], p.since);
      SettingStatusMovesNeither(AddFresh(w.client, events).(pollFailures := 0));
    case _ =>
  }

  /** The closure's two variables, read off the run. */
  lemma {:induction false} VariablesTell(available: bool, log: seq<Event>, run: seq<Action>)
    requires After(Start(available, log), run).Some?
    ensures var c := After(Start(available, log), run).value.client;
            && (c.sseOk <==> LastHeard(run))
            && (c.pollFailures >= 1 <==> OnePollFailed(run))
            && (c.pollFailures >= 2 <==> TwoPollsFailed(run))
  {
    if run != [] {
      var w, a := After(Start(available, log), Front(run)).value, Last(run);
      EndsWithLast(run);
      VariablesTell(available, log, Front(run));
      StreamMovesHealth(w, a);
      PollsMoveFailures(w, a);
      LastHeardSnoc(Front(run), a);
      OnePollFailedSnoc(Front(run), a);
      TwoPollsFailedSnoc(Front(run), a);
    }
  }

  /** Over every run, while subscribed: the status last reported is "live" exactly when the latest word from
      the stream was a sign of life, and otherwise "offline" exactly when two polls have failed with none
      answered since. */
  lemma StatusTellsTheRun(available: bool, log: seq<Event>, run: seq<Action>)
    requires Numbered(log) && After(Start(available, log), run).Some?
    ensures var c := After(Start(available, log), run).value.client;
            !c.stopped && c.reports != [] ==>
              && (Last(c.reports) == Live <==> LastHeard(run))
              && (Last(c.reports) == Offline <==> !LastHeard(run) && TwoPollsFailed(run))
              && (Last(c.reports) == Reconnecting <==> !LastHeard(run) && !TwoPollsFailed(run))
  {
    EveryRunIsControlled(available, log, run);
    VariablesTell(available, log, run);
  }

  predicate KnowsItsReports(c: ClientState) { c.lastStatus.Some? ==> c.reports != [] }

  lemma TellingReports(c: ClientState)
    requires !c.stopped && KnowsItsReports(c)
    ensures ComputeStatus(c).reports != []
  {
  }

  lemma FreshEventsReportNothing(c: ClientState, events: seq<Event>)
    ensures var d := AddFresh(c, events);
            d.stopped == c.stopped && d.lastStatus == c.lastStatus && d.reports == c.reports
  {
  }

  lemma AnswerReports(c: ClientState, events: seq<Event>)
    requires KnowsItsReports(c) && !OnPollAnswer(c, events).stopped
    ensures !c.stopped && OnPollAnswer(c, events).reports != []
  {
    FreshEventsReportNothing(c, events);
    TellingReports(AddFresh(c, events).(pollFailures := 0));
  }

  lemma LineReports(c: ClientState, line: Line)
    requires KnowsItsReports(c) && !OnMessage(c, line).stopped && !line.Ping?
    ensures !c.stopped && OnMessage(c, line).reports != []
  {
    var d := c.(sseOk := true);
    if line.Malformed? {
      TellingReports(d);
    } else {
      FreshEventsReportNothing(d, [line.event]);
      TellingReports(AddFresh(d, [line.event]));
    }
  }

  lemma TellingStepReports(w: World, a: Action)
    requires KnowsItsReports(w.client) && Enabled(w, a) && !Step(w, a).client.stopped && Tells(a)
    ensures !w.client.stopped && Step(w, a).client.reports != []
  {
    match a
    case StreamWritesNext => LineReports(w.client, Parsed(w.log[w.stream.value.pos]));
    case StreamRepeats => LineReports(w.client, Parsed(w.log[w.stream.value.pos - 1]));
    case StreamGarbles => LineReports(w.client, Malformed);
    case PollAnswered(p, n) => AnswerReports(w.client, EventsAfter(w.log[..n], p.since));
    case _ =>
  }

  lemma SilentStepReportsNothing(w: World, a: Action)
    requires Enabled(w, a) && !Step(w, a).client.stopped && !Tells(a)
    ensures !w.client.stopped && Step(w, a).client.reports == w.client.reports
  {
  }

  /** ... and something has been reported exactly when the stream or a poll has had anything to tell. */
  lemma {:induction false} ReportsOnceTold(available: bool, log: seq<Event>, run: seq<Action>)
    requires Numbered(log) && After(Start(available, log), run).Some?
    requires !After(Start(available, log), run).value.client.stopped
    ensures After(Start(available, log), run).value.client.reports != [] <==>
            exists i :: 0 <= i < |run| && Tells(run[i])
  {
    if run != [] {
      var w, a := After(Start(available, log), Front(run)).value, run[|run| - 1];
      EveryRunIsControlled(available, log, Front(run));
      if Tells(a) { TellingStepReports(w, a); } else { SilentStepReportsNothing(w, a); }
      ReportsOnceTold(available, log, Front(run));
      if i :| 0 <= i < |Front(run)| && Tells(Front(run)[i]) { assert Tells(run[i]); }
      if i :| 0 <= i < |run| && Tells(run[i]) { assert i < |run| - 1 ==> Tells(Front(run)[i]); }
    }
  }

  lemma AddFreshHandsSome(c: ClientState, events: seq<Event>)
    requires forall i :: 0 <= i < |c.batches| ==> c.batches[i] != []
    ensures forall i :: 0 <= i < |AddFresh(c, events).batches| ==> AddFresh(c, events).batches[i] != []
  {
  }

  lemma StepHandsSome(w: World, a: Action)
    requires Enabled(w, a) && forall i :: 0 <= i < |w.client.batches| ==> w.client.batches[i] != []
    ensures forall i :: 0 <= i < |Step(w, a).client.batches| ==> Step(w, a).client.batches[i] != []
  {
    if LineOf(w, a).Some? {
      HandsOver(w, a);
      var e := w.log[LineOf(w, a).value];
      AddFreshHandsSome(w.client.(sseOk := true), [e]);
      assert Step(w, a).client.batches == AddFresh(w.client.(sseOk := true), [e]).batches;
    } else if a.PollAnswered? {
      AddFreshHandsSome(w.client, EventsAfter(w.log[..a.upTo], a.poll.since));
    } else if !a.Append? {
      NothingDelivered(w, a);
    }
  }

  /** onEvents is never called with nothing. */
  lemma {:induction false} NoEmptyBatch(available: bool, log: seq<Event>, run: seq<Action>)
    requires After(Start(available, log), run).Some?
    ensures var batches := After(Start(available, log), run).value.client.batches;
            forall i :: 0 <= i < |batches| ==> batches[i] != []
  {
    if run != [] {
      NoEmptyBatch(available, log, Front(run));
      StepHandsSome(After(Start(available, log), Front(run)).value, Last(run));
    }
  }

  // ----- a lost line, twice

  /** Two events, both lines due; the first is lost and the second arrives. */
  function LosingRun(a: Event, b: Event): seq<Action> { [Append(a), Append(b), StreamSkips, StreamWritesNext] }

  /** The same, but a poll is answered in between. */
  function HealedRun(a: Event, b: Event): seq<Action> {
    [Append(a), Append(b), StreamSkips, PollSent, PollAnswered(Poll(-1, 2), 2), StreamWritesNext]
  }

  lemma TwoAppended(a: Event, b: Event)
    requires Numbered([a, b])
    ensures After(Start(true, []), [Append(a), Append(b)]) == Some(Start(true, []).(log := [a, b]))
  {
    var w := Start(true, []);
    assert InSequence([a, b][0], [a, b][1]) && Numbered([a]);
    assert [] + [Append(a)] == [Append(a)] && [Append(a)] + [Append(b)] == [Append(a), Append(b)];
    assert w.log + [a] == [a] && [a] + [b] == [a, b];
    AfterSnoc(w, [], Append(a));
    AfterSnoc(w, [Append(a)], Append(b));
  }

  lemma ThenSkipped(a: Event, b: Event)
    requires Numbered([a, b])
    ensures After(Start(true, []), [Append(a), Append(b), StreamSkips]) ==
            Some(Start(true, []).(log := [a, b], stream := Some(Stream(-1, 1))))
  {
    TwoAppended(a, b);
    assert [Append(a), Append(b)] + [StreamSkips] == [Append(a), Append(b), StreamSkips];
    AfterSnoc(Start(true, []), [Append(a), Append(b)], StreamSkips);
  }

  /** A lost line can break delivery: this run is possible, and leaves a gap. */
  lemma LosingRunLeavesGap(a: Event, b: Event)
    requires Numbered([a, b])
    ensures var w := After(Start(true, []), LosingRun(a, b));
            w.Some? && !(Delivered(w.value.client) <= w.value.log)
  {
    var start, run := Start(true, []), [Append(a), Append(b), StreamSkips];
    ThenSkipped(a, b);
    assert LosingRun(a, b) == run + [StreamWritesNext];
    AfterSnoc(start, run, StreamWritesNext);
    Joins(run, StreamWritesNext);
    DeliveryIsPrefixIff(true, [], LosingRun(a, b));
  }

  lemma {:induction false} NoLineIsInTime(w: World, run: seq<Action>)
    requires After(w, run).Some?
    requires forall i :: 0 <= i < |run| ==> !run[i].StreamWritesNext? && !run[i].StreamRepeats?
    ensures LinesInTime(w, run)
  {
    if run != [] {
      var last := run[|run| - 1];
      NoLineIsInTime(w, Front(run));
      assert LineOf(After(w, Front(run)).value, last).None?;
    }
  }

  function Polled(a: Event, b: Event): World {
    Start(true, []).(log := [a, b], stream := Some(Stream(-1, 1)), polls := multiset{Poll(-1, 2)})
  }

  lemma ThenPolled(a: Event, b: Event)
    requires Numbered([a, b])
    ensures After(Start(true, []), [Append(a), Append(b), StreamSkips, PollSent]) == Some(Polled(a, b))
    ensures Safe(Polled(a, b))
  {
    var run := [Append(a), Append(b), StreamSkips];
    ThenSkipped(a, b);
    assert run + [PollSent] == [Append(a), Append(b), StreamSkips, PollSent];
    AfterSnoc(Start(true, []), run, PollSent);
    var none: multiset<Poll> := multiset{};
    assert none + multiset{Poll(-1, 2)} == multiset{Poll(-1, 2)};
    NoLineIsInTime(Start(true, []), run + [PollSent]);
    EveryRunIsSafe(true, [], run + [PollSent]);
  }

  lemma AnswerLeavesStream(w: World, p: Poll, n: nat)
    requires Enabled(w, PollAnswered(p, n))
    ensures var v := Step(w, PollAnswered(p, n));
            v.log == w.log && v.stream == w.stream
  {
  }

  lemma LineAtEnd(w: World)
    requires Safe(w) && Enabled(w, StreamWritesNext) && |Delivered(w.client)| == |w.log|
    ensures Delivered(Step(w, StreamWritesNext).client) == w.log
  {
    LineDelivers(w, StreamWritesNext);
    assert w.log[..|w.log|] == w.log;
  }

  lemma AnswerHeals(w: World, p: Poll)
    requires Safe(w) && Enabled(w, PollAnswered(p, |w.log|)) && w.stream.Some? && w.stream.value.pos < |w.log|
    ensures var v := Step(w, PollAnswered(p, |w.log|));
            Enabled(v, StreamWritesNext) && Delivered(Step(v, StreamWritesNext).client) == w.log
  {
    PollDelivers(w, p, |w.log|);
    AnswerLeavesStream(w, p, |w.log|);
    StepKeeps(w, PollAnswered(p, |w.log|));
    LineAtEnd(Step(w, PollAnswered(p, |w.log|)));
  }

  /** ... and need not: a poll answered in time makes up for it. */
  lemma HealedRunLeavesNone(a: Event, b: Event)
    requires Numbered([a, b])
    ensures var w := After(Start(true, []), HealedRun(a, b));
            w.Some? && Delivered(w.value.client) == [a, b]
  {
    var start, run := Start(true, []), [Append(a), Append(b), StreamSkips, PollSent];
    var answer := PollAnswered(Poll(-1, 2), 2);
    ThenPolled(a, b);
    AnswerHeals(Polled(a, b), Poll(-1, 2));
    AfterSnoc(start, run, answer);
    AfterSnoc(start, run + [answer], StreamWritesNext);
    assert HealedRun(a, b) == run + [answer] + [StreamWritesNext];
  }
}
