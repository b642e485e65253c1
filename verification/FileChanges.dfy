/** `extractFileChangesFromEvents`: the files a transcript really changed. The planned changes of a tool
    call that failed do not count, however late the failure is reported. */
module FileChanges {
  import opened Sequences
  import opened Events
  import opened Text

  datatype FileChange = FileChange(
    path: string, operation: Option<string>, additions: Option<int>, deletions: Option<int>)

  // ----- one record

  function PathOf(raw: RawChange): string {
    Trim(Slashed(if raw.path.Some? then raw.path.value
                 else if raw.file.Some? then raw.file.value
                 else if raw.relativePath.Some? then raw.relativePath.value else ""))
  }

  function RecordOf(raw: RawChange): FileChange {
    FileChange(PathOf(raw),
               if raw.operation != "" then Some(raw.operation)
               else if raw.eventType != "" then Some(raw.eventType) else None,
               raw.additions, raw.deletions)
  }

  function Lower(s: string): string {
    Map((c: char) => if 'A' <= c <= 'Z' then (c as int + 32) as char else c, s)
  }

  predicate OccursAt(s: string, pattern: string, i: int) {
    0 <= i <= |s| - |pattern| && s[i..i + |pattern|] == pattern
  }

  predicate Contains(s: string, pattern: string) {
    exists i :: 0 <= i <= |s| && OccursAt(s, pattern, i)
  }

  predicate IsRuntimeInternal(path: string) {
    var p := Lower(Slashed(path));
    p == ".asteria" || ".asteria/" <= p || Contains(p, "/.asteria/")
  }

  predicate Reviewable(path: string) { path != "" && !IsRuntimeInternal(path) }

  // ----- the whole transcript

  predicate Fails(e: Event) { e.status == Failed || (e.data.Some? && e.data.value.okIsFalse) }

  function FailedCalls(events: seq<Event>): set<string> {
    set e | e in events && e.toolCall != "" && Fails(e) :: e.toolCall
  }

  function Survives(failed: set<string>): Event -> bool {
    (e: Event) => e.toolCall == "" || e.toolCall !in failed
  }

  function RefChange(ref: string): RawChange { RawChange(Some(ref), None, None, "", "", None, None) }

  /** The records one event offers, in order; None is the TypeError of reading a `file_changed` event that
      has no data. */
  function Offered(e: Event): Option<seq<RawChange>> {
    if e.etype != FileChanged then Some(e.fileChanges)
    else if e.data.None? then None
    else Some(e.fileChanges + [e.data.value.record] + Map((r: string) => RefChange(r), e.artifactRefs))
  }

  function AllOffered(events: seq<Event>): Option<seq<RawChange>> {
    if events == [] then Some([])
    else
      match (AllOffered(Front(events)), Offered(Last(events)))
      case (Some(a), Some(b)) => Some(a + b)
      case _ => None
  }

  predicate Listed(changes: seq<FileChange>, path: string) {
    exists k :: 0 <= k < |changes| && changes[k].path == path
  }

  function Push(changes: seq<FileChange>, raw: RawChange): seq<FileChange> {
    if !Reviewable(PathOf(raw)) || Listed(changes, PathOf(raw)) then changes else changes + [RecordOf(raw)]
  }

  function PushAll(changes: seq<FileChange>, raws: seq<RawChange>): seq<FileChange> {
    if raws == [] then changes else Push(PushAll(changes, Front(raws)), Last(raws))
  }

  function Extract(events: seq<Event>): Option<seq<FileChange>> {
    var offered := AllOffered(Filter(Survives(FailedCalls(events)), events));
    if offered.Some? then Some(PushAll([], offered.value)) else None
  }

  // ----- failure erases retroactively

  /** Extraction sees a transcript exactly as if every event of every failed call had been deleted. */
  lemma FailureErases(events: seq<Event>)
    ensures Extract(events) == Extract(Filter(Survives(FailedCalls(events)), events))
  {
    var failed := FailedCalls(events);
    var rest := Filter(Survives(failed), events);
    FilterMembers(Survives(failed), events);
    assert FailedCalls(rest) == {};
    FilterAll(Survives({}), rest);
  }

  function NotOfCall(call: string): Event -> bool { (e: Event) => e.toolCall != call }

  /** A failure report arriving at the end takes back everything its call had announced. */
  lemma LateFailureTakesBack(events: seq<Event>, report: Event)
    requires report.toolCall != "" && Fails(report)
    ensures Extract(events + [report]) == Extract(Filter(NotOfCall(report.toolCall), events))
  {
    var call := report.toolCall;
    var rest := Filter(NotOfCall(call), events);
    var all := FailedCalls(events + [report]);
    FilterMembers(NotOfCall(call), events);
    assert all == FailedCalls(events) + {call};
    assert FailedCalls(rest) == all - {call};
    assert Front(events + [report]) == events;
    assert Filter(Survives(all), events + [report]) == Filter(Survives(all), events);
    FilterTwice(Survives(all - {call}), NotOfCall(call), Survives(all), events);
  }

  /** Every call that has failed by someone's account, as far as these events have it, has failed by theirs. */
  predicate KnowsFailures(events: seq<Event>, failed: set<string>) {
    forall i :: 0 <= i < |events| && events[i].toolCall != "" && events[i].toolCall in failed ==>
                  events[i].toolCall in FailedCalls(events)
  }

  function SurvivorsOwn(events: seq<Event>): seq<Event> { Filter(Survives(FailedCalls(events)), events) }

  lemma {:induction false} SameSurvivors(p: Event -> bool, q: Event -> bool, events: seq<Event>)
    requires forall i :: 0 <= i < |events| ==> p(events[i]) == q(events[i])
    ensures Filter(p, events) == Filter(q, events)
  {
    if events != [] {
      assert p(events[|events| - 1]) == q(events[|events| - 1]);
      SameSurvivors(p, q, Front(events));
    }
  }

  /** Part of a transcript drops exactly what failed anywhere in it exactly when it knows of those failures
      itself; and then its changes are those left when every failure has been erased. */
  lemma PartErasesIff(events: seq<Event>, failed: set<string>)
    requires FailedCalls(events) <= failed
    ensures SurvivorsOwn(events) == Filter(Survives(failed), events) <==> KnowsFailures(events, failed)
    ensures KnowsFailures(events, failed) ==> Extract(events) == Extract(Filter(Survives(failed), events))
  {
    var own := FailedCalls(events);
    if KnowsFailures(events, failed) {
      SameSurvivors(Survives(own), Survives(failed), events);
      FailureErases(events);
    } else {
      var i :| 0 <= i < |events| && events[i].toolCall != "" && events[i].toolCall in failed
               && events[i].toolCall !in own;
      FilterMembers(Survives(own), events);
      FilterMembers(Survives(failed), events);
      assert events[i] in SurvivorsOwn(events) && events[i] !in Filter(Survives(failed), events);
    }
  }

  // ----- the list that comes out

  /** Where in the list of records a path first turns up, or -1. */
  function FirstWith(raws: seq<RawChange>, path: string): (i: int)
    ensures -1 <= i < |raws|
  {
    if raws == [] then -1
    else
      var i := FirstWith(Front(raws), path);
      if i >= 0 then i else if PathOf(Last(raws)) == path then |raws| - 1 else -1
  }

  lemma FirstWithGrows(raws: seq<RawChange>, raw: RawChange, path: string)
    ensures FirstWith(raws + [raw], path) ==
            if FirstWith(raws, path) >= 0 then FirstWith(raws, path)
            else if PathOf(raw) == path then |raws| else -1
  {
    Joins(raws, raw);
  }

  lemma {:induction false} FirstWithIsFirst(raws: seq<RawChange>, path: string, j: nat)
    requires j < |raws|
    ensures var i := FirstWith(raws, path);
            && (i >= 0 ==> PathOf(raws[i]) == path)
            && (PathOf(raws[j]) == path ==> 0 <= i <= j)
  {
    var front, last := Front(raws), raws[|raws| - 1];
    assert raws == front + [last];
    FirstWithGrows(front, last, path);
    if front != [] { FirstWithIsFirst(front, path, if j < |front| then j else 0); }
  }

  /** Each listed change is the record that first named its path; the list is in the order in which the paths
      were first named, and every reviewable path named is on it. */
  ghost predicate FirstSeen(raws: seq<RawChange>, changes: seq<FileChange>) {
    && (forall k :: 0 <= k < |changes| ==> Originates(raws, changes[k]))
    && (forall k, l :: 0 <= k < l < |changes| ==> Earlier(raws, changes[k], changes[l]))
    && (forall i :: 0 <= i < |raws| && Reviewable(PathOf(raws[i])) ==> Listed(changes, PathOf(raws[i])))
  }

  predicate Originates(raws: seq<RawChange>, c: FileChange) {
    var i := FirstWith(raws, c.path);
    0 <= i && Reviewable(c.path) && c == RecordOf(raws[i])
  }

  predicate Earlier(raws: seq<RawChange>, a: FileChange, b: FileChange) {
    a.path != b.path && FirstWith(raws, a.path) < FirstWith(raws, b.path)
  }

  lemma {:induction false} PushedInFirstSeenOrder(raws: seq<RawChange>)
    ensures FirstSeen(raws, PushAll([], raws))
  {
    if raws != [] {
      EndsWithLast(raws);
      PushedInFirstSeenOrder(Front(raws));
      OneMoreRecord(Front(raws), PushAll([], Front(raws)), Last(raws));
    }
  }

  lemma ListedPathWasNamed(raws: seq<RawChange>, changes: seq<FileChange>, path: string)
    requires FirstSeen(raws, changes) && Reviewable(path)
    ensures Listed(changes, path) <==> FirstWith(raws, path) >= 0
  {
    if Listed(changes, path) {
      var k :| 0 <= k < |changes| && changes[k].path == path;
      assert Originates(raws, changes[k]);
    } else if FirstWith(raws, path) >= 0 {
      FirstWithIsFirst(raws, path, FirstWith(raws, path));
    }
  }

  lemma OneMoreRecord(raws: seq<RawChange>, changes: seq<FileChange>, raw: RawChange)
    requires FirstSeen(raws, changes)
    ensures FirstSeen(raws + [raw], Push(changes, raw))
  {
    var after := Push(changes, raw);
    if Reviewable(PathOf(raw)) { ListedPathWasNamed(raws, changes, PathOf(raw)); }
    forall k | 0 <= k < |after| ensures Originates(raws + [raw], after[k]) {
      FirstWithGrows(raws, raw, after[k].path);
      if k < |changes| { assert Originates(raws, changes[k]); }
    }
    forall k, l | 0 <= k < l < |after| ensures Earlier(raws + [raw], after[k], after[l]) {
      FirstWithGrows(raws, raw, after[k].path);
      FirstWithGrows(raws, raw, after[l].path);
      assert Originates(raws, changes[k]);
      if l < |changes| { assert Earlier(raws, changes[k], changes[l]); }
    }
    forall i | 0 <= i < |raws + [raw]| && Reviewable(PathOf((raws + [raw])[i]))
      ensures Listed(after, PathOf((raws + [raw])[i]))
    {
      var path := PathOf((raws + [raw])[i]);
      if Listed(changes, path) {
        var k :| 0 <= k < |changes| && changes[k].path == path;
        assert after[k].path == path;
      } else {
        assert i == |raws| && after[|changes|].path == path;
      }
    }
  }

  // ----- the loops

  ghost predicate SeenPaths(seen: set<string>, changes: seq<FileChange>) {
    forall p :: p in seen <==> Listed(changes, p)
  }

  /** The `push` closure, over the two collections it shares. */
  method PushOne(seen: set<string>, changes: seq<FileChange>, raw: RawChange)
    returns (seen': set<string>, changes': seq<FileChange>)
    requires SeenPaths(seen, changes)
    ensures changes' == Push(changes, raw) && SeenPaths(seen', changes')
  {
    seen', changes' := seen, changes;
    var path := PathOf(raw);
    if path == "" || path in seen { return; }
    if IsRuntimeInternal(path) { return; }
    seen', changes' := seen + {path}, changes + [RecordOf(raw)];
    forall p ensures p in seen' <==> Listed(changes', p) {
      if p == path { assert changes'[|changes|].path == p; }
      if Listed(changes, p) {
        var k :| 0 <= k < |changes| && changes[k].path == p;
        assert changes'[k].path == p;
      }
    }
  }

  method PushEach(seen: set<string>, changes: seq<FileChange>, raws: seq<RawChange>)
    returns (seen': set<string>, changes': seq<FileChange>)
    requires SeenPaths(seen, changes)
    ensures changes' == PushAll(changes, raws) && SeenPaths(seen', changes')
  {
    seen', changes' := seen, changes;
    for i := 0 to |raws|
      invariant changes' == PushAll(changes, raws[..i]) && SeenPaths(seen', changes')
    {
      assert Front(raws[..i + 1]) == raws[..i];
      seen', changes' := PushOne(seen', changes', raws[i]);
    }
    assert raws[..|raws|] == raws;
  }

  method CollectFailedCalls(events: seq<Event>) returns (failed: set<string>)
    ensures failed == FailedCalls(events)
  {
    failed := {};
    for i := 0 to |events|
      invariant failed == FailedCalls(events[..i])
    {
      assert events[..i + 1] == events[..i] + [events[i]];
      var event := events[i];
      if event.toolCall == "" || event.toolCall in failed { continue; }
      if Fails(event) { failed := failed + {event.toolCall}; }
    }
    assert events[..|events|] == events;
  }

  lemma {:induction false} PushAllConcat(changes: seq<FileChange>, a: seq<RawChange>, b: seq<RawChange>)
    ensures PushAll(changes, a + b) == PushAll(PushAll(changes, a), b)
  {
    if b == [] {
      assert a + b == a;
    } else {
      assert Front(a + b) == a + Front(b) && Last(a + b) == Last(b);
      PushAllConcat(changes, a, Front(b));
    }
  }

  lemma OfferGrows(events: seq<Event>, e: Event)
    ensures AllOffered(events + [e]) ==
            match (AllOffered(events), Offered(e))
            case (Some(a), Some(b)) => Some(a + b)
            case _ => None
  {
    Joins(events, e);
  }

  lemma {:induction false} OfferFails(p: Event -> bool, events: seq<Event>, i: nat)
    requires i <= |events| && AllOffered(Filter(p, events[..i])).None?
    ensures AllOffered(Filter(p, events)).None?
    decreases |events| - i
  {
    if i == |events| {
      assert events[..i] == events;
    } else {
      TakeOneMore(events, i);
      FilterSnoc(p, events[..i], events[i]);
      OfferGrows(Filter(p, events[..i]), events[i]);
      OfferFails(p, events, i + 1);
    }
  }

  /** The body of the second loop; `ok` is false where the source throws. */
  method PushEvent(seen: set<string>, changes: seq<FileChange>, event: Event)
    returns (ok: bool, seen': set<string>, changes': seq<FileChange>)
    requires SeenPaths(seen, changes)
    ensures ok == Offered(event).Some?
    ensures ok ==> changes' == PushAll(changes, Offered(event).value) && SeenPaths(seen', changes')
  {
    ok := true;
    seen', changes' := PushEach(seen, changes, event.fileChanges);
    if event.etype == FileChanged {
      if event.data.None? { return false, seen', changes'; }
      var record := event.data.value.record;
      var refs := Map((ref: string) => RefChange(ref), event.artifactRefs);
      PushAllConcat(changes, event.fileChanges + [record], refs);
      assert Front(event.fileChanges + [record]) == event.fileChanges;
      seen', changes' := PushOne(seen', changes', record);
      seen', changes' := PushEach(seen', changes', refs);
    }
  }

  method ExtractFileChangesFromEvents(events: seq<Event>) returns (r: Option<seq<FileChange>>)
    ensures r == Extract(events)
  {
    var failed := CollectFailedCalls(events);
    ghost var p, raws := Survives(failed), [];
    var seen, changes := {}, [];
    for i := 0 to |events|
      invariant AllOffered(Filter(p, events[..i])) == Some(raws)
      invariant changes == PushAll([], raws) && SeenPaths(seen, changes)
    {
      TakeOneMore(events, i);
      FilterSnoc(p, events[..i], events[i]);
      if events[i].toolCall != "" && events[i].toolCall in failed { continue; }
      OfferGrows(Filter(p, events[..i]), events[i]);
      var ok;
      ok, seen, changes := PushEvent(seen, changes, events[i]);
      if !ok {
        OfferFails(p, events, i + 1);
        return None;
      }
      PushAllConcat([], raws, Offered(events[i]).value);
      raws := raws + Offered(events[i]).value;
    }
    assert events[..|events|] == events;
    return Some(changes);
  }

  /** `extractFileChangesFromSteps`, on the event lists of the steps. */
  function ExtractFromGroups(groups: seq<seq<Event>>): Option<seq<FileChange>> { Extract(Flatten(groups)) }

  // ----- what the internal-path test means

  /** Where the first slash is, or the length. */
  function FirstSlash(s: string): (j: nat)
    ensures j <= |s|
    ensures j < |s| ==> s[j] == '/'
    ensures forall i :: 0 <= i < j ==> s[i] != '/'
  {
    if s == "" || s[0] == '/' then 0 else 1 + FirstSlash(s[1..])
  }

  /** The parts of a path between its slashes. */
  function Components(s: string): (parts: seq<string>)
    ensures parts != []
    decreases |s|
  {
    var j := FirstSlash(s);
    if j == |s| then [s] else [s[..j]] + Components(s[j + 1..])
  }

  predicate NoSlash(name: string) { forall k :: 0 <= k < |name| ==> name[k] != '/' }

  /** Some part but the last is this name. */
  ghost predicate PassesThrough(parts: seq<string>, name: string) {
    exists k :: 0 <= k < |parts| - 1 && parts[k] == name
  }

  /** A part of s that is this name starts at i and is closed by a slash. */
  predicate PartAt(s: string, name: string, i: nat) {
    && i + |name| < |s|
    && (i == 0 || s[i - 1] == '/')
    && s[i..i + |name|] == name
    && s[i + |name|] == '/'
  }

  lemma FirstPart(s: string, name: string)
    requires NoSlash(name) && FirstSlash(s) < |s|
    ensures PartAt(s, name, 0) <==> s[..FirstSlash(s)] == name
  {
    if PartAt(s, name, 0) {
      forall k | 0 <= k < |name| ensures s[k] != '/' {
        assert s[0..|name|][k] == name[k];
      }
    }
  }

  lemma PartInTail(s: string, name: string, d: nat, i: nat)
    requires 0 < d <= i && d <= |s| && s[d - 1] == '/'
    ensures PartAt(s, name, i) <==> PartAt(s[d..], name, i - d)
  {
    var t := s[d..];
    if i + |name| < |s| {
      assert t[i - d..i - d + |name|] == s[i..i + |name|];
      assert t[i - d + |name|] == s[i + |name|];
      assert i > d ==> t[i - d - 1] == s[i - 1];
    }
  }

  lemma NoPartBeforeSlash(s: string, name: string, i: nat)
    requires 0 < i <= FirstSlash(s)
    ensures !PartAt(s, name, i)
  {
  }

  lemma PassesFurther(head: string, rest: seq<string>, name: string)
    requires rest != []
    ensures PassesThrough([head] + rest, name) <==> head == name || PassesThrough(rest, name)
  {
    var parts := [head] + rest;
    if head == name { assert parts[0] == name; }
    if k :| 0 <= k < |rest| - 1 && rest[k] == name { assert parts[k + 1] == name; }
    if k :| 0 <= k < |parts| - 1 && parts[k] == name {
      assert k > 0 ==> rest[k - 1] == name;
    }
  }

  ghost predicate HasPart(s: string, name: string) { exists i: nat :: PartAt(s, name, i) }

  lemma PartFurtherOn(s: string, name: string)
    requires FirstSlash(s) < |s|
    ensures HasPart(s, name) ==> PartAt(s, name, 0) || HasPart(s[FirstSlash(s) + 1..], name)
  {
    var j := FirstSlash(s);
    if i: nat :| PartAt(s, name, i) && i > 0 {
      if i <= j { NoPartBeforeSlash(s, name, i); }
      PartInTail(s, name, j + 1, i);
    }
  }

  lemma PartOfTail(s: string, name: string, d: nat)
    requires 0 < d <= |s| && s[d - 1] == '/' && HasPart(s[d..], name)
    ensures HasPart(s, name)
  {
    var tail := s[d..];
    var i: nat :| PartAt(tail, name, i);
    PartInTail(s, name, d, i + d);
  }

  lemma NoPartWithoutSlash(s: string, name: string)
    requires FirstSlash(s) == |s|
    ensures !HasPart(s, name) && !PassesThrough(Components(s), name)
  {
  }

  lemma PartsDown(s: string, name: string)
    requires NoSlash(name) && FirstSlash(s) < |s| && HasPart(s, name)
    ensures s[..FirstSlash(s)] == name || HasPart(s[FirstSlash(s) + 1..], name)
  {
    FirstPart(s, name);
    PartFurtherOn(s, name);
  }

  lemma HeadIsPart(s: string, name: string)
    requires NoSlash(name) && FirstSlash(s) < |s| && s[..FirstSlash(s)] == name
    ensures HasPart(s, name)
  {
    FirstPart(s, name);
  }

  lemma PartsStep(s: string, name: string)
    requires NoSlash(name) && FirstSlash(s) < |s|
    ensures HasPart(s, name) <==> s[..FirstSlash(s)] == name || HasPart(s[FirstSlash(s) + 1..], name)
  {
    if HasPart(s, name) { PartsDown(s, name); }
    if s[..FirstSlash(s)] == name { HeadIsPart(s, name); }
    if HasPart(s[FirstSlash(s) + 1..], name) { PartOfTail(s, name, FirstSlash(s) + 1); }
  }

  lemma ComponentsStep(s: string, tail: string)
    requires FirstSlash(s) < |s| && tail == s[FirstSlash(s) + 1..]
    ensures Components(s) == [s[..FirstSlash(s)]] + Components(tail)
  {
  }

  lemma {:induction false} PartsIff(s: string, name: string)
    requires NoSlash(name)
    ensures HasPart(s, name) <==> PassesThrough(Components(s), name)
    decreases |s|
  {
    if FirstSlash(s) == |s| {
      NoPartWithoutSlash(s, name);
    } else {
      var tail := s[FirstSlash(s) + 1..];
      PartsStep(s, name);
      ComponentsStep(s, tail);
      PassesFurther(s[..FirstSlash(s)], Components(tail), name);
      PartsIff(tail, name);
    }
  }

  const ROOT := ".asteria"

  /** The two substring tests together find exactly the parts named so. */
  lemma SubstringTestsFindParts(p: string)
    ensures HasPart(p, ROOT) <==> (".asteria/" <= p || Contains(p, "/.asteria/"))
  {
    assert ROOT + "/" == ".asteria/" && "/" + ROOT + "/" == "/.asteria/";
    PrefixIsPart(p, ROOT);
    forall i | 0 <= i <= |p| ensures OccursAt(p, "/" + ROOT + "/", i) ==> PartAt(p, ROOT, i + 1) {
      OccurrenceIsPart(p, ROOT, i);
    }
    if i: nat :| PartAt(p, ROOT, i) {
      if i > 0 {
        OccurrenceIsPart(p, ROOT, i - 1);
        assert OccursAt(p, "/" + ROOT + "/", i - 1);
      }
    }
  }

  lemma PrefixIsPart(p: string, name: string)
    ensures name + "/" <= p <==> PartAt(p, name, 0)
  {
    if name + "/" <= p {
      assert p[..|name| + 1] == name + "/" && p[0..|name|] == (name + "/")[..|name|];
      assert p[|name|] == (name + "/")[|name|];
    }
    if PartAt(p, name, 0) {
      assert p[..|name| + 1] == p[0..|name|] + [p[|name|]];
    }
  }

  lemma OccurrenceIsPart(p: string, name: string, i: nat)
    requires i <= |p|
    ensures OccursAt(p, "/" + name + "/", i) <==> PartAt(p, name, i + 1) && p[i] == '/'
  {
    var pattern := "/" + name + "/";
    if i + |pattern| <= |p| {
      var w := p[i..i + |pattern|];
      assert w == [p[i]] + p[i + 1..i + 1 + |name|] + [p[i + 1 + |name|]];
      assert pattern[1..|name| + 1] == name && w[1..|name| + 1] == p[i + 1..i + 1 + |name|];
      assert pattern[0] == '/' && pattern[|name| + 1] == '/';
      assert w[0] == p[i] && w[|name| + 1] == p[i + 1 + |name|];
    }
  }

  /** The internal-path test, exactly: `.asteria` itself, or a path one of whose parts other than the last
      is `.asteria` in any letter case. A last part of that name further down does not count. */
  lemma RuntimeInternalIff(path: string)
    ensures IsRuntimeInternal(path) <==>
              Lower(Slashed(path)) == ROOT || PassesThrough(Components(Lower(Slashed(path))), ROOT)
  {
    SubstringTestsFindParts(Lower(Slashed(path)));
    PartsIff(Lower(Slashed(path)), ROOT);
  }

  /** A nested `.asteria` at the end of a path is not taken for the runtime's own. */
  lemma NestedRootIsNotInternal()
    ensures !IsRuntimeInternal("src/.asteria")
  {
    var p := "src/.asteria";
    assert Lower(Slashed(p)) == p;
    assert p[0] != ".asteria/"[0];
    forall i | 0 <= i <= |p| ensures !OccursAt(p, "/.asteria/", i) {
      if i + 10 <= |p| {
        assert p[i] != '/';
        assert p[i..i + 10][0] != "/.asteria/"[0];
      }
    }
  }
}
