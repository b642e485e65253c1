/** What the extracted list of file changes says, in terms of the transcript alone. */
module FileReading {
  import opened Sequences
  import opened Events
  import opened FileChanges
  import Text

  /** The path a record names: the first of its three path fields there is, with forward slashes, trimmed. */
  ghost predicate NamesPath(raw: RawChange, p: string) {
    if raw.path.Some? then p == Text.Trim(Text.Slashed(raw.path.value))
    else if raw.file.Some? then p == Text.Trim(Text.Slashed(raw.file.value))
    else if raw.relativePath.Some? then p == Text.Trim(Text.Slashed(raw.relativePath.value))
    else p == ""
  }

  /** An event names the paths of its file changes, and a file-changed event also that of its data and those
      it refers to. */
  ghost predicate Names(e: Event, p: string) {
    || (exists i :: 0 <= i < |e.fileChanges| && NamesPath(e.fileChanges[i], p))
    || (e.etype == FileChanged
        && ((e.data.Some? && NamesPath(e.data.value.record, p))
            || exists i :: 0 <= i < |e.artifactRefs| && p == Text.Trim(Text.Slashed(e.artifactRefs[i]))))
  }

  /** Some event of the transcript reports that the call of e failed. */
  ghost predicate CallFails(events: seq<Event>, e: Event) {
    && e.toolCall != ""
    && exists i :: 0 <= i < |events| && ReportsFailure(events[i], e.toolCall)
  }

  predicate ReportsFailure(x: Event, call: string) {
    x.toolCall == call && (x.status == Failed || (x.data.Some? && x.data.value.okIsFalse))
  }

  lemma PathOfNames(raw: RawChange, p: string)
    ensures NamesPath(raw, p) <==> PathOf(raw) == p
  {
    assert Text.Slashed("") == "" && Text.Trim("") == "";
  }

  lemma FailedIffReported(events: seq<Event>, e: Event)
    ensures Survives(FailedCalls(events))(e) <==> !CallFails(events, e)
  {
    if e.toolCall in FailedCalls(events) {
      var x :| x in events && x.toolCall != "" && Fails(x) && x.toolCall == e.toolCall;
      var i :| 0 <= i < |events| && events[i] == x;
      assert ReportsFailure(events[i], e.toolCall);
    }
    if CallFails(events, e) {
      var i :| 0 <= i < |events| && ReportsFailure(events[i], e.toolCall);
      assert events[i] in events && Fails(events[i]);
    }
  }

  lemma RefNames(ref: string, p: string)
    ensures PathOf(RefChange(ref)) == p <==> p == Text.Trim(Text.Slashed(ref))
  {
    PathOfNames(RefChange(ref), p);
  }

  ghost predicate SomeNames(raws: seq<RawChange>, p: string) { exists i :: 0 <= i < |raws| && PathOf(raws[i]) == p }

  lemma SomeNamesConcat(a: seq<RawChange>, b: seq<RawChange>, p: string)
    ensures SomeNames(a + b, p) <==> SomeNames(a, p) || SomeNames(b, p)
  {
    var both := a + b;
    if i :| 0 <= i < |a| && PathOf(a[i]) == p { assert PathOf(both[i]) == p; }
    if i :| 0 <= i < |b| && PathOf(b[i]) == p { assert PathOf(both[|a| + i]) == p; }
    if i :| 0 <= i < |both| && PathOf(both[i]) == p {
      if i < |a| { assert PathOf(a[i]) == p; } else { assert PathOf(b[i - |a|]) == p; }
    }
  }

  lemma ChangesName(raws: seq<RawChange>, p: string)
    ensures SomeNames(raws, p) <==> exists i :: 0 <= i < |raws| && NamesPath(raws[i], p)
  {
    if i :| 0 <= i < |raws| && PathOf(raws[i]) == p { PathOfNames(raws[i], p); }
    if i :| 0 <= i < |raws| && NamesPath(raws[i], p) { PathOfNames(raws[i], p); }
  }

  lemma RefsName(refs: seq<string>, p: string)
    ensures SomeNames(Map((r: string) => RefChange(r), refs), p) <==>
            exists i :: 0 <= i < |refs| && p == Text.Trim(Text.Slashed(refs[i]))
  {
    var raws := Map((r: string) => RefChange(r), refs);
    if i :| 0 <= i < |raws| && PathOf(raws[i]) == p { RefNames(refs[i], p); }
    if i :| 0 <= i < |refs| && p == Text.Trim(Text.Slashed(refs[i])) {
      RefNames(refs[i], p);
      assert PathOf(raws[i]) == p;
    }
  }

  lemma OfferNames(e: Event, p: string)
    requires Offered(e).Some?
    ensures SomeNames(Offered(e).value, p) <==> Names(e, p)
  {
    ChangesName(e.fileChanges, p);
    if e.etype == FileChanged {
      var record, refs := e.data.value.record, Map((r: string) => RefChange(r), e.artifactRefs);
      SomeNamesConcat(e.fileChanges + [record], refs, p);
      SomeNamesConcat(e.fileChanges, [record], p);
      RefsName(e.artifactRefs, p);
      PathOfNames(record, p);
      assert SomeNames([record], p) <==> PathOf(record) == p by {
        if PathOf(record) == p { assert PathOf([record][0]) == p; }
      }
    }
  }

  lemma {:induction false} AllOfferNames(events: seq<Event>, p: string)
    requires AllOffered(events).Some?
    ensures SomeNames(AllOffered(events).value, p) <==> exists e :: e in events && Names(e, p)
  {
    if events != [] {
      var front, last := Front(events), Last(events);
      EndsWithLast(events);
      AllOfferNames(front, p);
      OfferNames(last, p);
      SomeNamesConcat(AllOffered(front).value, Offered(last).value, p);
    }
  }

  lemma {:induction false} OffersThrowIff(events: seq<Event>)
    ensures AllOffered(events).None? <==> exists e :: e in events && e.etype == FileChanged && e.data.None?
  {
    if events != [] {
      EndsWithLast(events);
      OffersThrowIff(Front(events));
    }
  }

  /** The extraction throws exactly when a file-changed event has no data, unless its call failed. */
  lemma ThrowsIff(events: seq<Event>)
    ensures Extract(events).None? <==>
            exists e :: e in events && e.etype == FileChanged && e.data.None? && !CallFails(events, e)
  {
    var p := Survives(FailedCalls(events));
    FilterMembers(p, events);
    OffersThrowIff(Filter(p, events));
    forall e ensures p(e) <==> !CallFails(events, e) { FailedIffReported(events, e); }
  }

  lemma FirstWithFinds(raws: seq<RawChange>, p: string)
    ensures FirstWith(raws, p) >= 0 <==> SomeNames(raws, p)
  {
    if FirstWith(raws, p) >= 0 { FirstWithIsFirst(raws, p, FirstWith(raws, p)); }
    if i :| 0 <= i < |raws| && PathOf(raws[i]) == p { FirstWithIsFirst(raws, p, i); }
  }

  lemma OnlyReviewableListed(raws: seq<RawChange>, changes: seq<FileChange>, p: string)
    requires FirstSeen(raws, changes)
    ensures Listed(changes, p) ==> Reviewable(p)
  {
    if Listed(changes, p) {
      var k :| 0 <= k < |changes| && changes[k].path == p;
      assert Originates(raws, changes[k]);
    }
  }

  /** A path is listed exactly when it is reviewable and some event names it whose call, if it is part of one,
      is reported failed nowhere in the transcript. */
  lemma ListedIff(events: seq<Event>, p: string)
    requires Extract(events).Some?
    ensures Listed(Extract(events).value, p) <==>
            p != "" && !IsRuntimeInternal(p) && exists e :: e in events && Names(e, p) && !CallFails(events, e)
  {
    var survives := Survives(FailedCalls(events));
    var kept := Filter(survives, events);
    var raws := AllOffered(kept).value;
    PushedInFirstSeenOrder(raws);
    FilterMembers(survives, events);
    forall e ensures survives(e) <==> !CallFails(events, e) { FailedIffReported(events, e); }
    AllOfferNames(kept, p);
    FirstWithFinds(raws, p);
    if p != "" && !IsRuntimeInternal(p) {
      ListedPathWasNamed(raws, Extract(events).value, p);
    } else {
      OnlyReviewableListed(raws, Extract(events).value, p);
    }
  }

  /** What a listed change says comes from the record it was made of: its operation, or else its event type,
      and its counts. */
  lemma RecordReads(raw: RawChange)
    ensures var c := RecordOf(raw);
            && NamesPath(raw, c.path)
            && (raw.operation != "" ==> c.operation == Some(raw.operation))
            && (raw.operation == "" && raw.eventType != "" ==> c.operation == Some(raw.eventType))
            && (raw.operation == "" && raw.eventType == "" ==> c.operation == None)
            && c.additions == raw.additions && c.deletions == raw.deletions
  {
    PathOfNames(raw, PathOf(raw));
  }

  /** An event offers its file changes first, then its data, then what it refers to. */
  lemma OffersInOrder(e: Event)
    requires e.etype == FileChanged && e.data.Some?
    ensures var offered, n := Offered(e).value, |e.fileChanges|;
            && |offered| == n + 1 + |e.artifactRefs|
            && offered[..n] == e.fileChanges && offered[n] == e.data.value.record
            && forall i :: 0 <= i < |e.artifactRefs| ==> offered[n + 1 + i].path == Some(e.artifactRefs[i])
  {
  }

  /** Letter case and slash direction do not matter to the internal-path test. */
  lemma InternalInAnyCase()
    ensures IsRuntimeInternal("src\\.AsTeRiA\\x") && IsRuntimeInternal(".Asteria")
    ensures !IsRuntimeInternal("src/asteria/x")
  {
    assert Lower(Text.Slashed("src\\.AsTeRiA\\x")) == "src/.asteria/x";
    assert "src/.asteria/x"[3..13] == "/.asteria/";
    assert OccursAt("src/.asteria/x", "/.asteria/", 3);
    assert Lower(Text.Slashed(".Asteria")) == ".asteria";
    NoDotNoRoot("src/asteria/x");
  }

  lemma NoDotNoRoot(p: string)
    requires Lower(Text.Slashed(p)) == p && '.' !in p
    ensures !IsRuntimeInternal(p)
  {
    assert |p| > 0 ==> p[0] in p;
    forall i | 0 <= i <= |p| ensures !OccursAt(p, "/.asteria/", i) {
      if i + 10 <= |p| { assert p[i..i + 10][1] == p[i + 1] && p[i + 1] in p; }
    }
  }
}
