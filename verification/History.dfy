/** `attach_history`: an append-only file of run summaries, each with its change since the last summary of
    the same key. */
module History {
  import opened Sequences
  import opened Strings

  /** The aggregate figures deltas are taken of; durations in thousandths of a second, to which the source
      rounds them. */
  datatype Metrics = Metrics(
    passed: int, failed: int, millis: int, modelCalls: int, toolCalls: int,
    inputTokens: int, outputTokens: int, repairs: int, compactions: int)
  {
    function Minus(m: Metrics): Metrics {
      Metrics(passed - m.passed, failed - m.failed, millis - m.millis, modelCalls - m.modelCalls,
              toolCalls - m.toolCalls, inputTokens - m.inputTokens, outputTokens - m.outputTokens,
              repairs - m.repairs, compactions - m.compactions)
    }

    function Plus(m: Metrics): Metrics {
      Metrics(passed + m.passed, failed + m.failed, millis + m.millis, modelCalls + m.modelCalls,
              toolCalls + m.toolCalls, inputTokens + m.inputTokens, outputTokens + m.outputTokens,
              repairs + m.repairs, compactions + m.compactions)
    }
  }

  /** m is a and b together, figure by figure. */
  predicate AddsUp(m: Metrics, a: Metrics, b: Metrics) {
    && m.passed == a.passed + b.passed && m.failed == a.failed + b.failed && m.millis == a.millis + b.millis
    && m.modelCalls == a.modelCalls + b.modelCalls && m.toolCalls == a.toolCalls + b.toolCalls
    && m.inputTokens == a.inputTokens + b.inputTokens && m.outputTokens == a.outputTokens + b.outputTokens
    && m.repairs == a.repairs + b.repairs && m.compactions == a.compactions + b.compactions
  }

  const NOTHING := Metrics(0, 0, 0, 0, 0, 0, 0, 0, 0)

  datatype Entry = Entry(suite: string, requested: seq<string>, scenarios: seq<string>, metrics: Metrics)

  /** A line of the file: blank or not JSON, JSON that `history_key` raises on (not an object, say), or a
      summary. */
  datatype Line = Unreadable | Raising(message: string) | Record(entry: Entry)

  /** What looking for a previous summary comes to: an exception, or the latest one of the key, if any. */
  datatype Lookup = Broke(message: string) | Found(latest: Option<Entry>)

  datatype Key = Key(suite: string, names: seq<string>)

  function NotEmpty(): string -> bool { (s: string) => s != "" }

  /** The names a key is made of: those asked for, or else those run. */
  function KeyNames(e: Entry): seq<string> {
    Filter(NotEmpty(), if e.requested == [] then e.scenarios else e.requested)
  }

  function KeyOf(e: Entry): Key { Key(e.suite, Sorted(KeyNames(e))) }

  function Latest(lines: seq<Line>, key: Key): Option<Entry> {
    if lines == [] then None
    else if Last(lines).Record? && KeyOf(Last(lines).entry) == key then Some(Last(lines).entry)
    else Latest(Front(lines), key)
  }

  function FirstRaised(lines: seq<Line>): Option<string> {
    if lines == [] then None
    else if FirstRaised(Front(lines)).Some? then FirstRaised(Front(lines))
    else if Last(lines).Raising? then Some(Last(lines).message)
    else None
  }

  function LookUp(lines: seq<Line>, key: Key): Lookup {
    if FirstRaised(lines).Some? then Broke(FirstRaised(lines).value) else Found(Latest(lines, key))
  }

  lemma {:induction false} RaisedStays(lines: seq<Line>, i: nat)
    requires i <= |lines| && FirstRaised(lines[..i]).Some?
    ensures FirstRaised(lines) == FirstRaised(lines[..i])
    decreases |lines|
  {
    if i == |lines| {
      assert lines[..i] == lines;
    } else {
      assert Front(lines)[..i] == lines[..i];
      RaisedStays(Front(lines), i);
    }
  }

  /** `compare_with_previous`: no deltas without a previous summary. */
  function Compare(previous: Option<Entry>, current: Entry): Option<Metrics> {
    if previous.None? then None else Some(current.metrics.Minus(previous.value.metrics))
  }

  /** The deltas a summary gets when it is attached to a file. */
  function Deltas(lines: seq<Line>, summary: Entry): Option<Metrics> {
    Compare(Latest(lines, KeyOf(summary)), summary)
  }

  class HistoryFile {
    var lines: seq<Line>

    constructor (lines: seq<Line>)
      ensures this.lines == lines
    {
      this.lines := lines;
    }

    method LatestHistoryEntry(summary: Entry) returns (lookup: Lookup)
      ensures lookup == LookUp(lines, KeyOf(summary))
    {
      var currentKey := KeyOf(summary);
      var latest: Option<Entry> := None;
      for i := 0 to |lines|
        invariant latest == Latest(lines[..i], currentKey) && FirstRaised(lines[..i]).None?
      {
        TakeOneMore(lines, i);
        Joins(lines[..i], lines[i]);
        match lines[i] {
          case Unreadable =>
          case Raising(message) =>
            RaisedStays(lines, i + 1);
            return Broke(message);
          case Record(candidate) =>
            if KeyOf(candidate) == currentKey { latest := Some(candidate); }
        }
      }
      assert lines[..|lines|] == lines;
      return Found(latest);
    }

    /** `raised` is the message of the exception, if there is one; then nothing is appended. */
    method AttachHistory(summary: Entry) returns (raised: Option<string>, deltas: Option<Metrics>)
      modifies this
      ensures raised == FirstRaised(old(lines))
      ensures raised.None? ==> deltas == Deltas(old(lines), summary)
      ensures lines == old(lines) + if raised.None? then [Record(summary)] else []
    {
      var previous := LatestHistoryEntry(summary);
      if previous.Broke? { return Some(previous.message), None; }
      raised, deltas := None, Compare(previous.latest, summary);
      lines := lines + [Record(summary)];
    }
  }

  // ----- what the file says over time

  function Records(summaries: seq<Entry>): seq<Line> { Map((e: Entry) => Record(e), summaries) }

  /** The deltas recorded with each of a series of summaries, attached one after the other. */
  function Recorded(lines: seq<Line>, summaries: seq<Entry>): seq<Option<Metrics>> {
    if summaries == [] then []
    else
      Recorded(lines, Front(summaries))
      + [Deltas(lines + Records(Front(summaries)), Last(summaries))]
  }

  /** The sum of the deltas recorded with the summaries of one key. */
  function DeltaSum(lines: seq<Line>, summaries: seq<Entry>, key: Key): Metrics {
    if summaries == [] then NOTHING
    else
      var before := DeltaSum(lines, Front(summaries), key);
      var deltas := Last(Recorded(lines, summaries));
      if KeyOf(Last(summaries)) == key && deltas.Some? then before.Plus(deltas.value) else before
  }

  /** The summary the key's first recorded delta is taken against: the latest already in the file, or else
      the key's first in the series. */
  function Baseline(lines: seq<Line>, summaries: seq<Entry>, key: Key): Option<Entry> {
    if Latest(lines, key).Some? || summaries == [] then Latest(lines, key)
    else
      var earlier := Baseline(lines, Front(summaries), key);
      if earlier.None? && KeyOf(Last(summaries)) == key then Some(Last(summaries)) else earlier
  }

  /** Recording summaries neither makes nor mends an offending line: once there is one, no later summary is
      ever recorded, and every run that gets as far as the history raises. */
  lemma {:induction false} OffendingLineIsForGood(lines: seq<Line>, summaries: seq<Entry>)
    ensures FirstRaised(lines + Records(summaries)) == FirstRaised(lines)
  {
    if summaries == [] {
      assert lines + Records(summaries) == lines;
    } else {
      var earlier, e := Front(summaries), Last(summaries);
      assert lines + Records(summaries) == lines + Records(earlier) + [Record(e)];
      Joins(lines + Records(earlier), Record(e));
      OffendingLineIsForGood(lines, earlier);
    }
  }

  lemma LatestGrows(lines: seq<Line>, line: Line, key: Key)
    ensures Latest(lines + [line], key) ==
            if line.Record? && KeyOf(line.entry) == key then Some(line.entry) else Latest(lines, key)
  {
    assert Front(lines + [line]) == lines;
  }

  /** What one more summary does to the three of them. */
  lemma OneMoreRun(lines: seq<Line>, earlier: seq<Entry>, e: Entry, key: Key)
    ensures var was := Latest(lines + Records(earlier), key);
            && Latest(lines + Records(earlier + [e]), key) == (if KeyOf(e) == key then Some(e) else was)
            && DeltaSum(lines, earlier + [e], key) ==
               var before := DeltaSum(lines, earlier, key);
               if KeyOf(e) == key && was.Some? then before.Plus(e.metrics.Minus(was.value.metrics)) else before
  {
    assert Front(earlier + [e]) == earlier && Last(earlier + [e]) == e;
    assert lines + Records(earlier + [e]) == lines + Records(earlier) + [Record(e)];
    LatestGrows(lines + Records(earlier), Record(e), key);
    assert Last(Recorded(lines, earlier + [e])) == Deltas(lines + Records(earlier), e);
  }

  lemma BaselineOnceFound(lines: seq<Line>, earlier: seq<Entry>, e: Entry, key: Key)
    ensures var base := Baseline(lines, earlier, key);
            Baseline(lines, earlier + [e], key) ==
            if base.Some? then base else if KeyOf(e) == key then Some(e) else None
  {
    assert Front(earlier + [e]) == earlier && Last(earlier + [e]) == e;
  }

  /** However runs of other keys are interleaved, the deltas recorded for a key add up to its latest figures
      less its baseline's. */
  lemma {:induction false} DeltasTelescope(lines: seq<Line>, summaries: seq<Entry>, key: Key)
    ensures var latest := Latest(lines + Records(summaries), key);
            var base := Baseline(lines, summaries, key);
            && (latest.Some? <==> base.Some?)
            && DeltaSum(lines, summaries, key) ==
               if latest.None? || base.None? then NOTHING else latest.value.metrics.Minus(base.value.metrics)
  {
    if summaries == [] {
      assert lines + Records(summaries) == lines;
    } else {
      var earlier, e := Front(summaries), Last(summaries);
      assert summaries == earlier + [e];
      DeltasTelescope(lines, earlier, key);
      OneMoreRun(lines, earlier, e, key);
      BaselineOnceFound(lines, earlier, e, key);
    }
  }

  // ----- what a look-up finds

  ghost predicate LastOfKey(lines: seq<Line>, key: Key, i: nat) {
    && i < |lines| && lines[i].Record? && KeyOf(lines[i].entry) == key
    && forall j :: i < j < |lines| && lines[j].Record? ==> KeyOf(lines[j].entry) != key
  }

  lemma OtherLineKeepsLast(lines: seq<Line>, line: Line, key: Key, i: nat)
    requires line.Record? ==> KeyOf(line.entry) != key
    ensures LastOfKey(lines + [line], key, i) <==> LastOfKey(lines, key, i)
  {
    var more := lines + [line];
    if LastOfKey(more, key, i) {
      forall j | i < j < |lines| && lines[j].Record? ensures KeyOf(lines[j].entry) != key {
        assert more[j] == lines[j];
      }
    }
  }

  /** The latest summary of a key is the one on the last line that holds a summary of it. */
  lemma {:induction false} LatestIs(lines: seq<Line>, key: Key)
    ensures forall i: nat :: LastOfKey(lines, key, i) ==> Latest(lines, key) == Some(lines[i].entry)
    ensures Latest(lines, key).Some? ==> exists i: nat :: LastOfKey(lines, key, i)
  {
    if lines != [] {
      var front, line := Front(lines), Last(lines);
      EndsWithLast(lines);
      LatestIs(front, key);
      LatestGrows(front, line, key);
      if line.Record? && KeyOf(line.entry) == key {
        assert LastOfKey(lines, key, |front|);
      } else {
        forall i: nat ensures LastOfKey(lines, key, i) <==> LastOfKey(front, key, i) {
          OtherLineKeepsLast(front, line, key, i);
        }
      }
    }
  }

  /** A look-up raises exactly when some line does, with the message of the first of them. */
  lemma {:induction false} RaisesIff(lines: seq<Line>)
    ensures FirstRaised(lines).Some? <==> exists i :: 0 <= i < |lines| && lines[i].Raising?
    ensures forall i :: (0 <= i < |lines| && lines[i].Raising? && forall j :: 0 <= j < i ==> !lines[j].Raising?) ==>
                          FirstRaised(lines) == Some(lines[i].message)
  {
    if lines != [] {
      var front, n := Front(lines), |lines| - 1;
      RaisesIff(front);
      if i :| 0 <= i < |lines| && lines[i].Raising? { assert i < n ==> front[i].Raising?; }
      if i :| 0 <= i < |front| && front[i].Raising? { assert lines[i].Raising?; }
    }
  }

  /** The baseline of a key is its latest summary in the file to begin with, or else the first in the series. */
  lemma {:induction false} BaselineIs(lines: seq<Line>, summaries: seq<Entry>, key: Key, i: nat)
    requires Latest(lines, key).None? && i < |summaries| && KeyOf(summaries[i]) == key
    requires forall j :: 0 <= j < i ==> KeyOf(summaries[j]) != key
    ensures Baseline(lines, summaries, key) == Some(summaries[i])
    decreases |summaries|
  {
    var front := Front(summaries);
    if i < |front| {
      BaselineIs(lines, front, key, i);
    } else {
      NoBaseline(lines, front, key);
    }
  }

  lemma {:induction false} NoBaseline(lines: seq<Line>, summaries: seq<Entry>, key: Key)
    requires Latest(lines, key).None? && forall j :: 0 <= j < |summaries| ==> KeyOf(summaries[j]) != key
    ensures Baseline(lines, summaries, key).None?
  {
    if summaries != [] {
      assert KeyOf(summaries[|summaries| - 1]) != key;
      NoBaseline(lines, Front(summaries), key);
    }
  }

  /** The deltas recorded with a summary are what its figures add to those of the latest of its key; without
      one there are none. */
  lemma DeltasRead(lines: seq<Line>, summary: Entry)
    ensures (exists i: nat :: LastOfKey(lines, KeyOf(summary), i)) <==> Deltas(lines, summary).Some?
    ensures forall i: nat :: LastOfKey(lines, KeyOf(summary), i) ==>
              AddsUp(summary.metrics, lines[i].entry.metrics, Deltas(lines, summary).value)
  {
    LatestIs(lines, KeyOf(summary));
  }

  /** The telescoping sum, figure by figure: what the deltas add to the baseline's figures gives the latest. */
  lemma DeltasByFigure(lines: seq<Line>, summaries: seq<Entry>, key: Key)
    ensures var latest := Latest(lines + Records(summaries), key);
            var base := Baseline(lines, summaries, key);
            && (latest.Some? <==> base.Some?)
            && (latest.Some? && base.Some? ==>
                  AddsUp(latest.value.metrics, base.value.metrics, DeltaSum(lines, summaries, key)))
  {
    DeltasTelescope(lines, summaries, key);
  }

  /** The names that make a key, those asked for or else those run, without the empty ones. */
  function NamesOf(e: Entry): multiset<string> {
    (if e.requested != [] then multiset(e.requested) else multiset(e.scenarios))["" := 0]
  }

  /** Keys are equal exactly when the suites are and the names that make them agree up to order. */
  lemma KeyIgnoresOrder(a: Entry, b: Entry)
    ensures KeyOf(a) == KeyOf(b) <==> a.suite == b.suite && NamesOf(a) == NamesOf(b)
    ensures (a.suite == b.suite && multiset(a.requested) == multiset(b.requested)
             && multiset(a.scenarios) == multiset(b.scenarios))
            ==> KeyOf(a) == KeyOf(b)
  {
    SortedEqualIff(KeyNames(a), KeyNames(b));
    assert multiset(a.requested) == multiset(b.requested) ==> |multiset(a.requested)| == |multiset(b.requested)|;
    FilterMultiset(if a.requested == [] then a.scenarios else a.requested);
    FilterMultiset(if b.requested == [] then b.scenarios else b.requested);
  }

  lemma FilterMultisetSnoc(s: seq<string>, x: string)
    requires multiset(Filter(NotEmpty(), s)) == multiset(s)["" := 0]
    ensures multiset(Filter(NotEmpty(), s + [x])) == multiset(s + [x])["" := 0]
  {
    FilterSnoc(NotEmpty(), s, x);
    assert multiset(s + [x]) == multiset(s) + multiset{x};
  }

  lemma {:induction false} FilterMultiset(s: seq<string>)
    ensures multiset(Filter(NotEmpty(), s)) == multiset(s)["" := 0]
  {
    if s != [] {
      EndsWithLast(s);
      FilterMultiset(Front(s));
      FilterMultisetSnoc(Front(s), Last(s));
    }
  }
}
