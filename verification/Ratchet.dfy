/** `mypy_ratchet.py`: a baseline file of known type errors, counted without their line numbers, that a check
    may not exceed and an update replaces. */
module Ratchet {
  import opened Sequences
  import opened Strings
  import Text

  datatype Error = Error(file: string, code: string, message: string)

  /** One entry of the baseline file. */
  datatype Entry = Entry(error: Error, count: nat)

  // ----- parsing mypy's output

  /** The error a line reports, if any; `matcher` stands for the regular expression. */
  function Reported(matcher: string -> Option<Error>): string -> Option<Error> {
    (line: string) =>
      var found := matcher(Text.Strip(line));
      if found.None? then None else Some(found.value.(file := Text.Slashed(found.value.file)))
  }

  function OfLine(matcher: string -> Option<Error>, line: string): multiset<Error> {
    var error := Reported(matcher)(line);
    if error.None? then multiset{} else multiset{error.value}
  }

  function Parsed(matcher: string -> Option<Error>, lines: seq<string>): multiset<Error> {
    if lines == [] then multiset{} else Parsed(matcher, Front(lines)) + OfLine(matcher, Last(lines))
  }

  method Parse(matcher: string -> Option<Error>, lines: seq<string>) returns (found: multiset<Error>)
    ensures found == Parsed(matcher, lines)
  {
    found := multiset{};
    for i := 0 to |lines|
      invariant found == Parsed(matcher, lines[..i])
    {
      assert Front(lines[..i + 1]) == lines[..i] && Last(lines[..i + 1]) == lines[i];
      var result := matcher(Text.Strip(lines[i]));
      if result.None? { continue; }
      var error := result.value.(file := Text.Slashed(result.value.file));
      found := found[error := found[error] + 1];
    }
    assert lines[..|lines|] == lines;
  }

  lemma {:induction false} ParsedConcat(matcher: string -> Option<Error>, a: seq<string>, b: seq<string>)
    ensures Parsed(matcher, a + b) == Parsed(matcher, a) + Parsed(matcher, b)
  {
    if b == [] {
      assert a + b == a;
    } else {
      assert Front(a + b) == a + Front(b) && Last(a + b) == Last(b);
      ParsedConcat(matcher, a, Front(b));
    }
  }

  lemma ParsedMiddle(matcher: string -> Option<Error>, a: seq<string>, line: string, b: seq<string>)
    ensures Parsed(matcher, a + [line] + b) == Parsed(matcher, a + b) + OfLine(matcher, line)
  {
    ParsedConcat(matcher, a + [line], b);
    ParsedConcat(matcher, a, b);
    assert Front(a + [line]) == a;
  }

  /** The order of mypy's lines does not matter. */
  lemma {:induction false} ParsedIgnoresOrder(matcher: string -> Option<Error>, a: seq<string>, b: seq<string>)
    requires multiset(a) == multiset(b)
    ensures Parsed(matcher, a) == Parsed(matcher, b)
  {
    assert |multiset(a)| == |multiset(b)|;
    if a != [] {
      assert a == Front(a) + [Last(a)];
      assert Last(a) in multiset(b);
      var i :| 0 <= i < |b| && b[i] == Last(a);
      var before, after := b[..i], b[i + 1..];
      assert b == before + [Last(a)] + after;
      ParsedMiddle(matcher, before, Last(a), after);
      SameRest(Front(a), Last(a), before, after);
      ParsedIgnoresOrder(matcher, Front(a), before + after);
    }
  }

  lemma SameRest(front: seq<string>, x: string, before: seq<string>, after: seq<string>)
    requires multiset(front + [x]) == multiset(before + [x] + after)
    ensures multiset(front) == multiset(before + after)
  {
    assert multiset(front) == multiset(front + [x]) - multiset{x};
    assert multiset(before + after) == multiset(before + [x] + after) - multiset{x};
  }

  /** The line reports this error: the expression matches it, trimmed, with this code and message and with
      this file up to slash direction. */
  predicate ReportsError(matcher: string -> Option<Error>, line: string, e: Error) {
    var found := matcher(Text.Strip(line));
    && found.Some? && found.value.code == e.code && found.value.message == e.message
    && Text.Slashed(found.value.file) == e.file
  }

  /** Every line that reports an error counts once for it, and for nothing else. */
  lemma {:induction false} ParsedCounts(matcher: string -> Option<Error>, lines: seq<string>, e: Error)
    ensures Parsed(matcher, lines)[e] == |Filter((line: string) => ReportsError(matcher, line, e), lines)|
  {
    if lines != [] {
      ParsedCounts(matcher, Front(lines), e);
      LineCounts(matcher, Last(lines), e);
    }
  }

  lemma LineCounts(matcher: string -> Option<Error>, line: string, e: Error)
    ensures OfLine(matcher, line)[e] == if ReportsError(matcher, line, e) then 1 else 0
  {
    var found := Reported(matcher)(line);
    if found.Some? { assert found.value == Error(found.value.file, found.value.code, found.value.message); }
  }

  // ----- the baseline file

  /** Later entries of the same error overwrite earlier ones. */
  function Loaded(entries: seq<Entry>): multiset<Error> {
    if entries == [] then multiset{} else Loaded(Front(entries))[Last(entries).error := Last(entries).count]
  }

  predicate LeError(a: Error, b: Error) {
    if a.file != b.file then Le(a.file, b.file)
    else if a.code != b.code then Le(a.code, b.code)
    else Le(a.message, b.message)
  }

  lemma LeErrorTotal(a: Error, b: Error)
    ensures LeError(a, b) || LeError(b, a)
    ensures LeError(a, b) && LeError(b, a) ==> a == b
  {
    LeTotal(a.file, b.file);
    LeTotal(a.code, b.code);
    LeTotal(a.message, b.message);
  }

  lemma LeErrorTransitive(a: Error, b: Error, c: Error)
    requires LeError(a, b) && LeError(b, c)
    ensures LeError(a, c)
  {
    if a.file == b.file == c.file {
      if a.code == b.code == c.code {
        LeTransitive(a.message, b.message, c.message);
      } else {
        LeErrorCodes(a, b, c);
      }
    } else {
      LeErrorFiles(a, b, c);
    }
  }

  lemma LeErrorCodes(a: Error, b: Error, c: Error)
    requires LeError(a, b) && LeError(b, c) && a.file == b.file == c.file && !(a.code == b.code == c.code)
    ensures LeError(a, c)
  {
    LeTotal(a.code, b.code);
    LeTotal(b.code, c.code);
    LeTransitive(a.code, b.code, c.code);
  }

  lemma LeErrorFiles(a: Error, b: Error, c: Error)
    requires LeError(a, b) && LeError(b, c) && !(a.file == b.file == c.file)
    ensures LeError(a, c)
  {
    LeTotal(a.file, b.file);
    LeTotal(b.file, c.file);
    LeTransitive(a.file, b.file, c.file);
  }

  /** Entries in strictly ascending order, none of count zero. */
  ghost predicate Listing(entries: seq<Entry>) {
    && (forall i :: 0 <= i < |entries| ==> entries[i].count > 0)
    && (forall i, j :: 0 <= i < j < |entries| ==>
          LeError(entries[i].error, entries[j].error) && entries[i].error != entries[j].error)
  }

  lemma {:induction false} LoadedCounts(entries: seq<Entry>, i: nat)
    requires Listing(entries) && i < |entries|
    ensures Loaded(entries)[entries[i].error] == entries[i].count
  {
    if i < |entries| - 1 {
      LoadedCounts(Front(entries), i);
      assert entries[i].error != entries[|entries| - 1].error;
    }
  }

  lemma {:induction false} LoadedOnlyListed(entries: seq<Entry>, e: Error)
    requires forall i :: 0 <= i < |entries| ==> entries[i].error != e
    ensures Loaded(entries)[e] == 0
  {
    if entries != [] {
      assert entries[|entries| - 1].error != e;
      LoadedOnlyListed(Front(entries), e);
    }
  }

  lemma LastIsListed(a: seq<Entry>, b: seq<Entry>)
    requires Listing(a) && Listing(b) && Loaded(a) == Loaded(b) && a != []
    ensures exists j :: 0 <= j < |b| && b[j] == Last(a)
  {
    var e := Last(a).error;
    LoadedCounts(a, |a| - 1);
    if forall j :: 0 <= j < |b| ==> b[j].error != e {
      LoadedOnlyListed(b, e);
    } else {
      var j :| 0 <= j < |b| && b[j].error == e;
      LoadedCounts(b, j);
      assert b[j] == Last(a);
    }
  }

  lemma SameLast(a: seq<Entry>, b: seq<Entry>)
    requires Listing(a) && Listing(b) && Loaded(a) == Loaded(b) && a != [] && b != []
    ensures Last(a) == Last(b)
  {
    LastIsListed(a, b);
    LastIsListed(b, a);
    var j :| 0 <= j < |b| && b[j] == Last(a);
    var i :| 0 <= i < |a| && a[i] == Last(b);
    LeErrorTotal(Last(a).error, Last(b).error);
  }

  /** A baseline has one file only: equal debts are recorded by equal files. */
  lemma {:induction false} FileIsCanonical(a: seq<Entry>, b: seq<Entry>)
    requires Listing(a) && Listing(b) && Loaded(a) == Loaded(b)
    ensures a == b
  {
    if a == [] || b == [] {
      if a != [] { LoadedCounts(a, 0); }
      if b != [] { LoadedCounts(b, 0); }
    } else {
      SameLast(a, b);
      LoadedFront(a);
      LoadedFront(b);
      FileIsCanonical(Front(a), Front(b));
      assert a == Front(a) + [Last(a)] && b == Front(b) + [Last(b)];
    }
  }

  lemma LoadedFront(entries: seq<Entry>)
    requires Listing(entries) && entries != []
    ensures Loaded(Front(entries)) == Loaded(entries)[Last(entries).error := 0]
  {
    var e := Last(entries).error;
    assert forall i :: 0 <= i < |Front(entries)| ==> entries[i].error != entries[|entries| - 1].error;
    LoadedOnlyListed(Front(entries), e);
  }

  /** Some least error of a non-empty count. */
  lemma {:induction false} LeastExists(s: set<Error>) returns (least: Error)
    requires s != {}
    ensures least in s && forall x :: x in s ==> LeError(least, x)
    decreases |s|
  {
    var e :| e in s;
    if s == {e} {
      least := e;
      LeErrorTotal(e, e);
    } else {
      assert e in s && s - {e} != {};
      var other := LeastExists(s - {e});
      LeErrorTotal(e, other);
      if LeError(other, e) {
        least := other;
      } else {
        least := e;
        LeErrorTotal(e, e);
        forall x | x in s ensures LeError(e, x) {
          if x != e { LeErrorTransitive(e, other, x); }
        }
      }
    }
  }

  method LeastOf(found: multiset<Error>) returns (least: Error)
    requires found != multiset{}
    ensures least in found && forall x :: x in found ==> LeError(least, x)
  {
    ghost var any: Error :| any in found;
    ghost var errors := set e | e in found;
    assert any in errors;
    ghost var some := LeastExists(errors);
    assert some in found && forall x :: x in found ==> LeError(some, x);
    least :| least in found && forall x :: x in found ==> LeError(least, x);
  }

  /** Every error listed stands before every one remaining. */
  ghost predicate Before(entries: seq<Entry>, remaining: multiset<Error>) {
    forall i, e :: 0 <= i < |entries| && e in remaining ==> LeError(entries[i].error, e) && entries[i].error != e
  }

  lemma ListsOneMore(entries: seq<Entry>, remaining: multiset<Error>, least: Error)
    requires Listing(entries) && Before(entries, remaining) && least in remaining
    requires forall x :: x in remaining ==> LeError(least, x)
    ensures var entry := Entry(least, remaining[least]);
            && Listing(entries + [entry]) && Before(entries + [entry], remaining[least := 0])
            && Loaded(entries + [entry]) == Loaded(entries)[least := remaining[least]]
  {
    Joins(entries, Entry(least, remaining[least]));
  }

  /** The entries of a counter in sorted order, as the file lists them. */
  method SortedItems(found: multiset<Error>) returns (entries: seq<Entry>)
    ensures Listing(entries) && Loaded(entries) == found
  {
    entries := [];
    var remaining := found;
    while remaining != multiset{}
      invariant Listing(entries) && Before(entries, remaining)
      invariant forall e :: e in remaining ==> Loaded(entries)[e] == 0 && remaining[e] == found[e]
      invariant forall e :: e !in remaining ==> Loaded(entries)[e] == found[e]
      decreases |remaining|
    {
      var least := LeastOf(remaining);
      ListsOneMore(entries, remaining, least);
      entries, remaining := entries + [Entry(least, remaining[least])], remaining[least := 0];
    }
  }

  /** A file gives an error the count of its last entry for it, and none without one. */
  lemma {:induction false} LoadedIs(entries: seq<Entry>, e: Error)
    ensures forall i :: (0 <= i < |entries| && entries[i].error == e
                         && forall j :: i < j < |entries| ==> entries[j].error != e) ==>
                          Loaded(entries)[e] == entries[i].count
    ensures (forall i :: 0 <= i < |entries| ==> entries[i].error != e) ==> Loaded(entries)[e] == 0
  {
    if entries != [] {
      var front, n := Front(entries), |entries| - 1;
      LoadedIs(front, e);
      if entries[n].error != e {
        forall i | 0 <= i < |entries| && entries[i].error == e
                   && (forall j :: i < j < |entries| ==> entries[j].error != e)
          ensures Loaded(entries)[e] == entries[i].count
        {
          assert front[i] == entries[i];
        }
        if forall i :: 0 <= i < |entries| ==> entries[i].error != e {
          assert forall i :: 0 <= i < |front| ==> front[i].error == entries[i].error;
        }
      }
    }
  }

  /** Entries are listed by file, then code, then message. */
  lemma ListedByFile(entries: seq<Entry>, i: nat, j: nat)
    requires Listing(entries) && i < j < |entries|
    ensures var a, b := entries[i].error, entries[j].error;
            && Le(a.file, b.file)
            && (a.file == b.file ==> Le(a.code, b.code))
            && (a.file == b.file && a.code == b.code ==> Le(a.message, b.message) && a.message != b.message)
  {
    var a, b := entries[i].error, entries[j].error;
    LeTotal(a.file, a.file);
    LeTotal(a.code, a.code);
  }

  // ----- check and update

  /** What the errors found add to the baseline, counting above it only: Counter subtraction. */
  function New(found: multiset<Error>, baseline: multiset<Error>): multiset<Error> { found - baseline }

  function Fixed(found: multiset<Error>, baseline: multiset<Error>): multiset<Error> { baseline - found }

  function DebtOf(file: Option<seq<Entry>>): multiset<Error> {
    if file.None? then multiset{} else Loaded(file.value)
  }

  class BaselineFile {
    var file: Option<seq<Entry>>

    constructor (file: Option<seq<Entry>>)
      ensures this.file == file
    {
      this.file := file;
    }

    /** One invocation: the exit code, and the new and fixed errors a check reports. */
    method Run(update: bool, matcher: string -> Option<Error>, output: seq<string>)
      returns (code: int, added: multiset<Error>, gone: multiset<Error>)
      modifies this
      ensures var found := Parsed(matcher, output);
              && DebtOf(file) == (if update then found else DebtOf(old(file)))
              && (update ==> file.Some? && Listing(file.value))
              && (!update ==> file == old(file))
              && (code == 0 <==> update || found <= DebtOf(old(file)))
              && (!update ==> added == New(found, DebtOf(old(file))) && gone == Fixed(found, DebtOf(old(file))))
      ensures code == 0 || code == 1
    {
      var found := Parse(matcher, output);
      if update {
        var entries := SortedItems(found);
        file := Some(entries);
        return 0, multiset{}, multiset{};
      }
      var baseline := DebtOf(file);
      added, gone := New(found, baseline), Fixed(found, baseline);
      PassesIff(found, baseline);
      code := if added == multiset{} then 0 else 1;
    }
  }

  /** A check finds nothing new exactly when no error occurs more often than the baseline has it. */
  lemma PassesIff(found: multiset<Error>, baseline: multiset<Error>)
    ensures New(found, baseline) == multiset{} <==> found <= baseline
  {
    if !(found <= baseline) {
      var e :| found[e] > baseline[e];
      assert e in New(found, baseline);
    }
  }

  /** What is new and what is fixed have nothing in common, and are together the difference: found and fixed
      errors are exactly the baseline's and the new ones, and number as many. No two other counts do that. */
  lemma DebtIsConserved(found: multiset<Error>, baseline: multiset<Error>)
    ensures |found| + |Fixed(found, baseline)| == |baseline| + |New(found, baseline)|
    ensures found + Fixed(found, baseline) == baseline + New(found, baseline)
    ensures New(found, baseline) !! Fixed(found, baseline)
    ensures forall added: multiset<Error>, gone: multiset<Error> ::
              found + gone == baseline + added && added !! gone ==>
                added == New(found, baseline) && gone == Fixed(found, baseline)
  {
    forall added: multiset<Error>, gone: multiset<Error> | found + gone == baseline + added && added !! gone
      ensures added == New(found, baseline) && gone == Fixed(found, baseline)
    {
      forall e ensures added[e] == New(found, baseline)[e] && gone[e] == Fixed(found, baseline)[e] {
        assert (found + gone)[e] == (baseline + added)[e];
      }
    }
    assert found + Fixed(found, baseline) == baseline + New(found, baseline);
  }

  datatype Invocation = Invocation(update: bool, found: multiset<Error>)

  /** The debt on file after a series of invocations. */
  function After(baseline: multiset<Error>, runs: seq<Invocation>): multiset<Error> {
    if runs == [] then baseline else if Last(runs).update then Last(runs).found else After(baseline, Front(runs))
  }

  lemma AfterStep(baseline: multiset<Error>, runs: seq<Invocation>, i: nat)
    requires i < |runs|
    ensures After(baseline, runs[..i + 1]) == if runs[i].update then runs[i].found else After(baseline, runs[..i])
  {
    assert Front(runs[..i + 1]) == runs[..i];
  }

  ghost predicate NeverGrows(baseline: multiset<Error>, runs: seq<Invocation>) {
    forall i, j :: 0 <= i <= j <= |runs| ==> After(baseline, runs[..j]) <= After(baseline, runs[..i])
  }

  /** Every update would have passed as a check. */
  ghost predicate UpdatesPass(baseline: multiset<Error>, runs: seq<Invocation>) {
    forall i :: 0 <= i < |runs| && runs[i].update ==> runs[i].found <= After(baseline, runs[..i])
  }

  /** Every update directly follows a check that passed on the same errors. */
  ghost predicate UpdatesFollowPasses(baseline: multiset<Error>, runs: seq<Invocation>) {
    forall i :: 0 <= i < |runs| && runs[i].update ==>
                  && i > 0 && !runs[i - 1].update && runs[i - 1].found == runs[i].found
                  && New(runs[i - 1].found, After(baseline, runs[..i - 1])) == multiset{}
  }

  lemma {:induction false} ShrinksFrom(baseline: multiset<Error>, runs: seq<Invocation>, i: nat, j: nat)
    requires UpdatesPass(baseline, runs) && i <= j <= |runs|
    ensures After(baseline, runs[..j]) <= After(baseline, runs[..i])
    decreases j
  {
    if i < j {
      ShrinksFrom(baseline, runs, i, j - 1);
      AfterStep(baseline, runs, j - 1);
    }
  }

  /** An update is not stopped from recording new debt, so the baseline only ever shrinks exactly when every
      update would have passed as a check. */
  lemma NeverGrowsIff(baseline: multiset<Error>, runs: seq<Invocation>)
    ensures NeverGrows(baseline, runs) <==> UpdatesPass(baseline, runs)
  {
    if UpdatesPass(baseline, runs) {
      forall i, j | 0 <= i <= j <= |runs| ensures After(baseline, runs[..j]) <= After(baseline, runs[..i]) {
        ShrinksFrom(baseline, runs, i, j);
      }
    }
    if NeverGrows(baseline, runs) {
      forall i | 0 <= i < |runs| && runs[i].update ensures runs[i].found <= After(baseline, runs[..i]) {
        AfterStep(baseline, runs, i);
        assert After(baseline, runs[..i + 1]) <= After(baseline, runs[..i]);
      }
    }
  }

  lemma UpdateCanGrow()
    ensures exists found :: !NeverGrows(multiset{}, [Invocation(true, found)])
  {
    var found := multiset{Error("src/a.py", "attr-defined", "no such attribute")};
    var runs := [Invocation(true, found)];
    assert runs[..1] == runs && runs[..0] == [];
    assert !(After(multiset{}, runs[..1]) <= After(multiset{}, runs[..0])) by {
      assert After(multiset{}, runs) == found;
      assert found[Error("src/a.py", "attr-defined", "no such attribute")] == 1;
    }
  }

  /** When each update follows a passing check of the same errors, the baseline only ever shrinks, and no
      check passes later on errors the baseline did not have at any earlier time. */
  lemma CheckedUpdatesShrink(baseline: multiset<Error>, runs: seq<Invocation>)
    requires UpdatesFollowPasses(baseline, runs)
    ensures NeverGrows(baseline, runs)
    ensures forall i, j :: (0 <= i <= j < |runs| && New(runs[j].found, After(baseline, runs[..j])) == multiset{}) ==>
                             runs[j].found <= After(baseline, runs[..i])
  {
    forall i | 0 <= i < |runs| && runs[i].update ensures runs[i].found <= After(baseline, runs[..i]) {
      AfterStep(baseline, runs, i - 1);
      PassesIff(runs[i].found, After(baseline, runs[..i - 1]));
    }
    NeverGrowsIff(baseline, runs);
    forall i, j | 0 <= i <= j < |runs| && New(runs[j].found, After(baseline, runs[..j])) == multiset{}
      ensures runs[j].found <= After(baseline, runs[..i])
    {
      PassesIff(runs[j].found, After(baseline, runs[..j]));
      assert After(baseline, runs[..j]) <= After(baseline, runs[..i]);
    }
  }
}
