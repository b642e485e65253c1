/** The first half of `turnDiff.ts`: steps into turns, and the files a turn changed. */
module Turns {
  import opened Sequences
  import opened Narrative
  import opened NarrativeLaws
  import opened FileChanges
  import opened Partitions

  // ----- splitIntoTurns

  predicate IsGoal(s: Step) { s.kind == Goal }

  /** A partition of the steps into turns: none empty, a goal only ever first in its turn, and every turn
      but the first opened by one. */
  ghost predicate IsTurnSplit(turns: seq<seq<Step>>) {
    && (forall k :: 0 <= k < |turns| ==> IsTurn(turns[k]))
    && (forall k :: 0 < k < |turns| ==> turns[k] != [] && IsGoal(turns[k][0]))
  }

  predicate IsTurn(turn: seq<Step>) {
    turn != [] && forall i :: 0 < i < |turn| ==> !IsGoal(turn[i])
  }

  /** Whether a step stays in a turn, whatever opened it. */
  function StaysInTurn(): (Step, Step) -> bool { (first: Step, s: Step) => !IsGoal(s) }

  function TurnsOf(steps: seq<Step>): seq<seq<Step>> { Partition(StaysInTurn(), steps) }

  function WithOpenTurn(turns: seq<seq<Step>>, open: Option<seq<Step>>): seq<seq<Step>> {
    if open.None? then turns else turns + [open.value]
  }

  method SplitIntoTurns(steps: seq<Step>) returns (turns: seq<seq<Step>>)
    ensures turns == TurnsOf(steps)
  {
    turns := [];
    var current: Option<seq<Step>> := None;
    var leading: Option<seq<Step>> := None;
    for i := 0 to |steps|
      invariant current.None? || leading.None?
      invariant current.None? ==> turns == []
      invariant TurnsOf(steps[..i]) == WithOpenTurn(turns, if current.Some? then current else leading)
    {
      var step := steps[i];
      TakeOneMore(steps, i);
      PartitionGrows(StaysInTurn(), steps[..i], step);
      NoTurnIsEmpty(steps[..i]);
      if IsGoal(step) {
        if leading.Some? {
          turns := turns + [leading.value];
          leading := None;
        }
        if current.Some? {
          turns := turns + [current.value];
        }
        current := Some([step]);
      } else if current.Some? {
        Joins(turns, current.value);
        current := Some(current.value + [step]);
      } else {
        if leading.Some? { Joins(turns, leading.value); }
        assert [] + [step] == [step];
        leading := Some((if leading.Some? then leading.value else []) + [step]);
      }
    }
    assert steps[..|steps|] == steps;
    if leading.Some? { turns := turns + [leading.value]; }
    if current.Some? { turns := turns + [current.value]; }
  }

  lemma TurnsFlattenBack(steps: seq<Step>)
    ensures Flatten(TurnsOf(steps)) == steps
  {
    PartitionFlattensBack(StaysInTurn(), steps);
  }

  /** Splitting into turns is grouping greedily by "is not a goal". */
  lemma SplitIsGreedy(turns: seq<seq<Step>>)
    ensures IsTurnSplit(turns) <==> Greedy(StaysInTurn(), turns)
  {
    if IsTurnSplit(turns) {
      forall k | 0 <= k < |turns| ensures Coherent(StaysInTurn(), turns[k]) { assert IsTurn(turns[k]); }
      forall k | 0 < k < |turns| ensures Separate(StaysInTurn(), turns[k - 1], turns[k]) {
        assert IsTurn(turns[k - 1]);
      }
    }
    if Greedy(StaysInTurn(), turns) {
      forall k | 0 <= k < |turns| ensures IsTurn(turns[k]) { assert Coherent(StaysInTurn(), turns[k]); }
      forall k | 0 < k < |turns| ensures turns[k] != [] && IsGoal(turns[k][0]) {
        assert Separate(StaysInTurn(), turns[k - 1], turns[k]);
      }
    }
  }

  lemma TurnsAreSplit(steps: seq<Step>)
    ensures IsTurnSplit(TurnsOf(steps))
  {
    PartitionIsGreedy(StaysInTurn(), steps);
    SplitIsGreedy(TurnsOf(steps));
  }

  /** No other partition of the same steps is a split into turns. */
  lemma TurnSplitIsUnique(turns: seq<seq<Step>>)
    requires IsTurnSplit(turns)
    ensures TurnsOf(Flatten(turns)) == turns
  {
    SplitIsGreedy(turns);
    PartitionIsUnique(StaysInTurn(), turns);
  }

  lemma NoTurnIsEmpty(steps: seq<Step>)
    ensures forall k :: 0 <= k < |TurnsOf(steps)| ==> TurnsOf(steps)[k] != []
    ensures steps != [] <==> TurnsOf(steps) != []
  {
    TurnsAreSplit(steps);
    TurnsFlattenBack(steps);
    forall k | 0 <= k < |TurnsOf(steps)| ensures TurnsOf(steps)[k] != [] { assert IsTurn(TurnsOf(steps)[k]); }
  }

  function Goals(steps: seq<Step>): nat {
    if steps == [] then 0 else Goals(Front(steps)) + if IsGoal(Last(steps)) then 1 else 0
  }

  /** One turn per goal, and one more for what precedes the first goal, if anything does. */
  lemma {:induction false} TurnsAreCounted(steps: seq<Step>)
    ensures |TurnsOf(steps)| == Goals(steps) + if steps != [] && !IsGoal(steps[0]) then 1 else 0
  {
    if steps != [] {
      TurnsAreCounted(Front(steps));
      NoTurnIsEmpty(Front(steps));
    }
  }

  // ----- the files of a turn

  predicate IsResponse(s: Step) { s.kind == Final || s.kind == ErrorStep }

  /** `turnMiddleSteps`: without the first step, and without the last response among the rest. */
  function MiddleSteps(turn: seq<Step>): seq<Step> {
    if turn == [] then []
    else
      var rest := turn[1..];
      var i := LastIndex((s: Step) => IsResponse(s), rest);
      if i < 0 then rest else rest[..i] + rest[i + 1..]
  }

  /** None is the TypeError of the extraction. */
  function FilesOf(turn: seq<Step>): Option<seq<FileChange>> {
    ExtractFromGroups(EventsOf(MiddleSteps(turn)))
  }

  predicate Responds(s: Step) { s.kind == Final || s.kind == ErrorStep }

  /** The last response of a turn, other than its first step, stands at i. */
  ghost predicate RespondsAt(turn: seq<Step>, i: nat) {
    0 < i < |turn| && Responds(turn[i]) && forall j :: i < j < |turn| ==> !Responds(turn[j])
  }

  lemma LastResponse(turn: seq<Step>)
    requires turn != []
    ensures var w := LastIndex((s: Step) => IsResponse(s), turn[1..]);
            if w < 0 then forall j :: 0 < j < |turn| ==> !Responds(turn[j]) else RespondsAt(turn, w + 1)
  {
    var rest := turn[1..];
    assert forall j :: 0 < j < |turn| ==> turn[j] == rest[j - 1];
  }

  /** The middle of a turn is all but its first step and, after that, its last response if it has one. */
  lemma MiddleIs(turn: seq<Step>, i: nat)
    requires RespondsAt(turn, i)
    ensures MiddleSteps(turn) == turn[1..i] + turn[i + 1..]
  {
    LastResponse(turn);
    var rest, w := turn[1..], LastIndex((s: Step) => IsResponse(s), turn[1..]);
    assert w >= 0 && w + 1 == i;
    assert rest[..w] == turn[1..i] && rest[w + 1..] == turn[i + 1..];
  }

  lemma MiddleWithoutResponse(turn: seq<Step>)
    requires turn != [] && forall i :: 0 < i < |turn| ==> !Responds(turn[i])
    ensures MiddleSteps(turn) == turn[1..]
  {
    LastResponse(turn);
  }
}
