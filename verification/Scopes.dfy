/** `buildTurnDiffScopes`: one scope per turn with changed files, relabelled newest first by writing through
    a reversed list of the same objects. */
module Scopes {
  import opened Sequences
  import opened FileChanges
  import opened Text

  datatype ScopeKind = Workspace | TurnScope

  datatype Scope = Scope(id: string, name: string, kind: ScopeKind, turnIndex: nat, files: seq<FileChange>)

  const CURRENT := Scope("current", "当前", Workspace, 0, [])

  function Chronological(turnIndex: nat, files: seq<FileChange>): Scope {
    Scope("turn-chrono-" + Decimal(turnIndex), "T" + Decimal(turnIndex), TurnScope, turnIndex, files)
  }

  /** What extracting file changes from a turn gives; None is a thrown TypeError. */
  type Files<!T> = T -> Option<seq<FileChange>>

  /** The scopes of the turns with changed files, oldest first; `turnIndex` counts all turns from 1. */
  function ScopesInOrder<T>(files: Files<T>, turns: seq<T>): Option<seq<Scope>> {
    if turns == [] then Some([])
    else
      match (ScopesInOrder(files, Front(turns)), files(Last(turns)))
      case (Some(before), Some(changed)) =>
        Some(if changed == [] then before else before + [Chronological(|turns|, changed)])
      case _ => None
  }

  function Relabelled(s: Scope, n: nat): Scope {
    s.(name := "T" + Decimal(n), id := "turn-" + Decimal(n))
  }

  class ScopeCell {
    var value: Scope

    constructor (value: Scope)
      ensures this.value == value
    {
      this.value := value;
    }
  }

  ghost predicate Holds(cells: seq<ScopeCell>, scopes: seq<Scope>)
    reads cells
  {
    && |cells| == |scopes|
    && (forall k :: 0 <= k < |cells| ==> cells[k].value == scopes[k])
    && (forall i, j :: 0 <= i < j < |cells| ==> cells[i] != cells[j])
  }

  /** The turn scopes, oldest first, named from the newest. */
  function NamedFromNewest(scopes: seq<Scope>): seq<Scope> {
    seq(|scopes|, j requires 0 <= j < |scopes| => Relabelled(scopes[j], |scopes| - j))
  }

  function DiffScopes<T>(files: Files<T>, turns: seq<T>): Option<seq<Scope>> {
    match ScopesInOrder(files, turns)
    case Some(scopes) => Some([CURRENT] + NamedFromNewest(scopes))
    case None => None
  }

  method PushScopes<T>(files: Files<T>, turns: seq<T>) returns (r: Option<seq<ScopeCell>>)
    ensures r.Some? <==> ScopesInOrder(files, turns).Some?
    ensures r.Some? ==> Holds(r.value, [CURRENT] + ScopesInOrder(files, turns).value)
    ensures r.Some? ==> forall k :: 0 <= k < |r.value| ==> fresh(r.value[k])
  {
    var current := new ScopeCell(CURRENT);
    var cells := [current];
    ghost var scopes: seq<Scope> := [];
    for index := 0 to |turns|
      invariant ScopesInOrder(files, turns[..index]) == Some(scopes)
      invariant Holds(cells, [CURRENT] + scopes)
      invariant forall k :: 0 <= k < |cells| ==> fresh(cells[k])
    {
      assert Front(turns[..index + 1]) == turns[..index];
      var changed := files(turns[index]);
      if changed.None? {
        ChronologyFails(files, turns, index);
        return None;
      }
      if |changed.value| > 0 {
        var cell := new ScopeCell(Chronological(index + 1, changed.value));
        cells := cells + [cell];
        scopes := scopes + [Chronological(index + 1, changed.value)];
      }
    }
    assert turns[..|turns|] == turns;
    return Some(cells);
  }

  lemma {:induction false} ChronologyFails<T>(files: Files<T>, turns: seq<T>, index: nat)
    requires index < |turns| && files(turns[index]).None?
    ensures ScopesInOrder(files, turns).None?
    decreases |turns|
  {
    if index < |turns| - 1 {
      ChronologyFails(files, Front(turns), index);
    }
  }

  function Reversed<T>(s: seq<T>): seq<T> { seq(|s|, i requires 0 <= i < |s| => s[|s| - 1 - i]) }

  /** The cells of a list that hold turn scopes: the same objects, not copies. */
  method TurnCells(cells: seq<ScopeCell>) returns (turnScopes: seq<ScopeCell>)
    requires cells != [] && cells[0].value.kind == Workspace
    requires forall k :: 0 < k < |cells| ==> cells[k].value.kind == TurnScope
    ensures turnScopes == cells[1..]
  {
    turnScopes := [];
    for k := 0 to |cells|
      invariant turnScopes == if k == 0 then [] else cells[1..k]
    {
      if cells[k].value.kind == TurnScope { turnScopes := turnScopes + [cells[k]]; }
    }
  }

  /** Writing through a reversed list of references into the list they came from. */
  method RelabelThrough(reversed: seq<ScopeCell>, ghost cells: seq<ScopeCell>, ghost scopes: seq<Scope>)
    requires Holds(cells, scopes) && reversed == Reversed(cells)
    modifies cells
    ensures Holds(cells, NamedFromNewest(scopes))
  {
    for d := 0 to |reversed|
      invariant forall k :: 0 <= k < |cells| - d ==> cells[k].value == scopes[k]
      invariant forall k :: |cells| - d <= k < |cells| ==>
                  cells[k].value == Relabelled(scopes[k], |scopes| - k)
    {
      var scope := reversed[d];
      assert scope == cells[|cells| - 1 - d];
      scope.value := scope.value.(name := "T" + Decimal(d + 1));
      scope.value := scope.value.(id := "turn-" + Decimal(d + 1));
    }
  }

  method BuildScopes<T>(files: Files<T>, turns: seq<T>) returns (r: Option<seq<ScopeCell>>)
    ensures r.Some? <==> DiffScopes(files, turns).Some?
    ensures r.Some? ==> Holds(r.value, DiffScopes(files, turns).value)
    ensures r.Some? ==> forall k :: 0 <= k < |r.value| ==> fresh(r.value[k])
  {
    r := PushScopes(files, turns);
    if r.None? { return; }
    ghost var scopes := ScopesInOrder(files, turns).value;
    ChronologyIsFaithful(files, turns);
    forall k | 0 < k < |r.value| ensures r.value[k].value.kind == TurnScope {
      assert r.value[k].value == scopes[k - 1];
      assert ScopeOfTurn(files, turns, scopes[k - 1]);
    }
    var turnScopes := TurnCells(r.value);
    RelabelThrough(Reversed(turnScopes), turnScopes, scopes);
  }

  // ----- what the scopes are

  ghost predicate ScopeOfTurn<T>(files: Files<T>, turns: seq<T>, s: Scope) {
    && s.kind == TurnScope
    && 1 <= s.turnIndex <= |turns|
    && s.files != []
    && files(turns[s.turnIndex - 1]) == Some(s.files)
  }

  ghost predicate Represented(scopes: seq<Scope>, turnIndex: nat) {
    exists k :: 0 <= k < |scopes| && scopes[k].turnIndex == turnIndex
  }

  ghost predicate Chronology<T>(files: Files<T>, turns: seq<T>, scopes: seq<Scope>) {
    && (forall k :: 0 <= k < |scopes| ==> ScopeOfTurn(files, turns, scopes[k]))
    && (forall j, k :: 0 <= j < k < |scopes| ==> scopes[j].turnIndex < scopes[k].turnIndex)
    && (forall i :: 0 <= i < |turns| && files(turns[i]) != Some([]) ==> Represented(scopes, i + 1))
  }

  lemma RepresentedStays(scopes: seq<Scope>, more: seq<Scope>, turnIndex: nat)
    requires Represented(scopes, turnIndex)
    ensures Represented(scopes + more, turnIndex)
  {
    var k :| 0 <= k < |scopes| && scopes[k].turnIndex == turnIndex;
    assert (scopes + more)[k].turnIndex == turnIndex;
  }

  lemma OneMoreTurn<T>(files: Files<T>, turns: seq<T>, scopes: seq<Scope>, turn: T, changed: seq<FileChange>)
    requires Chronology(files, turns, scopes) && files(turn) == Some(changed)
    ensures var more := if changed == [] then [] else [Chronological(|turns| + 1, changed)];
            Chronology(files, turns + [turn], scopes + more)
  {
    var more := if changed == [] then [] else [Chronological(|turns| + 1, changed)];
    var after := scopes + more;
    forall k | 0 <= k < |after| ensures ScopeOfTurn(files, turns + [turn], after[k]) {
      assert k < |scopes| ==> ScopeOfTurn(files, turns, scopes[k]);
    }
    forall j, k | 0 <= j < k < |after| ensures after[j].turnIndex < after[k].turnIndex {
      assert ScopeOfTurn(files, turns, scopes[j]);
    }
    forall i | 0 <= i < |turns| + 1 && files((turns + [turn])[i]) != Some([])
      ensures Represented(after, i + 1)
    {
      if i < |turns| {
        RepresentedStays(scopes, more, i + 1);
      } else {
        assert after[|scopes|].turnIndex == i + 1;
      }
    }
  }

  lemma ScopesGrow<T>(files: Files<T>, turns: seq<T>, turn: T)
    requires ScopesInOrder(files, turns + [turn]).Some?
    ensures files(turn).Some? && ScopesInOrder(files, turns).Some?
    ensures ScopesInOrder(files, turns + [turn]).value ==
            ScopesInOrder(files, turns).value
            + if files(turn).value == [] then [] else [Chronological(|turns| + 1, files(turn).value)]
  {
    Joins(turns, turn);
  }

  lemma {:induction false} ChronologyIsFaithful<T>(files: Files<T>, turns: seq<T>)
    requires ScopesInOrder(files, turns).Some?
    ensures Chronology(files, turns, ScopesInOrder(files, turns).value)
  {
    if turns != [] {
      var front, turn := Front(turns), Last(turns);
      EndsWithLast(turns);
      ScopesGrow(files, front, turn);
      ChronologyIsFaithful(files, front);
      OneMoreTurn(files, front, ScopesInOrder(files, front).value, turn, files(turn).value);
    }
  }

  lemma RelabellingKeepsChronology<T>(files: Files<T>, turns: seq<T>, scopes: seq<Scope>)
    requires Chronology(files, turns, scopes)
    ensures Chronology(files, turns, NamedFromNewest(scopes))
  {
    var named := NamedFromNewest(scopes);
    forall k | 0 <= k < |named| ensures ScopeOfTurn(files, turns, named[k]) {
      assert ScopeOfTurn(files, turns, scopes[k]);
    }
    forall j, k | 0 <= j < k < |named| ensures named[j].turnIndex < named[k].turnIndex {
      assert scopes[j].turnIndex < scopes[k].turnIndex;
    }
    forall i | 0 <= i < |turns| && files(turns[i]) != Some([]) ensures Represented(named, i + 1) {
      RelabelledStays(scopes, i + 1);
    }
  }

  lemma RelabelledStays(scopes: seq<Scope>, turnIndex: nat)
    requires Represented(scopes, turnIndex)
    ensures Represented(NamedFromNewest(scopes), turnIndex)
  {
    var k :| 0 <= k < |scopes| && scopes[k].turnIndex == turnIndex;
    assert NamedFromNewest(scopes)[k].turnIndex == turnIndex;
  }

  lemma NumeralsDiffer(a: string, m: nat, n: nat)
    requires m != n
    ensures a + Decimal(m) != a + Decimal(n)
  {
    DecimalDenotes(m);
    DecimalDenotes(n);
    assert (a + Decimal(m))[|a|..] == Decimal(m) && (a + Decimal(n))[|a|..] == Decimal(n);
  }

  lemma NamesAreApart(scopes: seq<Scope>, i: nat, j: nat)
    requires i < j < |scopes|
    ensures var named := NamedFromNewest(scopes);
            named[i].name != named[j].name && named[i].id != named[j].id
  {
    NumeralsDiffer("T", |scopes| - i, |scopes| - j);
    NumeralsDiffer("turn-", |scopes| - i, |scopes| - j);
  }

  predicate AllApart(scopes: seq<Scope>) {
    forall i, j :: 0 <= i < j < |scopes| ==> scopes[i].name != scopes[j].name && scopes[i].id != scopes[j].id
  }

  lemma NamedAreApart(scopes: seq<Scope>)
    ensures AllApart(NamedFromNewest(scopes))
  {
    var named := NamedFromNewest(scopes);
    forall i, j | 0 <= i < j < |named| ensures named[i].name != named[j].name && named[i].id != named[j].id {
      NamesAreApart(scopes, i, j);
    }
  }

  /** After "current", the scopes stand for exactly the turns with changed files, in chronological order;
      of k of them, the one at place j from 0 is named T(k - j), so the newest is T1; and names and ids are
      distinct. */
  lemma ScopesAreNamedFromNewest<T>(files: Files<T>, turns: seq<T>)
    requires DiffScopes(files, turns).Some?
    ensures var scopes := DiffScopes(files, turns).value;
            var named := scopes[1..];
            && scopes[0] == Scope("current", "当前", Workspace, 0, [])
            && Chronology(files, turns, named)
            && (forall j :: 0 <= j < |named| ==> named[j].name == "T" + Decimal(|named| - j)
                                                 && named[j].id == "turn-" + Decimal(|named| - j))
            && AllApart(named)
  {
    var inOrder := ScopesInOrder(files, turns).value;
    ChronologyIsFaithful(files, turns);
    RelabellingKeepsChronology(files, turns, inOrder);
    NamedAreApart(inOrder);
    Starts(CURRENT, NamedFromNewest(inOrder));
  }
}
