/** The requirement branch of `build_task_plan`: requirements that ask for too much are split into slices,
    and the slices become one chain of tasks. */
module RequirementPlan {
  import opened Sequences
  import opened Text
  import opened ModelPlan
  import opened Graphs

  /** A list entry of a requirement: a string, or anything else. */
  datatype Entry = Words(text: string) | OtherValue

  datatype Requirement = Requirement(
    id: string, priority: string, description: string, acceptance: seq<Entry>, artifacts: seq<Entry>,
    splitFrom: Option<string>)

  datatype PlannedTask = PlannedTask(
    taskId: string, status: TaskStatus, dependsOn: seq<string>, acceptance: seq<Entry>)

  function NonBlankPart(e: Entry): seq<string> {
    if e.Words? && Strip(e.text) != "" then [Strip(e.text)] else []
  }

  /** `[str(item).strip() for item in ... if isinstance(item, str) and item.strip()]` */
  function NonBlank(entries: seq<Entry>): seq<string> {
    if entries == [] then [] else NonBlank(Front(entries)) + NonBlankPart(Last(entries))
  }

  function AsEntries(texts: seq<string>): seq<Entry> { Map((t: string) => Words(t), texts) }

  /** `f"{n:02d}"` */
  function TwoDigits(n: nat): string { if n < 10 then "0" + Decimal(n) else Decimal(n) }

  function SliceId(r: Requirement, n: nat): string { r.id + ".slice-" + TwoDigits(n) }

  // ----- splitting by artifact

  function ArtifactCriterion(artifacts: seq<string>, acceptance: seq<string>, i: nat): string
    requires i < |artifacts|
  {
    if i < |acceptance| then acceptance[i] else artifacts[i] + " is created or updated"
  }

  function ArtifactSlice(r: Requirement, artifacts: seq<string>, acceptance: seq<string>, i: nat): Requirement
    requires i < |artifacts|
  {
    r.(id := SliceId(r, i + 1),
       description := Strip(r.description) + " [" + artifacts[i] + "]",
       acceptance := [Words(ArtifactCriterion(artifacts, acceptance, i))],
       artifacts := [Words(artifacts[i])],
       splitFrom := Some(r.id))
  }

  function ByArtifact(r: Requirement, artifacts: seq<string>, acceptance: seq<string>): seq<Requirement> {
    seq(|artifacts|, i requires 0 <= i < |artifacts| => ArtifactSlice(r, artifacts, acceptance, i))
  }

  method SplitByArtifact(r: Requirement, artifacts: seq<string>, acceptance: seq<string>)
    returns (split: seq<Requirement>)
    ensures split == ByArtifact(r, artifacts, acceptance)
  {
    split := [];
    for i := 0 to |artifacts|
      invariant split == ByArtifact(r, artifacts, acceptance)[..i]
    {
      split := split + [ArtifactSlice(r, artifacts, acceptance, i)];
    }
  }

  // ----- splitting by acceptance

  function Chunks(texts: seq<string>): seq<seq<string>>
    decreases |texts|
  {
    if |texts| == 0 then [] else if |texts| <= 3 then [texts] else [texts[..3]] + Chunks(texts[3..])
  }

  function AcceptanceSlice(r: Requirement, expected: seq<string>, chunks: seq<seq<string>>, i: nat): Requirement
    requires i < |chunks|
  {
    r.(id := SliceId(r, i + 1),
       description := Strip(r.description) + " (acceptance slice " + Decimal(i + 1) + "/"
                      + Decimal(|chunks|) + ")",
       acceptance := AsEntries(chunks[i]),
       artifacts := AsEntries(expected),
       splitFrom := Some(r.id))
  }

  function ByAcceptance(r: Requirement, acceptance: seq<string>, expected: seq<string>): seq<Requirement> {
    var chunks := Chunks(acceptance);
    seq(|chunks|, i requires 0 <= i < |chunks| => AcceptanceSlice(r, expected, chunks, i))
  }

  function Remaining(texts: seq<string>, index: nat): seq<string> {
    if index <= |texts| then texts[index..] else []
  }

  lemma ChunkOff(texts: seq<string>, index: nat)
    requires index < |texts|
    ensures var end := if index + 3 <= |texts| then index + 3 else |texts|;
            Chunks(Remaining(texts, index)) == [texts[index..end]] + Chunks(Remaining(texts, index + 3))
  {
    var rest := texts[index..];
    if |rest| <= 3 {
      assert rest == texts[index..|texts|];
      assert Remaining(texts, index + 3) == [];
    } else {
      assert rest[..3] == texts[index..index + 3] && rest[3..] == texts[index + 3..];
    }
  }

  method ChunksOf(texts: seq<string>) returns (chunks: seq<seq<string>>)
    ensures chunks == Chunks(texts)
  {
    chunks := [];
    var index := 0;
    while index < |texts|
      invariant 0 <= index
      invariant chunks + Chunks(Remaining(texts, index)) == Chunks(texts)
    {
      var end := if index + 3 <= |texts| then index + 3 else |texts|;
      ChunkOff(texts, index);
      chunks := chunks + [texts[index..end]];
      index := index + 3;
    }
  }

  method SplitByAcceptance(r: Requirement, acceptance: seq<string>, expected: seq<string>)
    returns (split: seq<Requirement>)
    ensures split == ByAcceptance(r, acceptance, expected)
  {
    var chunks := ChunksOf(acceptance);
    split := [];
    for i := 0 to |chunks|
      invariant split == ByAcceptance(r, acceptance, expected)[..i]
    {
      split := split + [AcceptanceSlice(r, expected, chunks, i)];
    }
  }

  // ----- deciding

  /** What the planner computes outside this model: the quality refinement of a requirement, and the
      artifacts it expects. */
  datatype Advice = Advice(refine: Requirement -> Requirement, expected: Requirement -> seq<string>)

  predicate IsSmall(r: Requirement) { |NonBlank(r.acceptance)| <= 4 && |NonBlank(r.artifacts)| <= 3 }

  function Split(advice: Advice, r: Requirement): seq<Requirement> {
    if IsSmall(r) then [r]
    else if |NonBlank(r.artifacts)| > 3 then ByArtifact(r, NonBlank(r.artifacts), NonBlank(r.acceptance))
    else ByAcceptance(r, NonBlank(r.acceptance), advice.expected(r))
  }

  method SplitRequirementIfNeeded(advice: Advice, r: Requirement) returns (split: seq<Requirement>)
    ensures split == Split(advice, r)
  {
    var acceptance, artifacts := NonBlank(r.acceptance), NonBlank(r.artifacts);
    if |acceptance| <= 4 && |artifacts| <= 3 { return [r]; }
    if artifacts != [] && |artifacts| > 3 {
      split := SplitByArtifact(r, artifacts, acceptance);
    } else {
      split := SplitByAcceptance(r, acceptance, advice.expected(r));
    }
  }

  // ----- the plan

  function Sliced(advice: Advice, requirements: seq<Requirement>): seq<Requirement> {
    if requirements == [] then []
    else
      Sliced(advice, Front(requirements))
      + if Last(requirements).priority == "wont" then [] else Split(advice, advice.refine(Last(requirements)))
  }

  function ChainTask(slices: seq<Requirement>, i: nat): PlannedTask
    requires i < |slices|
  {
    PlannedTask(Canonical(i), if i == 0 then Ready else Backlog,
                if i == 0 then [] else [Canonical(i - 1)], slices[i].acceptance)
  }

  function Fallback(definitionOfDone: seq<string>): PlannedTask {
    var criteria := if |definitionOfDone| <= 3 then definitionOfDone else definitionOfDone[..3];
    PlannedTask("task-0001", Ready, [], AsEntries(if criteria == [] then ["Goal is clarified"] else criteria))
  }

  function Plan(advice: Advice, requirements: seq<Requirement>, definitionOfDone: seq<string>)
    : (tasks: seq<PlannedTask>)
  {
    var slices := Sliced(advice, requirements);
    if slices == [] then [Fallback(definitionOfDone)] else Chain(slices)
  }

  function Chain(slices: seq<Requirement>): seq<PlannedTask> {
    seq(|slices|, i requires 0 <= i < |slices| => ChainTask(slices, i))
  }

  /** The tasks appended one by one: ready if first, else depending on the task appended last. */
  method ChainUp(slices: seq<Requirement>) returns (tasks: seq<PlannedTask>)
    ensures tasks == Chain(slices)
  {
    tasks := [];
    for i := 0 to |slices|
      invariant |tasks| == i && forall k :: 0 <= k < i ==> tasks[k] == ChainTask(slices, k)
    {
      var status := if tasks == [] then Ready else Backlog;
      var dependsOn := if tasks == [] then [] else [Last(tasks).taskId];
      tasks := tasks + [PlannedTask(Canonical(i), status, dependsOn, slices[i].acceptance)];
    }
  }

  lemma SlicedGrows(advice: Advice, requirements: seq<Requirement>, r: Requirement)
    ensures Sliced(advice, requirements + [r]) ==
            Sliced(advice, requirements) + if r.priority == "wont" then [] else Split(advice, advice.refine(r))
  {
    Joins(requirements, r);
  }

  method BuildTaskPlan(advice: Advice, requirements: seq<Requirement>, definitionOfDone: seq<string>)
    returns (tasks: seq<PlannedTask>)
    ensures tasks == Plan(advice, requirements, definitionOfDone)
  {
    var slices: seq<Requirement> := [];
    for k := 0 to |requirements|
      invariant slices == Sliced(advice, requirements[..k])
    {
      TakeOneMore(requirements, k);
      SlicedGrows(advice, requirements[..k], requirements[k]);
      if requirements[k].priority == "wont" { continue; }
      var split := SplitRequirementIfNeeded(advice, advice.refine(requirements[k]));
      slices := slices + split;
    }
    assert requirements[..|requirements|] == requirements;
    tasks := ChainUp(slices);
    if tasks == [] {
      tasks := [Fallback(definitionOfDone)];
    }
  }

  // ----- what the slices hold

  lemma {:induction false} TrimIsStable(space: char -> bool, s: string)
    ensures TrimBy(space, TrimBy(space, s)) == TrimBy(space, s)
    decreases |s|
  {
    if s != "" {
      if space(s[0]) {
        TrimIsStable(space, s[1..]);
      } else if space(Last(s)) {
        TrimIsStable(space, Front(s));
      }
    }
  }

  predicate Clean(texts: seq<string>) { forall i :: 0 <= i < |texts| ==> texts[i] != "" && Strip(texts[i]) == texts[i] }

  lemma {:induction false} NonBlankIsClean(entries: seq<Entry>)
    ensures Clean(NonBlank(entries))
  {
    if entries != [] {
      NonBlankIsClean(Front(entries));
      if Last(entries).Words? { StripIsStable(Last(entries).text); }
    }
  }

  lemma StripIsStable(s: string)
    ensures Strip(Strip(s)) == Strip(s)
  {
    TrimIsStable(PySpace(), s);
  }

  lemma {:induction false} CleanRoundTrip(texts: seq<string>)
    requires Clean(texts)
    ensures NonBlank(AsEntries(texts)) == texts
  {
    if texts != [] {
      CleanRoundTrip(Front(texts));
      assert Front(AsEntries(texts)) == AsEntries(Front(texts));
      assert texts == Front(texts) + [Last(texts)];
    }
  }

  /** The criteria of a list of slices, in order. */
  function Criteria(slices: seq<Requirement>): seq<string> {
    if slices == [] then [] else Criteria(Front(slices)) + NonBlank(Last(slices).acceptance)
  }

  function ArtifactsOf(slices: seq<Requirement>): seq<string> {
    if slices == [] then [] else ArtifactsOf(Front(slices)) + NonBlank(Last(slices).artifacts)
  }

  lemma FlattenOne(texts: seq<string>)
    ensures Flatten([texts]) == texts
  {
    FlattenSnoc([], texts);
    assert [] + [texts] == [texts];
  }

  lemma {:induction false} ChunksFlattenBack(texts: seq<string>)
    ensures Flatten(Chunks(texts)) == texts
    ensures forall k :: 0 <= k < |Chunks(texts)| ==> 1 <= |Chunks(texts)[k]| <= 3
    ensures forall k :: 0 <= k < |Chunks(texts)| - 1 ==> |Chunks(texts)[k]| == 3
    decreases |texts|
  {
    if 0 < |texts| <= 3 {
      FlattenOne(texts);
    } else if |texts| > 3 {
      var first, rest := texts[..3], texts[3..];
      ChunksFlattenBack(rest);
      FlattenConcat([first], Chunks(rest));
      FlattenOne(first);
      assert texts == first + rest;
    }
  }

  lemma {:induction false} CriteriaOf(slices: seq<Requirement>, parts: seq<seq<string>>)
    requires |slices| == |parts|
    requires forall i :: 0 <= i < |slices| ==> NonBlank(slices[i].acceptance) == parts[i]
    ensures Criteria(slices) == Flatten(parts)
  {
    if slices != [] {
      CriteriaOf(Front(slices), Front(parts));
    }
  }

  lemma {:induction false} ArtifactsAre(slices: seq<Requirement>, names: seq<string>)
    requires |slices| == |names|
    requires forall i :: 0 <= i < |slices| ==> NonBlank(slices[i].artifacts) == [names[i]]
    ensures ArtifactsOf(slices) == names
  {
    if slices != [] {
      ArtifactsAre(Front(slices), Front(names));
      assert names == Front(names) + [Last(names)];
    }
  }

  lemma NonBlankOfOne(text: string)
    requires text != "" && Strip(text) == text
    ensures NonBlank([Words(text)]) == [text]
  {
    assert Front([Words(text)]) == [];
  }

  lemma {:induction false} CleanChunks(texts: seq<string>)
    requires Clean(texts)
    ensures forall k :: 0 <= k < |Chunks(texts)| ==> Clean(Chunks(texts)[k])
    decreases |texts|
  {
    if |texts| > 3 {
      CleanChunks(texts[3..]);
      assert Chunks(texts)[1..] == Chunks(texts[3..]);
    }
  }

  /** Slices by acceptance carry the original criteria, all of them and in order, one to three a slice. */
  lemma AcceptanceSlicesConserve(r: Requirement, acceptance: seq<string>, expected: seq<string>)
    requires Clean(acceptance)
    ensures var slices := ByAcceptance(r, acceptance, expected);
            && Criteria(slices) == acceptance
            && forall i :: 0 <= i < |slices| ==> 1 <= |NonBlank(slices[i].acceptance)| <= 3
  {
    var slices, chunks := ByAcceptance(r, acceptance, expected), Chunks(acceptance);
    CleanChunks(acceptance);
    ChunksFlattenBack(acceptance);
    forall i | 0 <= i < |slices| ensures NonBlank(slices[i].acceptance) == chunks[i] {
      CleanRoundTrip(chunks[i]);
    }
    CriteriaOf(slices, chunks);
  }

  lemma {:induction false} TrimShrinks(space: char -> bool, s: string)
    ensures |TrimBy(space, s)| <= |s|
    decreases |s|
  {
    if s != "" {
      if space(s[0]) { TrimShrinks(space, s[1..]); } else if space(Last(s)) { TrimShrinks(space, Front(s)); }
    }
  }

  lemma FallbackCriterionIsClean(artifact: string)
    requires artifact != "" && Strip(artifact) == artifact
    ensures Strip(artifact + " is created or updated") == artifact + " is created or updated"
  {
    TrimShrinks(PySpace(), artifact[1..]);
    assert !IsPySpace(artifact[0]);
    var text := artifact + " is created or updated";
    assert text[0] == artifact[0] && Last(text) == 'd';
  }

  /** Slices by artifact name each artifact exactly once, in order, and hold one criterion each. Every
      original criterion has a slice, in order, exactly when there are no more criteria than artifacts. */
  lemma ArtifactSlicesCover(r: Requirement, artifacts: seq<string>, acceptance: seq<string>)
    requires Clean(artifacts) && Clean(acceptance)
    ensures var slices := ByArtifact(r, artifacts, acceptance);
            && ArtifactsOf(slices) == artifacts
            && |Criteria(slices)| == |slices| == |artifacts|
            && (forall i :: 0 <= i < |slices| ==> |NonBlank(slices[i].acceptance)| == 1)
            && (forall i :: 0 <= i < |slices| && i < |acceptance| ==> Criteria(slices)[i] == acceptance[i])
            && (acceptance <= Criteria(slices) <==> |acceptance| <= |artifacts|)
  {
    var slices := ByArtifact(r, artifacts, acceptance);
    var texts := seq(|artifacts|, i requires 0 <= i < |artifacts| => ArtifactCriterion(artifacts, acceptance, i));
    var parts := Map((t: string) => [t], texts);
    forall i | 0 <= i < |slices|
      ensures NonBlank(slices[i].acceptance) == parts[i] && NonBlank(slices[i].artifacts) == [artifacts[i]]
    {
      NonBlankOfOne(artifacts[i]);
      FallbackCriterionIsClean(artifacts[i]);
      NonBlankOfOne(texts[i]);
    }
    CriteriaOf(slices, parts);
    ArtifactsAre(slices, artifacts);
    FlattenSingletons(texts);
  }

  lemma {:induction false} FlattenSingletons(texts: seq<string>)
    ensures Flatten(Map((t: string) => [t], texts)) == texts
  {
    if texts != [] {
      var f := (t: string) => [t];
      assert Front(Map(f, texts)) == Map(f, Front(texts));
      FlattenSingletons(Front(texts));
      assert texts == Front(texts) + [Last(texts)];
    }
  }

  // ----- what the plan promises

  lemma SplitIsSmall(advice: Advice, r: Requirement)
    ensures forall s :: s in Split(advice, r) ==> |NonBlank(s.acceptance)| <= 4
    ensures Split(advice, r) != []
  {
    NonBlankIsClean(r.acceptance);
    NonBlankIsClean(r.artifacts);
    if !IsSmall(r) {
      ArtifactSlicesCover(r, NonBlank(r.artifacts), NonBlank(r.acceptance));
      AcceptanceSlicesConserve(r, NonBlank(r.acceptance), advice.expected(r));
    }
  }

  lemma {:induction false} SlicesAreSmall(advice: Advice, requirements: seq<Requirement>)
    ensures forall s :: s in Sliced(advice, requirements) ==> |NonBlank(s.acceptance)| <= 4
  {
    if requirements != [] {
      SlicesAreSmall(advice, Front(requirements));
      SplitIsSmall(advice, advice.refine(Last(requirements)));
    }
  }

  lemma {:induction false} NonBlankShrinks(entries: seq<Entry>)
    ensures |NonBlank(entries)| <= |entries|
  {
    if entries != [] { NonBlankShrinks(Front(entries)); }
  }

  /** Every planned task carries at most four non-blank acceptance criteria. */
  lemma TasksAreSmall(advice: Advice, requirements: seq<Requirement>, definitionOfDone: seq<string>)
    ensures forall t :: t in Plan(advice, requirements, definitionOfDone) ==> |NonBlank(t.acceptance)| <= 4
  {
    SlicesAreSmall(advice, requirements);
    NonBlankShrinks(Fallback(definitionOfDone).acceptance);
  }

  /** Some task of the list lists the id of another. */
  function DependsGraph(tasks: seq<PlannedTask>): Graph {
    (i: nat, j: nat) => i < |tasks| && j < |tasks| && tasks[j].taskId in tasks[i].dependsOn
  }

  /** The tasks form one chain: each depends on the one before it and on nothing else, so that from any task
      following dependencies passes every earlier one; and the first is the only one ready. */
  lemma TasksFormOneChain(advice: Advice, requirements: seq<Requirement>, definitionOfDone: seq<string>)
    ensures var tasks := Plan(advice, requirements, definitionOfDone);
            && tasks != []
            && (forall i, j :: 0 <= i < |tasks| && 0 <= j < |tasks| ==>
                  (DependsGraph(tasks)(i, j) <==> i == j + 1))
            && (forall i :: 0 < i < |tasks| ==> tasks[i].dependsOn == [tasks[i - 1].taskId])
            && (forall i :: 0 <= i < |tasks| ==> (tasks[i].status == Ready <==> i == 0))
            && (forall i :: 0 <= i < |tasks| ==> (tasks[i].status == Ready <==> tasks[i].dependsOn == []))
            && Acyclic(DependsGraph(tasks), |tasks|)
  {
    var tasks := Plan(advice, requirements, definitionOfDone);
    forall i, j | 0 <= i < |tasks| && 0 <= j < |tasks|
      ensures DependsGraph(tasks)(i, j) <==> i == j + 1
    {
      if Sliced(advice, requirements) != [] && i > 0 { CanonicalDiffers(i - 1, j); }
    }
    forall p ensures !IsCycle(DependsGraph(tasks), |tasks|, p) {
      if IsWalk(DependsGraph(tasks), |tasks|, p) { ChainDescends(tasks, p); }
    }
  }

  lemma {:induction false} ChainDescends(tasks: seq<PlannedTask>, p: seq<nat>)
    requires forall i, j :: 0 <= i < |tasks| && 0 <= j < |tasks| ==> (DependsGraph(tasks)(i, j) <==> i == j + 1)
    requires IsWalk(DependsGraph(tasks), |tasks|, p)
    ensures p[0] == Last(p) + |p| - 1
  {
    if |p| > 1 {
      assert IsWalk(DependsGraph(tasks), |tasks|, Front(p));
      ChainDescends(tasks, Front(p));
    }
  }

  /** What a requirement is to be accepted by, over all those planned for. */
  function AllCriteria(advice: Advice, requirements: seq<Requirement>): seq<string> {
    if requirements == [] then []
    else
      AllCriteria(advice, Front(requirements))
      + if Last(requirements).priority == "wont" then []
        else NonBlank(advice.refine(Last(requirements)).acceptance)
  }

  lemma CriteriaSnoc(slices: seq<Requirement>, r: Requirement)
    ensures Criteria(slices + [r]) == Criteria(slices) + NonBlank(r.acceptance)
  {
    Joins(slices, r);
  }

  lemma {:induction false} CriteriaConcat(a: seq<Requirement>, b: seq<Requirement>)
    ensures Criteria(a + b) == Criteria(a) + Criteria(b)
  {
    if b == [] {
      assert a + b == a;
    } else {
      var front, last := Front(b), Last(b);
      EndsWithLast(b);
      ConcatEndsWithLast(a, b);
      CriteriaConcat(a, front);
      CriteriaSnoc(a + front, last);
      CriteriaSnoc(front, last);
    }
  }

  /** Whether splitting a requirement is sure to keep its criteria: it is not sliced by artifact, or has one
      criterion for each artifact. */
  predicate KeepsCriteria(r: Requirement) {
    |NonBlank(r.artifacts)| <= 3 || |NonBlank(r.acceptance)| == |NonBlank(r.artifacts)|
  }

  /** Splitting a requirement loses, invents and reorders no criterion exactly when it is not sliced by
      artifact or has one criterion for each artifact. */
  lemma SplitConservesIff(advice: Advice, r: Requirement)
    ensures Criteria(Split(advice, r)) == NonBlank(r.acceptance) <==> KeepsCriteria(r)
  {
    if IsSmall(r) {
      assert Front([r]) == [] && Criteria([]) == [];
      assert Criteria([r]) == [] + NonBlank(r.acceptance);
    } else {
      NonBlankIsClean(r.acceptance);
      NonBlankIsClean(r.artifacts);
      if |NonBlank(r.artifacts)| > 3 {
        ArtifactSlicesCover(r, NonBlank(r.artifacts), NonBlank(r.acceptance));
      } else {
        AcceptanceSlicesConserve(r, NonBlank(r.acceptance), advice.expected(r));
      }
    }
  }

  const FIVE_CRITERIA := ["1", "2", "3", "4", "5"]
  const FOUR_ARTIFACTS := ["a", "b", "c", "d"]

  lemma LettersAreClean(texts: seq<string>)
    requires forall i :: 0 <= i < |texts| ==> |texts[i]| == 1 && !IsPySpace(texts[i][0])
    ensures Clean(texts)
  {
  }

  /** Four artifacts and five criteria: the last criterion is in no slice. */
  lemma ArtifactsCanDropACriterion(advice: Advice, r: Requirement)
    requires r.acceptance == AsEntries(FIVE_CRITERIA) && r.artifacts == AsEntries(FOUR_ARTIFACTS)
    ensures NonBlank(r.acceptance) == FIVE_CRITERIA
    ensures Criteria(Split(advice, r)) == FIVE_CRITERIA[..4]
  {
    LettersAreClean(FIVE_CRITERIA);
    LettersAreClean(FOUR_ARTIFACTS);
    CleanRoundTrip(FIVE_CRITERIA);
    CleanRoundTrip(FOUR_ARTIFACTS);
    ArtifactSlicesCover(r, FOUR_ARTIFACTS, FIVE_CRITERIA);
  }

  /** Neither does slicing them all. */
  lemma {:induction false} SlicingConservesCriteria(advice: Advice, requirements: seq<Requirement>)
    requires forall i :: 0 <= i < |requirements| && requirements[i].priority != "wont" ==>
                           KeepsCriteria(advice.refine(requirements[i]))
    ensures Criteria(Sliced(advice, requirements)) == AllCriteria(advice, requirements)
  {
    if requirements != [] {
      SlicingConservesCriteria(advice, Front(requirements));
      var last := requirements[|requirements| - 1];
      if last.priority != "wont" {
        SplitConservesIff(advice, advice.refine(last));
        CriteriaConcat(Sliced(advice, Front(requirements)), Split(advice, advice.refine(last)));
      } else {
        assert Sliced(advice, requirements) == Sliced(advice, Front(requirements));
      }
    }
  }

  // ----- what the tasks carry

  /** The criteria of the tasks, in order. */
  function TaskCriteria(tasks: seq<PlannedTask>): seq<string> {
    if tasks == [] then [] else TaskCriteria(Front(tasks)) + NonBlank(Last(tasks).acceptance)
  }

  lemma {:induction false} TasksCarry(slices: seq<Requirement>, tasks: seq<PlannedTask>)
    requires |tasks| == |slices| && forall i :: 0 <= i < |slices| ==> tasks[i].acceptance == slices[i].acceptance
    ensures TaskCriteria(tasks) == Criteria(slices)
  {
    if slices != [] {
      assert tasks[|tasks| - 1].acceptance == slices[|slices| - 1].acceptance;
      TasksCarry(Front(slices), Front(tasks));
    }
  }

  lemma {:induction false} NothingSliced(advice: Advice, requirements: seq<Requirement>)
    ensures Sliced(advice, requirements) == [] <==>
            forall i :: 0 <= i < |requirements| ==> requirements[i].priority == "wont"
  {
    if requirements != [] {
      EndsWithLast(requirements);
      var front, last := Front(requirements), requirements[|requirements| - 1];
      NothingSliced(advice, front);
      SlicedGrows(advice, front, last);
      if last.priority != "wont" { SplitIsSmall(advice, advice.refine(last)); }
      assert forall i :: 0 <= i < |front| ==> front[i] == requirements[i];
    }
  }

  /** When some requirement is planned for, the tasks carry all criteria of all those planned for, in order, as
      long as each requirement keeps its own; there is one task for each slice, with that slice's criteria. */
  lemma PlanCarriesCriteria(advice: Advice, requirements: seq<Requirement>, definitionOfDone: seq<string>)
    requires exists i :: 0 <= i < |requirements| && requirements[i].priority != "wont"
    ensures var tasks := Plan(advice, requirements, definitionOfDone);
            && |tasks| == |Sliced(advice, requirements)|
            && (forall i :: 0 <= i < |tasks| ==> tasks[i].acceptance == Sliced(advice, requirements)[i].acceptance)
            && TaskCriteria(tasks) == Criteria(Sliced(advice, requirements))
            && (PlannedOnesKeep(advice, requirements) ==> TaskCriteria(tasks) == AllCriteria(advice, requirements))
  {
    NothingSliced(advice, requirements);
    TasksCarry(Sliced(advice, requirements), Plan(advice, requirements, definitionOfDone));
    if PlannedOnesKeep(advice, requirements) { SlicingConservesCriteria(advice, requirements); }
  }

  ghost predicate PlannedOnesKeep(advice: Advice, requirements: seq<Requirement>) {
    forall i :: 0 <= i < |requirements| && requirements[i].priority != "wont" ==>
                  KeepsCriteria(advice.refine(requirements[i]))
  }

  /** When none is, the one task carries the first three items of the definition of done, or says that the goal
      is to be clarified. */
  lemma FallbackCarries(advice: Advice, requirements: seq<Requirement>, definitionOfDone: seq<string>)
    requires forall i :: 0 <= i < |requirements| ==> requirements[i].priority == "wont"
    ensures var tasks := Plan(advice, requirements, definitionOfDone);
            && |tasks| == 1 && tasks[0].taskId == "task-0001"
            && |tasks[0].acceptance| == (if |definitionOfDone| >= 3 then 3 else if |definitionOfDone| == 0 then 1
                                         else |definitionOfDone|)
            && (forall i :: 0 <= i < |tasks[0].acceptance| && i < |definitionOfDone| ==>
                  tasks[0].acceptance[i] == Words(definitionOfDone[i]))
            && (definitionOfDone == [] ==> tasks[0].acceptance == [Words("Goal is clarified")])
  {
    NothingSliced(advice, requirements);
  }

  // ----- what a slice says

  /** When a requirement is split, and into how many: not up to four criteria and three artifacts; one slice an
      artifact beyond three artifacts; else one for every three criteria begun. */
  lemma SplitShape(advice: Advice, r: Requirement)
    ensures var acceptance, artifacts := |NonBlank(r.acceptance)|, |NonBlank(r.artifacts)|;
            && (acceptance <= 4 && artifacts <= 3 ==> Split(advice, r) == [r])
            && (artifacts > 3 ==> |Split(advice, r)| == artifacts)
            && (acceptance > 4 && artifacts <= 3 ==> |Split(advice, r)| == (acceptance + 2) / 3)
  {
    ChunksAreCounted(NonBlank(r.acceptance));
  }

  lemma {:induction false} ChunksAreCounted(texts: seq<string>)
    ensures |Chunks(texts)| == (|texts| + 2) / 3
    decreases |texts|
  {
    if |texts| > 3 { ChunksAreCounted(texts[3..]); }
  }

  /** A slice keeps its requirement's priority, names it as its origin, and is numbered after it. */
  ghost predicate IsSlice(r: Requirement, s: Requirement, i: nat) {
    && s.splitFrom == Some(r.id) && s.priority == r.priority
    && |s.id| >= |r.id| + 9 && s.id[..|r.id| + 7] == r.id + ".slice-"
    && Denotes(s.id[|r.id| + 7..]) == i + 1
    && Strip(r.description) <= s.description
  }

  lemma TwoDigitsDenote(n: nat)
    ensures Denotes(TwoDigits(n)) == n && |TwoDigits(n)| >= 2
  {
    DecimalDenotes(n);
    LeadingZero(Decimal(n));
    if n >= 10 { assert Decimal(n) == Decimal(n / 10) + [Digit(n % 10)]; }
  }

  lemma SliceIdReads(r: Requirement, i: nat)
    ensures var id := SliceId(r, i + 1);
            |id| >= |r.id| + 9 && id[..|r.id| + 7] == r.id + ".slice-" && Denotes(id[|r.id| + 7..]) == i + 1
  {
    TwoDigitsDenote(i + 1);
    var stem := r.id + ".slice-";
    assert SliceId(r, i + 1) == stem + TwoDigits(i + 1);
    assert (stem + TwoDigits(i + 1))[|stem|..] == TwoDigits(i + 1);
  }

  /** Slices name their origin, and their number tells them apart. */
  lemma SlicesNameTheirOrigin(advice: Advice, r: Requirement)
    requires |Split(advice, r)| > 1
    ensures forall i: nat :: i < |Split(advice, r)| ==> IsSlice(r, Split(advice, r)[i], i)
    ensures forall i: nat, j: nat :: i < j < |Split(advice, r)| ==> Split(advice, r)[i].id != Split(advice, r)[j].id
  {
    forall i: nat | i < |Split(advice, r)| ensures IsSlice(r, Split(advice, r)[i], i) { SliceIdReads(r, i); }
    forall i: nat, j: nat | i < j < |Split(advice, r)| ensures Split(advice, r)[i].id != Split(advice, r)[j].id {
      assert IsSlice(r, Split(advice, r)[i], i) && IsSlice(r, Split(advice, r)[j], j);
    }
  }

  /** Slices by acceptance all carry the artifacts expected of the requirement. */
  lemma AcceptanceSlicesExpectAll(advice: Advice, r: Requirement, i: nat)
    requires |NonBlank(r.acceptance)| > 4 && |NonBlank(r.artifacts)| <= 3 && i < |Split(advice, r)|
    ensures Split(advice, r)[i].artifacts == AsEntries(advice.expected(r))
  {
  }

  /** An artifact beyond the criteria gets one of its own. */
  lemma ArtifactsAskToBeMade(r: Requirement, artifacts: seq<string>, acceptance: seq<string>, i: nat)
    requires |acceptance| <= i < |artifacts|
    ensures ByArtifact(r, artifacts, acceptance)[i].acceptance == [Words(artifacts[i] + " is created or updated")]
  {
  }
}
