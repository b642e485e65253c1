/** `finalize_model_tasks`: the dependency part of normalising a plan a model proposed. Tasks get canonical
    ids by position; the model's own ids survive only as names that dependencies may use. */
module ModelPlan {
  import opened Sequences
  import opened Text
  import opened Graphs

  /** `str(task_id or "")` and `[str(dep) ...]` of one proposed task. */
  datatype RawTask = RawTask(taskId: string, dependsOn: seq<string>)

  datatype TaskStatus = Ready | Backlog

  datatype Task = Task(taskId: string, status: TaskStatus, dependsOn: seq<string>, dropped: seq<string>)

  function NameOf(raw: RawTask): string { Strip(raw.taskId) }

  /** The id of the task at position i, which the source counts from 1. */
  function Canonical(i: nat): string { "task-" + Padded(i + 1) }

  /** The first task of this name, or -1. */
  function Bearer(raws: seq<RawTask>, name: string): (i: int)
    ensures -1 <= i < |raws|
    ensures 0 <= i ==> NameOf(raws[i]) == name
    ensures forall j :: 0 <= j < (if i < 0 then |raws| else i) ==> NameOf(raws[j]) != name
  {
    if raws == [] then -1
    else
      var i := Bearer(Front(raws), name);
      if i >= 0 then i else if NameOf(Last(raws)) == name then |raws| - 1 else -1
  }

  /** `alias_to_canonical.get(...)`: an empty name is nobody's. */
  function Resolve(raws: seq<RawTask>, name: string): Option<string> {
    if name == "" || Bearer(raws, name) < 0 then None else Some(Canonical(Bearer(raws, name)))
  }

  function Rewritten(raws: seq<RawTask>, self: string, deps: seq<string>): seq<string> {
    if deps == [] then []
    else
      var before := Rewritten(raws, self, Front(deps));
      match Resolve(raws, Strip(Last(deps)))
      case Some(c) => if c != self && c !in before then before + [c] else before
      case None => before
  }

  function Dropped(raws: seq<RawTask>, deps: seq<string>): seq<string> {
    if deps == [] then []
    else Dropped(raws, Front(deps))
         + if Resolve(raws, Strip(Last(deps))).None? then [Strip(Last(deps))] else []
  }

  function TaskAt(raws: seq<RawTask>, i: nat): Task
    requires i < |raws|
  {
    var deps := Rewritten(raws, Canonical(i), raws[i].dependsOn);
    Task(Canonical(i), if deps == [] then Ready else Backlog, deps, Dropped(raws, raws[i].dependsOn))
  }

  function Finalized(raws: seq<RawTask>): seq<Task> {
    seq(|raws|, i requires 0 <= i < |raws| => TaskAt(raws, i))
  }

  lemma ResolveGrows(raws: seq<RawTask>, raw: RawTask, name: string)
    ensures Resolve(raws + [raw], name) ==
            if Resolve(raws, name).Some? then Resolve(raws, name)
            else if name != "" && NameOf(raw) == name then Some(Canonical(|raws|)) else None
  {
    Joins(raws, raw);
  }

  ghost predicate Tabulates(alias: map<string, string>, raws: seq<RawTask>) {
    forall name :: (if name in alias then Some(alias[name]) else None) == Resolve(raws, name)
  }

  lemma TableGrows(alias: map<string, string>, raws: seq<RawTask>, raw: RawTask)
    requires Tabulates(alias, raws)
    ensures Tabulates(if NameOf(raw) != "" && NameOf(raw) !in alias then alias[NameOf(raw) := Canonical(|raws|)]
                      else alias, raws + [raw])
  {
    forall name { ResolveGrows(raws, raw, name); }
  }

  method AliasTable(raws: seq<RawTask>) returns (alias: map<string, string>)
    ensures Tabulates(alias, raws)
  {
    alias := map[];
    for n := 0 to |raws|
      invariant Tabulates(alias, raws[..n])
    {
      TakeOneMore(raws, n);
      TableGrows(alias, raws[..n], raws[n]);
      var rawId := Strip(raws[n].taskId);
      if rawId != "" && rawId !in alias {
        alias := alias[rawId := Canonical(n)];
      }
    }
    assert raws[..|raws|] == raws;
  }

  method RewriteDeps(raws: seq<RawTask>, alias: map<string, string>, taskId: string, deps: seq<string>)
    returns (dependsOn: seq<string>, dropped: seq<string>)
    requires Tabulates(alias, raws)
    ensures dependsOn == Rewritten(raws, taskId, deps) && dropped == Dropped(raws, deps)
  {
    dependsOn, dropped := [], [];
    for d := 0 to |deps|
      invariant dependsOn == Rewritten(raws, taskId, deps[..d])
      invariant dropped == Dropped(raws, deps[..d])
    {
      assert Front(deps[..d + 1]) == deps[..d];
      var name := Strip(deps[d]);
      assert (if name in alias then Some(alias[name]) else None) == Resolve(raws, name);
      if name !in alias {
        dropped := dropped + [name];
      } else if alias[name] != taskId && alias[name] !in dependsOn {
        dependsOn := dependsOn + [alias[name]];
      }
    }
    assert deps[..|deps|] == deps;
  }

  method FinalizeModelTasks(raws: seq<RawTask>) returns (tasks: seq<Task>)
    ensures tasks == Finalized(raws)
  {
    var alias := AliasTable(raws);
    tasks := [];
    for n := 0 to |raws|
      invariant tasks == Finalized(raws)[..n]
    {
      var dependsOn, dropped := RewriteDeps(raws, alias, Canonical(n), raws[n].dependsOn);
      tasks := tasks + [Task(Canonical(n), if dependsOn == [] then Ready else Backlog, dependsOn, dropped)];
    }
  }

  // ----- the graph of the plan

  lemma SamePaddedSame(m: nat, n: nat)
    requires Padded(m) == Padded(n)
    ensures m == n
  {
    PaddedDenotes(m);
    PaddedDenotes(n);
  }

  lemma SamePrefixSame(prefix: string, a: string, b: string)
    requires prefix + a == prefix + b
    ensures a == b
  {
    assert (prefix + a)[|prefix|..] == a && (prefix + b)[|prefix|..] == b;
  }

  lemma CanonicalDiffers(i: nat, j: nat)
    ensures Canonical(i) == Canonical(j) <==> i == j
  {
    if Canonical(i) == Canonical(j) {
      SamePrefixSame("task-", Padded(i + 1), Padded(j + 1));
      SamePaddedSame(i + 1, j + 1);
    }
  }

  /** What was proposed: some dependency of task i names task j, by the first task of that name. */
  predicate Proposed(raws: seq<RawTask>, i: nat, j: nat) {
    i < |raws| && Named(raws, raws[i].dependsOn, j)
  }

  predicate Named(raws: seq<RawTask>, deps: seq<string>, j: nat) {
    exists d :: 0 <= d < |deps| && NamesTask(raws, deps[d], j)
  }

  predicate NamesTask(raws: seq<RawTask>, dep: string, j: nat) {
    Strip(dep) != "" && Bearer(raws, Strip(dep)) == j
  }

  /** What came out: task i lists the id of task j. */
  predicate Planned(raws: seq<RawTask>, i: nat, j: nat) {
    i < |raws| && Canonical(j) in Finalized(raws)[i].dependsOn
  }

  ghost predicate Distinct<T>(s: seq<T>) { forall a, b :: 0 <= a < b < |s| ==> s[a] != s[b] }

  lemma NamedSnoc(raws: seq<RawTask>, deps: seq<string>, dep: string, j: nat)
    ensures Named(raws, deps + [dep], j) <==> Named(raws, deps, j) || NamesTask(raws, dep, j)
  {
    var more := deps + [dep];
    assert more[|deps|] == dep;
    if Named(raws, deps, j) {
      var d :| 0 <= d < |deps| && NamesTask(raws, deps[d], j);
      assert more[d] == deps[d];
    }
  }

  lemma RewrittenGrows(raws: seq<RawTask>, self: string, deps: seq<string>, dep: string)
    ensures var before := Rewritten(raws, self, deps);
            Rewritten(raws, self, deps + [dep]) ==
            match Resolve(raws, Strip(dep))
            case Some(c) => if c != self && c !in before then before + [c] else before
            case None => before
  {
    Joins(deps, dep);
  }

  ghost predicate Lists(raws: seq<RawTask>, i: nat, deps: seq<string>, ids: seq<string>) {
    && Distinct(ids)
    && (forall c :: c in ids ==> exists j: nat :: j < |raws| && c == Canonical(j))
    && (forall j: nat :: Canonical(j) in ids <==> j != i && Named(raws, deps, j))
  }

  lemma ListsOneMore(raws: seq<RawTask>, i: nat, deps: seq<string>, dep: string)
    requires Lists(raws, i, deps, Rewritten(raws, Canonical(i), deps))
    ensures Lists(raws, i, deps + [dep], Rewritten(raws, Canonical(i), deps + [dep]))
  {
    var before, after := Rewritten(raws, Canonical(i), deps), Rewritten(raws, Canonical(i), deps + [dep]);
    RewrittenGrows(raws, Canonical(i), deps, dep);
    var b := Bearer(raws, Strip(dep));
    if b >= 0 { CanonicalDiffers(b, i); }
    forall j: nat ensures Canonical(j) in after <==> j != i && Named(raws, deps + [dep], j) {
      NamedSnoc(raws, deps, dep, j);
      if b >= 0 { CanonicalDiffers(b, j); }
    }
  }

  lemma {:induction false} RewrittenHolds(raws: seq<RawTask>, i: nat, deps: seq<string>)
    ensures Lists(raws, i, deps, Rewritten(raws, Canonical(i), deps))
  {
    if deps != [] {
      EndsWithLast(deps);
      RewrittenHolds(raws, i, Front(deps));
      ListsOneMore(raws, i, Front(deps), Last(deps));
    }
  }

  /** For every proposal, well-named or not: task i of the plan depends on task j exactly when j is another
      task and i's proposal names it. No dependency is listed twice, every one is a task of the plan, and a
      task is ready exactly when it has none. */
  lemma PlanIsTheProposal(raws: seq<RawTask>)
    ensures forall i: nat, j: nat :: i < |raws| ==> (Planned(raws, i, j) <==> j != i && Proposed(raws, i, j))
    ensures forall i :: 0 <= i < |raws| ==> WellFormed(raws, Finalized(raws)[i])
  {
    forall i: nat | i < |raws|
      ensures WellFormed(raws, Finalized(raws)[i])
      ensures forall j: nat :: Planned(raws, i, j) <==> j != i && Proposed(raws, i, j)
    {
      RewrittenHolds(raws, i, raws[i].dependsOn);
      forall c | c in Finalized(raws)[i].dependsOn ensures IsTaskId(raws, c) {
        var j: nat :| j < |raws| && c == Canonical(j);
        assert Finalized(raws)[j].taskId == c;
      }
    }
  }

  ghost predicate WellFormed(raws: seq<RawTask>, t: Task) {
    && Distinct(t.dependsOn)
    && (forall c :: c in t.dependsOn ==> IsTaskId(raws, c))
    && (t.status == Ready <==> t.dependsOn == [])
  }

  predicate IsTaskId(raws: seq<RawTask>, id: string) {
    exists j :: 0 <= j < |raws| && Finalized(raws)[j].taskId == id
  }

  ghost predicate WellNamed(raws: seq<RawTask>) {
    && (forall i :: 0 <= i < |raws| ==> NameOf(raws[i]) != "")
    && (forall i, j :: 0 <= i < j < |raws| ==> NameOf(raws[i]) != NameOf(raws[j]))
  }

  function StrippedDeps(raw: RawTask): seq<string> { Map((d: string) => Strip(d), raw.dependsOn) }

  /** With distinct non-empty ids, the plan's graph is the one drawn by the ids themselves, without its
      self-loops: renaming is an isomorphism. */
  lemma RenamingIsIsomorphism(raws: seq<RawTask>, i: nat, j: nat)
    requires WellNamed(raws) && i < |raws| && j < |raws|
    ensures Planned(raws, i, j) <==> j != i && NameOf(raws[j]) in StrippedDeps(raws[i])
  {
    PlanIsTheProposal(raws);
    var name := NameOf(raws[j]);
    assert Bearer(raws, name) == j;
    if d :| 0 <= d < |raws[i].dependsOn| && NamesTask(raws, raws[i].dependsOn[d], j) {
      assert StrippedDeps(raws[i])[d] == name;
    }
    if name in StrippedDeps(raws[i]) {
      var d :| 0 <= d < |raws[i].dependsOn| && StrippedDeps(raws[i])[d] == name;
      assert NamesTask(raws, raws[i].dependsOn[d], j);
    }
  }

  function ProposalGraph(raws: seq<RawTask>): Graph { (i: nat, j: nat) => Proposed(raws, i, j) }

  function PlanGraph(raws: seq<RawTask>): Graph { (i: nat, j: nat) => Planned(raws, i, j) }

  /** The plan is acyclic exactly when the proposal has no cycle other than tasks naming themselves. */
  lemma PlanIsAcyclicIff(raws: seq<RawTask>)
    ensures Acyclic(PlanGraph(raws), |raws|)
       <==> Acyclic((i: nat, j: nat) => i != j && Proposed(raws, i, j), |raws|)
    ensures Acyclic(ProposalGraph(raws), |raws|) ==> Acyclic(PlanGraph(raws), |raws|)
  {
    var h := (i: nat, j: nat) => i != j && Proposed(raws, i, j);
    PlanIsTheProposal(raws);
    if Acyclic(h, |raws|) { FewerEdgesStayAcyclic(h, PlanGraph(raws), |raws|); }
    if Acyclic(PlanGraph(raws), |raws|) { FewerEdgesStayAcyclic(PlanGraph(raws), h, |raws|); }
    if Acyclic(ProposalGraph(raws), |raws|) {
      FewerEdgesStayAcyclic(ProposalGraph(raws), PlanGraph(raws), |raws|);
    }
  }

  lemma EmptyOrMember<T>(s: seq<T>)
    ensures s == [] || exists x :: x in s
  {
    if s != [] { assert s[0] in s; }
  }

  /** A non-empty acyclic plan can be started: some task is ready. */
  lemma AcyclicPlanHasReadyTask(raws: seq<RawTask>)
    requires raws != [] && Acyclic(PlanGraph(raws), |raws|)
    ensures exists i :: 0 <= i < |raws| && Finalized(raws)[i].status == Ready
  {
    var i := AcyclicHasSink(PlanGraph(raws), |raws|);
    RewrittenHolds(raws, i, raws[i].dependsOn);
    var deps := Finalized(raws)[i].dependsOn;
    forall j: nat | j < |raws| ensures Canonical(j) !in deps {
      assert PlanGraph(raws)(i, j) == Planned(raws, i, j);
    }
    EmptyOrMember(deps);
    assert Finalized(raws)[i].status == Ready;
  }

  // ----- ids, order, and what is dropped

  /** Ids are numbered from 1, with at least four digits. */
  lemma CanonicalReads(i: nat)
    ensures |Canonical(i)| >= 9 && Canonical(i)[..5] == "task-" && Denotes(Canonical(i)[5..]) == i + 1
    ensures i < 9999 ==> |Canonical(i)| == 9
  {
    PaddedDenotes(i + 1);
    PaddedLength(i + 1);
    assert Canonical(i)[5..] == Padded(i + 1);
  }

  lemma {:induction false} DecimalLength(n: nat)
    ensures n >= 1000 ==> |Decimal(n)| >= 4
    ensures |Decimal(n)| == if n < 10 then 1 else 1 + |Decimal(n / 10)|
  {
    if n >= 1000 {
      assert |Decimal(n)| == 1 + |Decimal(n / 10)|;
      assert |Decimal(n / 10)| == 1 + |Decimal(n / 10 / 10)|;
      assert |Decimal(n / 10 / 10)| == 1 + |Decimal(n / 10 / 10 / 10)|;
    }
  }

  lemma PaddedLength(n: nat)
    ensures |Padded(n)| >= 4
    ensures n < 10000 ==> |Padded(n)| == 4
  {
    DecimalLength(n);
    if n >= 10 { DecimalLength(n / 10); }
    if n >= 100 { DecimalLength(n / 10 / 10); }
    if n >= 1000 { DecimalLength(n / 10 / 10 / 10); }
  }

  /** Dependencies are listed in the order in which the proposal first names them: more names only add to the
      end. */
  lemma {:induction false} FirstNamedFirst(raws: seq<RawTask>, self: string, a: seq<string>, b: seq<string>)
    ensures Rewritten(raws, self, a) <= Rewritten(raws, self, a + b)
  {
    if b == [] {
      assert a + b == a;
    } else {
      ConcatEndsWithLast(a, b);
      FirstNamedFirst(raws, self, a, Front(b));
      RewrittenGrows(raws, self, a + Front(b), Last(b));
    }
  }

  predicate NamesNobody(raws: seq<RawTask>, name: string) {
    name == "" || forall i :: 0 <= i < |raws| ==> Strip(raws[i].taskId) != name
  }

  /** What is reported as dropped is what names nobody, each time, in order. */
  lemma {:induction false} DroppedGrows(raws: seq<RawTask>, deps: seq<string>, dep: string)
    ensures Dropped(raws, deps + [dep]) ==
            Dropped(raws, deps) + if NamesNobody(raws, Strip(dep)) then [Strip(dep)] else []
    ensures Dropped(raws, []) == []
  {
    Joins(deps, dep);
    var b := Bearer(raws, Strip(dep));
    if b >= 0 { assert NameOf(raws[b]) == Strip(dep); }
    if b < 0 { assert forall i :: 0 <= i < |raws| ==> NameOf(raws[i]) != Strip(dep); }
  }
}
