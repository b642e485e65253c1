/** `run_from_args`: scenarios run one by one, a summary is rewritten after each, and one last summary
    decides whether the validation suite stands. */
module Acceptance {
  import opened Sequences
  import opened History
  import opened Strings
  import opened Text

  datatype Scenario = Scenario(name: string, capability: string, tier: string)

  datatype Counters = Counters(
    modelCalls: int, toolCalls: int, inputTokens: int, outputTokens: int, repairs: int, compactions: int)
  {
    function Plus(c: Counters): Counters {
      Counters(modelCalls + c.modelCalls, toolCalls + c.toolCalls, inputTokens + c.inputTokens,
               outputTokens + c.outputTokens, repairs + c.repairs, compactions + c.compactions)
    }
  }

  const NO_CALLS := Counters(0, 0, 0, 0, 0, 0)

  /** One item of an evidence's providers: a tier, and the list under it if it is a list. */
  datatype TierItem = TierItem(tier: string, listed: Option<seq<string>>)

  /** Route evidence marked available. */
  datatype Evidence = Evidence(strong: bool, medium: bool, providers: Option<seq<TierItem>>)

  datatype Result = Result(
    scenario: string, ok: bool, capability: string, tier: string, millis: int,
    counters: Option<Counters>, evidence: Option<Evidence>)

  datatype Outcome = Finished(result: Result) | Raised(message: string)

  datatype Status = Status(total: nat, passed: nat, failed: nat, ok: bool)

  datatype Route = Route(
    present: seq<string>, missingStrong: seq<string>, missingMedium: seq<string>,
    providersByTier: map<string, seq<string>>, strongUsed: bool, mediumUsed: bool)

  datatype Aggregate = Aggregate(
    total: nat, metrics: Metrics, failedScenarios: seq<string>,
    capabilities: map<string, Status>, tiers: map<string, Status>, route: Route)

  /** The command line, and the tables the script carries. */
  datatype Setup = Setup(
    suite: string, requested: seq<string>, allowFake: bool,
    suites: map<string, seq<string>>, catalogue: map<string, Scenario>, fakeAllowed: set<string>)

  datatype Summary = Summary(
    ok: bool, complete: bool, selected: seq<Scenario>, results: seq<Result>, aggregate: Aggregate,
    validationReady: bool, error: string, deltas: Option<Metrics>)

  // ----- selections and sums over results

  function Passed(): Result -> bool { (r: Result) => r.ok }
  function Failed(): Result -> bool { (r: Result) => !r.ok }
  function HasEvidence(): Result -> bool { (r: Result) => r.evidence.Some? }
  function LacksStrong(): Result -> bool { (r: Result) => r.evidence.Some? && !r.evidence.value.strong }
  function LacksMedium(): Result -> bool { (r: Result) => r.evidence.Some? && !r.evidence.value.medium }
  function ScenarioOf(): Result -> string { (r: Result) => r.scenario }
  function RouteName(): Result -> string { (r: Result) => if r.scenario == "" then "unknown" else r.scenario }

  function Millis(): Result -> int { (r: Result) => r.millis }

  function Total(f: Result -> int, results: seq<Result>): int {
    if results == [] then 0 else Total(f, Front(results)) + f(Last(results))
  }

  function CountersOf(results: seq<Result>): Counters {
    if results == [] then NO_CALLS
    else
      var before := CountersOf(Front(results));
      if Last(results).counters.None? then before else before.Plus(Last(results).counters.value)
  }

  function Figures(passed: int, failed: int, millis: int, c: Counters): Metrics {
    Metrics(passed, failed, millis, c.modelCalls, c.toolCalls, c.inputTokens, c.outputTokens, c.repairs, c.compactions)
  }

  function MetricsOf(results: seq<Result>): Metrics {
    Figures(|Filter(Passed(), results)|, |Filter(Failed(), results)|, Total(Millis(), results), CountersOf(results))
  }

  // ----- labels

  function Named(name: string): Scenario -> bool { (s: Scenario) => s.name == name }

  /** The scenario a result is labelled by: later entries of the same name overwrite earlier ones. */
  function MetadataOf(selected: seq<Scenario>, name: string): Option<Scenario> {
    var i := LastIndex(Named(name), selected);
    if name == "" || i < 0 then None else Some(selected[i])
  }

  function OrUnknown(own: string, listed: string): string {
    if own != "" then own else if listed != "" then listed else "unknown"
  }

  function CapabilityOf(selected: seq<Scenario>): Result -> string {
    (r: Result) => var m := MetadataOf(selected, r.scenario);
                   OrUnknown(r.capability, if m.Some? then m.value.capability else "")
  }

  function TierOf(selected: seq<Scenario>): Result -> string {
    (r: Result) => var m := MetadataOf(selected, r.scenario);
                   OrUnknown(r.tier, if m.Some? then m.value.tier else "")
  }

  // ----- tallies

  function Added(rows: map<string, Status>, key: string, ok: bool): map<string, Status> {
    var row := if key in rows then rows[key] else Status(0, 0, 0, true);
    rows[key := if ok then Status(row.total + 1, row.passed + 1, row.failed, row.ok)
                else Status(row.total + 1, row.passed, row.failed + 1, false)]
  }

  function Tally(key: Result -> string, results: seq<Result>): map<string, Status> {
    if results == [] then map[] else Added(Tally(key, Front(results)), key(Last(results)), Last(results).ok)
  }

  class StatusTable {
    var rows: map<string, Status>

    constructor ()
      ensures rows == map[]
    {
      rows := map[];
    }

    method AddStatus(key: string, ok: bool)
      modifies this
      ensures rows == Added(old(rows), key, ok)
    {
      if key !in rows { rows := rows[key := Status(0, 0, 0, true)]; }
      var status := rows[key].(total := rows[key].total + 1);
      if ok {
        status := status.(passed := status.passed + 1);
      } else {
        status := status.(failed := status.failed + 1, ok := false);
      }
      rows := rows[key := status];
    }
  }

  // ----- the aggregate

  function NamesWhere(p: Result -> bool, results: seq<Result>): seq<string> { Map(RouteName(), Filter(p, results)) }

  lemma NamesGrow(results: seq<Result>, r: Result)
    ensures forall p :: NamesWhere(p, results + [r]) ==
                        NamesWhere(p, results) + if p(r) then [RouteName()(r)] else []
  {
    forall p: Result -> bool
      ensures NamesWhere(p, results + [r]) == NamesWhere(p, results) + if p(r) then [RouteName()(r)] else []
    {
      FilterSnoc(p, results, r);
    }
  }

  function ItemsOf(r: Result): seq<TierItem> {
    if r.evidence.Some? && r.evidence.value.providers.Some? then r.evidence.value.providers.value else []
  }

  function TierItems(results: seq<Result>): seq<TierItem> {
    if results == [] then [] else TierItems(Front(results)) + ItemsOf(Last(results))
  }

  lemma TierItemsGrow(results: seq<Result>, r: Result)
    ensures TierItems(results + [r]) == TierItems(results) + ItemsOf(r)
    ensures ItemsOf(r) == [] ==> TierItems(results + [r]) == TierItems(results)
  {
    Joins(results, r);
  }

  function Noted(tiers: map<string, set<string>>, item: TierItem): map<string, set<string>> {
    var known := if item.tier in tiers then tiers[item.tier] else {};
    tiers[item.tier := if item.listed.Some? then known + set p | p in item.listed.value else known]
  }

  function AllNoted(tiers: map<string, set<string>>, items: seq<TierItem>): map<string, set<string>> {
    if items == [] then tiers else Noted(AllNoted(tiers, Front(items)), Last(items))
  }

  function ByTier(items: seq<TierItem>): map<string, set<string>> { AllNoted(map[], items) }

  function SortedByTier(tiers: map<string, set<string>>): map<string, seq<string>> {
    map tier | tier in tiers :: SortedSet(tiers[tier])
  }

  lemma {:induction false} AllNotedConcat(tiers: map<string, set<string>>, a: seq<TierItem>, b: seq<TierItem>)
    ensures AllNoted(tiers, a + b) == AllNoted(AllNoted(tiers, a), b)
  {
    if b == [] {
      assert a + b == a;
    } else {
      EndsWithLast(b);
      assert a + b == a + Front(b) + [Last(b)];
      Joins(a + Front(b), Last(b));
      AllNotedConcat(tiers, a, Front(b));
    }
  }

  method NoteItem(tiers: map<string, set<string>>, item: TierItem) returns (tiers': map<string, set<string>>)
    ensures tiers' == Noted(tiers, item)
  {
    tiers' := tiers;
    if item.tier !in tiers { tiers' := tiers[item.tier := {}]; }
    if item.listed.Some? {
      tiers' := tiers'[item.tier := tiers'[item.tier] + set p | p in item.listed.value];
    }
  }

  /** The inner loop: every item of one evidence, into the shared table. */
  method AddProviders(tiers: map<string, set<string>>, items: seq<TierItem>) returns (tiers': map<string, set<string>>)
    ensures tiers' == AllNoted(tiers, items)
  {
    tiers' := tiers;
    for i := 0 to |items|
      invariant tiers' == AllNoted(tiers, items[..i])
    {
      TakeOneMore(items, i);
      Joins(items[..i], items[i]);
      tiers' := NoteItem(tiers', items[i]);
    }
    assert items[..|items|] == items;
  }

  ghost predicate NamesTier(items: seq<TierItem>, tier: string) {
    exists i :: 0 <= i < |items| && items[i].tier == tier
  }

  predicate Lists(item: TierItem, tier: string, provider: string) {
    item.tier == tier && item.listed.Some? && provider in item.listed.value
  }

  ghost predicate NamesProvider(items: seq<TierItem>, tier: string, provider: string) {
    exists i :: 0 <= i < |items| && Lists(items[i], tier, provider)
  }

  lemma NamesOneMore(items: seq<TierItem>, item: TierItem, tier: string, provider: string)
    ensures NamesTier(items + [item], tier) <==> NamesTier(items, tier) || item.tier == tier
    ensures NamesProvider(items + [item], tier, provider) <==>
            NamesProvider(items, tier, provider) || Lists(item, tier, provider)
  {
    var more := items + [item];
    assert more[|items|] == item;
    if NamesTier(items, tier) {
      var i :| 0 <= i < |items| && items[i].tier == tier;
      assert more[i].tier == tier;
    }
    if NamesProvider(items, tier, provider) {
      var i :| 0 <= i < |items| && Lists(items[i], tier, provider);
      assert Lists(more[i], tier, provider);
    }
  }

  /** A tier is in the table exactly when some evidence names it, and has under it exactly the providers some
      evidence lists under it. */
  lemma {:induction false} ProvidersByTierIff(items: seq<TierItem>, tier: string, provider: string)
    ensures tier in ByTier(items) <==> NamesTier(items, tier)
    ensures (tier in ByTier(items) && provider in ByTier(items)[tier]) <==> NamesProvider(items, tier, provider)
  {
    if items != [] {
      EndsWithLast(items);
      ProvidersByTierIff(Front(items), tier, provider);
      NamesOneMore(Front(items), Last(items), tier, provider);
    }
  }

  /** What the summary shows: under each tier some evidence names, the providers listed under it anywhere, each
      once, in ascending order. */
  lemma SortedProvidersIff(results: seq<Result>, tier: string, provider: string)
    ensures var shown := RouteOf(results).providersByTier;
            && (tier in shown <==> NamesTier(TierItems(results), tier))
            && (tier in shown ==>
                  && Ascending(shown[tier])
                  && multiset(shown[tier])[provider] ==
                     if NamesProvider(TierItems(results), tier, provider) then 1 else 0)
  {
    var tiers := ByTier(TierItems(results));
    ProvidersByTierIff(TierItems(results), tier, provider);
    if tier in tiers { SortedSetIs(tiers[tier]); }
  }

  function RouteOf(results: seq<Result>): Route {
    var present := NamesWhere(HasEvidence(), results);
    var missingStrong := NamesWhere(LacksStrong(), results);
    var missingMedium := NamesWhere(LacksMedium(), results);
    Route(present, missingStrong, missingMedium, SortedByTier(ByTier(TierItems(results))),
          present != [] && missingStrong == [], present != [] && missingMedium == [])
  }

  function AggregateOf(results: seq<Result>, selected: seq<Scenario>): Aggregate {
    Aggregate(|results|, MetricsOf(results), Map(ScenarioOf(), Filter(Failed(), results)),
              Tally(CapabilityOf(selected), results), Tally(TierOf(selected), results), RouteOf(results))
  }

  method AggregateRouteEvidence(results: seq<Result>) returns (route: Route)
    ensures route == RouteOf(results)
  {
    var present, missingStrong, missingMedium := [], [], [];
    var providersByTier: map<string, set<string>> := map[];
    for i := 0 to |results|
      invariant present == NamesWhere(HasEvidence(), results[..i])
      invariant missingStrong == NamesWhere(LacksStrong(), results[..i])
      invariant missingMedium == NamesWhere(LacksMedium(), results[..i])
      invariant providersByTier == ByTier(TierItems(results[..i]))
    {
      var result := results[i];
      TakeOneMore(results, i);
      NamesGrow(results[..i], result);
      if result.evidence.None? {
        TierItemsGrow(results[..i], result);
        continue;
      }
      var scenario := if result.scenario == "" then "unknown" else result.scenario;
      present := present + [scenario];
      if !result.evidence.value.strong { missingStrong := missingStrong + [scenario]; }
      if !result.evidence.value.medium { missingMedium := missingMedium + [scenario]; }
      TierItemsGrow(results[..i], result);
      if result.evidence.value.providers.Some? {
        AllNotedConcat(map[], TierItems(results[..i]), ItemsOf(result));
        providersByTier := AddProviders(providersByTier, result.evidence.value.providers.value);
      }
    }
    assert results[..|results|] == results;
    route := Route(present, missingStrong, missingMedium, SortedByTier(providersByTier),
                   present != [] && missingStrong == [], present != [] && missingMedium == []);
  }

  method AggregateResults(results: seq<Result>, selected: seq<Scenario>) returns (aggregate: Aggregate)
    ensures aggregate == AggregateOf(results, selected)
  {
    var capabilityStatus := new StatusTable();
    var tierStatus := new StatusTable();
    var route := AggregateRouteEvidence(results);
    var counters := NO_CALLS;
    for i := 0 to |results|
      invariant capabilityStatus != tierStatus && fresh(capabilityStatus) && fresh(tierStatus)
      invariant capabilityStatus.rows == Tally(CapabilityOf(selected), results[..i])
      invariant tierStatus.rows == Tally(TierOf(selected), results[..i])
      invariant counters == CountersOf(results[..i])
    {
      var result := results[i];
      assert Front(results[..i + 1]) == results[..i] && Last(results[..i + 1]) == result;
      capabilityStatus.AddStatus(CapabilityOf(selected)(result), result.ok);
      tierStatus.AddStatus(TierOf(selected)(result), result.ok);
      if result.counters.None? { continue; }
      counters := counters.Plus(result.counters.value);
    }
    assert results[..|results|] == results;
    var metrics :=
      Figures(|Filter(Passed(), results)|, |Filter(Failed(), results)|, Total(Millis(), results), counters);
    aggregate := Aggregate(|results|, metrics, Map(ScenarioOf(), Filter(Failed(), results)),
                           capabilityStatus.rows, tierStatus.rows, route);
  }

  lemma {:induction false} CountersAdd(a: seq<Result>, b: seq<Result>)
    ensures CountersOf(a + b) == CountersOf(a).Plus(CountersOf(b))
    ensures Total(Millis(), a + b) == Total(Millis(), a) + Total(Millis(), b)
  {
    if b == [] {
      assert a + b == a;
    } else {
      assert Front(a + b) == a + Front(b) && Last(a + b) == Last(b);
      CountersAdd(a, Front(b));
    }
  }

  /** Every result is counted as passed or failed, once. */
  lemma {:induction false} NoneIsLost(results: seq<Result>)
    ensures MetricsOf(results).passed + MetricsOf(results).failed == |results|
  {
    if results != [] { NoneIsLost(Front(results)); }
  }

  lemma CountsAdd(p: Result -> bool, a: seq<Result>, b: seq<Result>)
    ensures |Filter(p, a + b)| == |Filter(p, a)| + |Filter(p, b)|
  {
    FilterConcat(p, a, b);
  }

  lemma FiguresAdd(p: int, f: int, m: int, c: Counters, p': int, f': int, m': int, c': Counters)
    ensures Figures(p + p', f + f', m + m', c.Plus(c')) == Figures(p, f, m, c).Plus(Figures(p', f', m', c'))
  {
  }

  /** The figures of a run are those of its first part plus those of the rest, wherever it is cut. */
  lemma MetricsAdd(a: seq<Result>, b: seq<Result>)
    ensures MetricsOf(a + b) == MetricsOf(a).Plus(MetricsOf(b))
  {
    CountsAdd(Passed(), a, b);
    CountsAdd(Failed(), a, b);
    CountersAdd(a, b);
    FiguresAdd(|Filter(Passed(), a)|, |Filter(Failed(), a)|, Total(Millis(), a), CountersOf(a),
               |Filter(Passed(), b)|, |Filter(Failed(), b)|, Total(Millis(), b), CountersOf(b));
  }

  function FiguresOfOne(r: Result): Metrics {
    Metrics(
      if r.ok then 1 else 0, if r.ok then 0 else 1, r.millis,
      if r.counters.Some? then r.counters.value.modelCalls else 0,
      if r.counters.Some? then r.counters.value.toolCalls else 0,
      if r.counters.Some? then r.counters.value.inputTokens else 0,
      if r.counters.Some? then r.counters.value.outputTokens else 0,
      if r.counters.Some? then r.counters.value.repairs else 0,
      if r.counters.Some? then r.counters.value.compactions else 0)
  }

  lemma OneSelected(p: Result -> bool, r: Result)
    ensures Filter(p, [r]) == if p(r) then [r] else []
  {
    FilterSnoc(p, [], r);
    assert [] + [r] == [r];
  }

  lemma OneCounted(r: Result)
    ensures CountersOf([r]) == if r.counters.Some? then r.counters.value else NO_CALLS
    ensures Total(Millis(), [r]) == r.millis
  {
    assert Front([r]) == [] && Last([r]) == r;
  }

  /** The figures of a run of one scenario: each is that result's own, and zero where it has no diagnostics. */
  lemma FiguresOfOneRun(r: Result, selected: seq<Scenario>)
    ensures AggregateOf([r], selected).metrics == FiguresOfOne(r)
    ensures AggregateOf([r], selected).total == 1
  {
    OneSelected(Passed(), r);
    OneSelected(Failed(), r);
    OneCounted(r);
  }

  /** The figures of any run, figure by figure and by induction: none to begin with, and each further result
      adds its own. */
  lemma FiguresAddUp(results: seq<Result>, r: Result, selected: seq<Scenario>)
    ensures AddsUp(AggregateOf(results + [r], selected).metrics, AggregateOf(results, selected).metrics,
                   FiguresOfOne(r))
    ensures AggregateOf(results + [r], selected).total == AggregateOf(results, selected).total + 1
    ensures AggregateOf([], selected).metrics == Metrics(0, 0, 0, 0, 0, 0, 0, 0, 0)
    ensures AggregateOf([], selected).total == 0
  {
    MetricsAdd(results, [r]);
    FiguresOfOneRun(r, selected);
  }

  // ----- the lists and tables, read off the results

  /** What a result is called in the route lists. */
  function CalledOnRoute(r: Result): string { if r.scenario != "" then r.scenario else "unknown" }

  /** One more result extends the list of failures if it failed, the list of results with route evidence if it
      has any, and each list of those lacking a tier if its evidence lacks that tier. */
  lemma ListsGrow(results: seq<Result>, r: Result, selected: seq<Scenario>)
    ensures var before, after := AggregateOf(results, selected), AggregateOf(results + [r], selected);
            && after.failedScenarios == before.failedScenarios + (if r.ok then [] else [r.scenario])
            && after.route.present == before.route.present + (if r.evidence.Some? then [CalledOnRoute(r)] else [])
            && after.route.missingStrong == before.route.missingStrong +
               (if r.evidence.Some? && !r.evidence.value.strong then [CalledOnRoute(r)] else [])
            && after.route.missingMedium == before.route.missingMedium +
               (if r.evidence.Some? && !r.evidence.value.medium then [CalledOnRoute(r)] else [])
  {
    NamesGrow(results, r);
    FilterSnoc(Failed(), results, r);
  }

  lemma ListsBegin(selected: seq<Scenario>)
    ensures var a := AggregateOf([], selected);
            a.failedScenarios == a.route.present == a.route.missingStrong == a.route.missingMedium == []
  {
  }

  /** The scenario a result belongs to: the last of that name, if it has a name. */
  ghost predicate BelongsTo(selected: seq<Scenario>, r: Result, i: nat) {
    && r.scenario != "" && i < |selected| && selected[i].name == r.scenario
    && forall j :: i < j < |selected| ==> selected[j].name != r.scenario
  }

  /** A result counts under its own label, or else its scenario's, or else "unknown". */
  ghost predicate IsLabel(own: string, selected: seq<Scenario>, r: Result, listed: Scenario -> string, x: string) {
    if own != "" then x == own
    else
      || (exists i: nat :: BelongsTo(selected, r, i) && listed(selected[i]) != "" && x == listed(selected[i]))
      || ((forall i: nat :: BelongsTo(selected, r, i) ==> listed(selected[i]) == "") && x == "unknown")
  }

  lemma MetadataBelongs(selected: seq<Scenario>, r: Result)
    ensures var i := LastIndex(Named(r.scenario), selected);
            if r.scenario != "" && i >= 0
            then BelongsTo(selected, r, i) && MetadataOf(selected, r.scenario) == Some(selected[i])
            else MetadataOf(selected, r.scenario).None? && forall j: nat :: !BelongsTo(selected, r, j)
  {
  }

  /** The two tables: one by capability, one by tier, each row counting exactly the results so labelled. */
  lemma TablesCount(results: seq<Result>, selected: seq<Scenario>, k: string)
    ensures RowCounts(AggregateOf(results, selected).capabilities, CapabilityOf(selected), results, k)
    ensures RowCounts(AggregateOf(results, selected).tiers, TierOf(selected), results, k)
  {
    TallyCounts(CapabilityOf(selected), results, k);
    TallyCounts(TierOf(selected), results, k);
  }

  ghost predicate RowCounts(rows: map<string, Status>, labelOf: Result -> string, results: seq<Result>, k: string) {
    && (k in rows <==> Filter(Under(labelOf, k), results) != [])
    && (k in rows ==>
          && rows[k].total == |Filter(Under(labelOf, k), results)|
          && rows[k].passed == |Filter(PassedUnder(labelOf, k), results)|
          && rows[k].failed == rows[k].total - rows[k].passed
          && (rows[k].ok <==> rows[k].passed == rows[k].total))
  }

  lemma LabelsRead(selected: seq<Scenario>, r: Result)
    ensures IsLabel(r.capability, selected, r, (s: Scenario) => s.capability, CapabilityOf(selected)(r))
    ensures IsLabel(r.tier, selected, r, (s: Scenario) => s.tier, TierOf(selected)(r))
  {
    MetadataBelongs(selected, r);
    var i := LastIndex(Named(r.scenario), selected);
    if r.scenario != "" && i >= 0 {
      forall j: nat | BelongsTo(selected, r, j) ensures j == i {}
    }
  }

  function Under(key: Result -> string, k: string): Result -> bool { (r: Result) => key(r) == k }
  function PassedUnder(key: Result -> string, k: string): Result -> bool { (r: Result) => key(r) == k && r.ok }

  /** Every row of a tally counts exactly the results under its key, and is `ok` exactly when all passed; a
      key has a row exactly when some result falls under it. */
  lemma {:induction false} TallyCounts(key: Result -> string, results: seq<Result>, k: string)
    ensures k in Tally(key, results) <==> Filter(Under(key, k), results) != []
    ensures k in Tally(key, results) ==>
              var row := Tally(key, results)[k];
              && row.total == |Filter(Under(key, k), results)|
              && row.passed == |Filter(PassedUnder(key, k), results)|
              && row.failed == row.total - row.passed
              && (row.ok <==> row.passed == row.total)
    ensures |Filter(PassedUnder(key, k), results)| <= |Filter(Under(key, k), results)|
  {
    if results != [] { TallyCounts(key, Front(results), k); }
  }

  // ----- the gate

  function NonEmpty(names: seq<string>): set<string> { set n | n in names && n != "" }
  function ObservedNames(selected: seq<Scenario>): set<string> { set i | 0 <= i < |selected| :: selected[i].name }

  function Expected(setup: Setup): set<string> {
    if setup.suite in setup.suites then set n | n in setup.suites[setup.suite] else {}
  }

  predicate CompleteSuiteEvidence(setup: Setup, selected: seq<Scenario>) {
    var expected := Expected(setup);
    var requested := NonEmpty(setup.requested);
    expected == {} || (!(requested != {} && !(expected <= requested)) && expected <= ObservedNames(selected))
  }

  predicate ValidationReady(setup: Setup, aggregate: Aggregate, selected: seq<Scenario>) {
    && setup.suite == "validation"
    && CompleteSuiteEvidence(setup, selected)
    && aggregate.metrics.failed == 0 && aggregate.route.strongUsed && aggregate.route.mediumUsed
  }

  function Summarise(setup: Setup, selected: seq<Scenario>, results: seq<Result>, complete: bool, error: string,
                     deltas: Option<Metrics>): Summary {
    var aggregate := AggregateOf(results, selected);
    Summary(complete && forall i :: 0 <= i < |results| ==> results[i].ok, complete, selected, results, aggregate,
            complete && ValidationReady(setup, aggregate, selected), error, deltas)
  }

  method BuildAcceptanceSummary(setup: Setup, selected: seq<Scenario>, results: seq<Result>, complete: bool,
                                error: string)
    returns (summary: Summary)
    ensures summary == Summarise(setup, selected, results, complete, error, None)
  {
    var aggregate := AggregateResults(results, selected);
    summary := Summary(complete && forall i :: 0 <= i < |results| ==> results[i].ok, complete, selected, results,
                       aggregate, complete && ValidationReady(setup, aggregate, selected), error, None);
  }

  /** Every scenario of the suite was selected, and none was left out by naming some. */
  ghost predicate Covered(setup: Setup, selected: seq<Scenario>) {
    && (NonEmpty(setup.requested) != {} ==> Expected(setup) <= NonEmpty(setup.requested))
    && forall n :: n in Expected(setup) ==> exists i :: 0 <= i < |selected| && selected[i].name == n
  }

  ghost predicate AllPassed(results: seq<Result>) { forall i :: 0 <= i < |results| ==> results[i].ok }

  /** Some result has route evidence, and every one that has it used both tiers. */
  ghost predicate RoutesShown(results: seq<Result>) {
    && (exists i :: 0 <= i < |results| && results[i].evidence.Some?)
    && forall i :: 0 <= i < |results| && results[i].evidence.Some? ==>
                     results[i].evidence.value.strong && results[i].evidence.value.medium
  }

  lemma {:induction false} FilterEmptyIff(p: Result -> bool, results: seq<Result>)
    ensures Filter(p, results) == [] <==> forall i :: 0 <= i < |results| ==> !p(results[i])
  {
    if results != [] {
      FilterEmptyIff(p, Front(results));
      if forall i :: 0 <= i < |Front(results)| ==> !p(Front(results)[i]) {
        if !p(Last(results)) {
          forall i | 0 <= i < |results| ensures !p(results[i]) {
            if i < |results| - 1 { assert !p(Front(results)[i]); }
          }
        }
      } else {
        var i :| 0 <= i < |Front(results)| && p(Front(results)[i]);
        assert p(results[i]);
      }
    }
  }

  lemma RouteIff(results: seq<Result>)
    ensures RouteOf(results).strongUsed && RouteOf(results).mediumUsed <==> RoutesShown(results)
  {
    FilterEmptyIff(HasEvidence(), results);
    FilterEmptyIff(LacksStrong(), results);
    FilterEmptyIff(LacksMedium(), results);
  }

  lemma CoveredIff(setup: Setup, selected: seq<Scenario>)
    ensures CompleteSuiteEvidence(setup, selected) <==> Covered(setup, selected)
  {
    if Expected(setup) == {} {
      assert Covered(setup, selected);
    }
  }

  /** When a summary says the validation suite stands. */
  lemma ReadyIff(setup: Setup, selected: seq<Scenario>, results: seq<Result>, complete: bool, error: string,
                 deltas: Option<Metrics>)
    ensures Summarise(setup, selected, results, complete, error, deltas).validationReady <==>
            (complete && setup.suite == "validation" && Covered(setup, selected) && AllPassed(results)
             && RoutesShown(results))
  {
    FilterEmptyIff(Failed(), results);
    RouteIff(results);
    CoveredIff(setup, selected);
  }

  // ----- one invocation of the script

  function Allowed(names: set<string>): string -> bool { (n: string) => n in names }

  /** The scenario names an invocation runs, before they are looked up. */
  function NamesToRun(setup: Setup): seq<string> {
    var names := if setup.requested != [] then setup.requested
                 else if setup.suite in setup.suites then setup.suites[setup.suite] else [];
    if setup.allowFake then Filter(Allowed(setup.fakeAllowed), names) else names
  }

  /** None when the selection raises. */
  function Select(setup: Setup): Option<seq<Scenario>> {
    var names := NamesToRun(setup);
    if setup.requested == [] && setup.suite !in setup.suites then None
    else if setup.allowFake && names == [] then None
    else if exists i :: 0 <= i < |names| && names[i] !in setup.catalogue then None
    else Some(seq(|names|, i requires 0 <= i < |names| => setup.catalogue[names[i]]))
  }

  /** The names an invocation asks for: those requested, or else its suite's. */
  function AskedFor(setup: Setup): seq<string> {
    if setup.requested != [] then setup.requested
    else if setup.suite in setup.suites then setup.suites[setup.suite] else []
  }

  /** The selection raises exactly when no such suite exists, when fake providers are allowed and none of the
      names is among theirs, or when a name to be run is in no catalogue. */
  lemma SelectionRaisesIff(setup: Setup)
    ensures Select(setup).None? <==>
            || (setup.requested == [] && setup.suite !in setup.suites)
            || (setup.allowFake && forall n :: n in AskedFor(setup) ==> n !in setup.fakeAllowed)
            || (exists n :: n in AskedFor(setup) && (setup.allowFake ==> n in setup.fakeAllowed)
                            && n !in setup.catalogue)
  {
    var names := NamesToRun(setup);
    FilterMembers(Allowed(setup.fakeAllowed), AskedFor(setup));
    assert forall n :: n in names <==> n in AskedFor(setup) && (setup.allowFake ==> n in setup.fakeAllowed);
    if setup.allowFake {
      assert names == [] <==> forall n :: n !in names by { if names != [] { assert names[0] in names; } }
    }
    if n :| n in names && n !in setup.catalogue {
      var i :| 0 <= i < |names| && names[i] == n;
    }
  }

  /** Otherwise it is the catalogue's entries for the names asked for, in order, without those fake providers
      exclude. */
  lemma SelectionIs(setup: Setup)
    requires Select(setup).Some?
    ensures var names := if setup.allowFake then Filter((n: string) => n in setup.fakeAllowed, AskedFor(setup))
                         else AskedFor(setup);
            && |Select(setup).value| == |names|
            && forall i :: 0 <= i < |names| ==>
                 names[i] in setup.catalogue && Select(setup).value[i] == setup.catalogue[names[i]]
  {
    SameNames((n: string) => n in setup.fakeAllowed, Allowed(setup.fakeAllowed), AskedFor(setup));
  }

  lemma {:induction false} SameNames(p: string -> bool, q: string -> bool, names: seq<string>)
    requires forall n :: p(n) == q(n)
    ensures Filter(p, names) == Filter(q, names)
  {
    if names != [] { SameNames(p, q, Front(names)); }
  }

  /** The results of the first n scenarios, up to the first that raised. */
  function ResultsOf(outcomes: nat -> Outcome, n: nat): (results: seq<Result>)
    ensures |results| <= n
    ensures forall i :: 0 <= i < |results| ==> outcomes(i) == Finished(results[i])
    ensures |results| < n ==> outcomes(|results|).Raised?
  {
    if n == 0 then []
    else
      var earlier := ResultsOf(outcomes, n - 1);
      if |earlier| < n - 1 || outcomes(n - 1).Raised? then earlier else earlier + [outcomes(n - 1).result]
  }

  /** A summary of an unfinished run. */
  function PartialSummary(setup: Setup, selected: seq<Scenario>): seq<Result> -> Summary {
    (results: seq<Result>) => Summarise(setup, selected, results, false, "", None)
  }

  /** The summaries written while scenarios are still to come: one after each result. */
  function Partials(setup: Setup, selected: seq<Scenario>, results: seq<Result>): seq<Summary> {
    OverPrefixes(PartialSummary(setup, selected), results)
  }

  function FailureMessage(results: seq<Result>): string {
    "Scenario(s) failed: " + Joined(", ", Map(ScenarioOf(), Filter(Failed(), results)))
  }

  function EntryOf(setup: Setup, results: seq<Result>): Entry {
    Entry(setup.suite, setup.requested, Map(ScenarioOf(), results), MetricsOf(results))
  }

  function Trend(setup: Setup, results: seq<Result>, before: Option<seq<Line>>): Option<Metrics> {
    if before.None? then None else Deltas(before.value, EntryOf(setup, results))
  }

  /** The message of the exception raised on an existing history, if it holds a line that makes one. */
  function HistoryRaises(before: Option<seq<Line>>): Option<string> {
    if before.None? then None else FirstRaised(before.value)
  }

  /** The summaries written once no scenario is left to run, or one has raised. */
  function Ending(setup: Setup, selected: seq<Scenario>, results: seq<Result>, outcomes: nat -> Outcome,
                  before: Option<seq<Line>>): seq<Summary> {
    if |results| < |selected| then
      if results == [] || outcomes(|results|).Finished? then []
      else [Summarise(setup, selected, results, false, outcomes(|results|).message, None)]
    else if HistoryRaises(before).Some? then
      if results == [] then [] else [Summarise(setup, selected, results, false, HistoryRaises(before).value, None)]
    else
      var last := Summarise(setup, selected, results, true, "", Trend(setup, results, before));
      if last.ok then [last] else [last, Summarise(setup, selected, results, false, FailureMessage(results), None)]
  }

  /** Every summary an invocation writes, in order, each over the last. */
  function Written(setup: Setup, outcomes: nat -> Outcome, before: Option<seq<Line>>): seq<Summary> {
    if Select(setup).None? then []
    else
      var selected := Select(setup).value;
      var results := ResultsOf(outcomes, |selected|);
      Partials(setup, selected, results) + Ending(setup, selected, results, outcomes, before)
  }

  /** The records an invocation adds to the history. */
  function Appended(setup: Setup, outcomes: nat -> Outcome, before: seq<Line>): seq<Line> {
    var selected := Select(setup);
    if selected.None? || FirstRaised(before).Some? then []
    else
      var results := ResultsOf(outcomes, |selected.value|);
      if |results| < |selected.value| then [] else [Record(EntryOf(setup, results))]
  }

  lemma ResultsGrow(outcomes: nat -> Outcome, i: nat)
    requires |ResultsOf(outcomes, i)| == i
    ensures ResultsOf(outcomes, i + 1) ==
            ResultsOf(outcomes, i) + if outcomes(i).Raised? then [] else [outcomes(i).result]
  {
  }

  lemma PartialsGrow(setup: Setup, selected: seq<Scenario>, results: seq<Result>, r: Result)
    ensures Partials(setup, selected, results + [r]) ==
            Partials(setup, selected, results) + [Summarise(setup, selected, results + [r], false, "", None)]
  {
    Joins(results, r);
  }

  /** The loop over the selected scenarios: a summary is written after every result, until one raises. */
  method RunScenarios(setup: Setup, selected: seq<Scenario>, outcomes: nat -> Outcome)
    returns (results: seq<Result>, written: seq<Summary>, error: Option<string>)
    ensures results == ResultsOf(outcomes, |selected|)
    ensures written == Partials(setup, selected, results)
    ensures error.None? <==> |results| == |selected|
    ensures error.Some? ==> outcomes(|results|) == Raised(error.value)
  {
    results, written, error := [], [], None;
    for i := 0 to |selected|
      invariant results == ResultsOf(outcomes, i) && |results| == i
      invariant written == Partials(setup, selected, results)
    {
      match outcomes(i) {
        case Raised(message) =>
          ResultsGrow(outcomes, i);
          StopsWhereRaised(outcomes, i + 1, |selected|);
          error := Some(message);
          return;
        case Finished(result) =>
          results := results + [result];
          ResultsGrow(outcomes, i);
          PartialsGrow(setup, selected, ResultsOf(outcomes, i), result);
          var summary := BuildAcceptanceSummary(setup, selected, results, false, "");
          written := written + [summary];
      }
    }
  }

  /** Every scenario ran: one complete summary, compared with and recorded in the history when there is one,
      unless the history raises. */
  method CompleteRun(setup: Setup, selected: seq<Scenario>, results: seq<Result>, history: HistoryFile?)
    returns (raised: Option<string>, summary: Summary)
    modifies history
    ensures var before := if history == null then None else Some(old(history.lines));
            && raised == HistoryRaises(before)
            && (raised.None? ==>
                  summary == Summarise(setup, selected, results, true, "", Trend(setup, results, before)))
    ensures history != null ==>
              history.lines == old(history.lines) + if raised.None? then [Record(EntryOf(setup, results))] else []
  {
    raised := None;
    summary := BuildAcceptanceSummary(setup, selected, results, true, "");
    if history != null {
      var deltas;
      raised, deltas := history.AttachHistory(EntryOf(setup, results));
      summary := summary.(deltas := deltas);
    }
  }

  /** When the script exits with 1: the selection, a scenario or the history raised, or some result is not
      ok. */
  ghost predicate Fails(setup: Setup, outcomes: nat -> Outcome, before: Option<seq<Line>>) {
    var selected := Select(setup);
    || selected.None?
    || HistoryRaises(before).Some?
    || exists i :: 0 <= i < |selected.value| && (outcomes(i).Raised? || !outcomes(i).result.ok)
  }

  /** What follows the loop: the complete summary, and one more, incomplete, when something failed or raised. */
  method FinishRun(setup: Setup, selected: seq<Scenario>, results: seq<Result>, outcomes: nat -> Outcome,
                   raised: Option<string>, history: HistoryFile?)
    returns (ending: seq<Summary>, failed: bool)
    requires if raised.None? then |results| == |selected|
             else |results| < |selected| && outcomes(|results|) == Raised(raised.value)
    modifies history
    ensures var before := if history == null then None else Some(old(history.lines));
            && ending == Ending(setup, selected, results, outcomes, before)
            && (failed <==> raised.Some? || HistoryRaises(before).Some? || !AllPassed(results))
    ensures history != null ==>
              history.lines == old(history.lines) +
                               if raised.None? && FirstRaised(old(history.lines)).None?
                               then [Record(EntryOf(setup, results))] else []
  {
    ending := [];
    var error := raised;
    if error.None? {
      var summary;
      error, summary := CompleteRun(setup, selected, results, history);
      if error.None? {
        ending := [summary];
        if !summary.ok { error := Some(FailureMessage(results)); }
      }
    }
    if error.Some? && results != [] {
      var summary := BuildAcceptanceSummary(setup, selected, results, false, error.value);
      ending := ending + [summary];
    }
    failed := error.Some?;
  }

  method RunFromArgs(setup: Setup, outcomes: nat -> Outcome, history: HistoryFile?)
    returns (written: seq<Summary>, failed: bool)
    modifies history
    ensures var before := if history == null then None else Some(old(history.lines));
            written == Written(setup, outcomes, before) && (failed <==> Fails(setup, outcomes, before))
    ensures history != null ==>
              history.lines == old(history.lines) + Appended(setup, outcomes, old(history.lines))
  {
    written, failed := [], true;
    ghost var before := if history == null then None else Some(history.lines);
    var selection := Select(setup);
    if selection.None? { return; }
    var selected := selection.value;
    var results, partials, raised := RunScenarios(setup, selected, outcomes);
    var ending;
    ending, failed := FinishRun(setup, selected, results, outcomes, raised, history);
    written := partials + ending;
    FailsIff(setup, outcomes, before, selected, results);
  }

  lemma FailsIff(setup: Setup, outcomes: nat -> Outcome, before: Option<seq<Line>>, selected: seq<Scenario>,
                 results: seq<Result>)
    requires Select(setup) == Some(selected) && results == ResultsOf(outcomes, |selected|)
    ensures Fails(setup, outcomes, before) <==>
            |results| < |selected| || HistoryRaises(before).Some? || !AllPassed(results)
  {
    if |results| < |selected| {
      assert outcomes(|results|).Raised?;
    } else {
      assert forall i :: 0 <= i < |results| ==> outcomes(i) == Finished(results[i]);
    }
  }

  lemma {:induction false} StopsWhereRaised(outcomes: nat -> Outcome, i: nat, n: nat)
    requires i <= n && |ResultsOf(outcomes, i)| < i
    ensures ResultsOf(outcomes, n) == ResultsOf(outcomes, i)
    decreases n
  {
    if i < n { StopsWhereRaised(outcomes, i, n - 1); }
  }

  // ----- what the file left behind says

  /** What has to have happened, outcome by outcome, for the validation suite to stand. */
  ghost predicate Stands(setup: Setup, outcomes: nat -> Outcome) {
    && setup.suite == "validation"
    && var selected := Select(setup);
    && selected.Some?
    && Covered(setup, selected.value)
    && (forall i :: 0 <= i < |selected.value| ==> outcomes(i).Finished? && outcomes(i).result.ok)
    && (exists i :: 0 <= i < |selected.value| && outcomes(i).Finished? && outcomes(i).result.evidence.Some?)
    && (forall i :: 0 <= i < |selected.value| && outcomes(i).Finished? && outcomes(i).result.evidence.Some? ==>
          outcomes(i).result.evidence.value.strong && outcomes(i).result.evidence.value.medium)
  }

  /** The summary written after the (k+1)th result reports exactly the first k+1 outcomes and claims nothing. */
  lemma PartialsAt(setup: Setup, selected: seq<Scenario>, results: seq<Result>, k: nat)
    ensures |Partials(setup, selected, results)| == |results|
    ensures k < |results| ==>
              Partials(setup, selected, results)[k] == Summarise(setup, selected, results[..k + 1], false, "", None)
  {
    OverPrefixesAt(PartialSummary(setup, selected), results, k);
  }

  /** Only the last of these can call the run ok, and only an ok one the validation suite ready. */
  predicate OnlyTheLastClaims(written: seq<Summary>) {
    forall k :: 0 <= k < |written| ==> MayClaim(written[k], k == |written| - 1)
  }

  predicate MayClaim(s: Summary, last: bool) { (s.validationReady ==> s.ok) && (s.ok ==> s.complete && last) }

  predicate ClaimsNothing(s: Summary) { !s.ok && !s.complete && !s.validationReady }

  lemma PartialsClaimNothing(setup: Setup, selected: seq<Scenario>, results: seq<Result>)
    ensures forall k :: 0 <= k < |Partials(setup, selected, results)| ==>
                          ClaimsNothing(Partials(setup, selected, results)[k])
  {
    var partials := Partials(setup, selected, results);
    PartialsAt(setup, selected, results, 0);
    forall k | 0 <= k < |partials| ensures ClaimsNothing(partials[k]) { PartialsAt(setup, selected, results, k); }
  }

  lemma CompleteMayClaim(setup: Setup, selected: seq<Scenario>, results: seq<Result>, deltas: Option<Metrics>)
    ensures var s := Summarise(setup, selected, results, true, "", deltas);
            (s.validationReady ==> s.ok) && s.complete
  {
    ReadyIff(setup, selected, results, true, "", deltas);
  }

  lemma IncompleteClaimsNothing(setup: Setup, selected: seq<Scenario>, results: seq<Result>, error: string)
    ensures ClaimsNothing(Summarise(setup, selected, results, false, error, None))
  {
  }

  lemma ClaimsOfTwo(s: Summary, t: Summary)
    requires (s.validationReady ==> s.ok) && s.complete && ClaimsNothing(t)
    ensures OnlyTheLastClaims([t]) && OnlyTheLastClaims(if s.ok then [s] else [s, t])
  {
  }

  lemma EndingClaims(setup: Setup, selected: seq<Scenario>, results: seq<Result>, outcomes: nat -> Outcome,
                     before: Option<seq<Line>>)
    ensures OnlyTheLastClaims(Ending(setup, selected, results, outcomes, before))
  {
    var deltas := Trend(setup, results, before);
    var error := if |results| < |selected| && outcomes(|results|).Raised? then outcomes(|results|).message
                 else if HistoryRaises(before).Some? then HistoryRaises(before).value
                 else FailureMessage(results);
    CompleteMayClaim(setup, selected, results, deltas);
    IncompleteClaimsNothing(setup, selected, results, error);
    ClaimsOfTwo(Summarise(setup, selected, results, true, "", deltas),
                Summarise(setup, selected, results, false, error, None));
  }

  lemma ClaimsAfterPartials(partials: seq<Summary>, ending: seq<Summary>)
    requires OnlyTheLastClaims(ending)
    requires forall k :: 0 <= k < |partials| ==> ClaimsNothing(partials[k])
    ensures OnlyTheLastClaims(partials + ending)
  {
    var written := partials + ending;
    forall k | 0 <= k < |written| ensures MayClaim(written[k], k == |written| - 1) {
      if k >= |partials| { assert MayClaim(ending[k - |partials|], k - |partials| == |ending| - 1); }
    }
  }

  /** Of all summaries an invocation writes, only the last can claim anything. */
  lemma WrittenClaims(setup: Setup, outcomes: nat -> Outcome, before: Option<seq<Line>>)
    ensures OnlyTheLastClaims(Written(setup, outcomes, before))
  {
    if Select(setup).Some? {
      var selected := Select(setup).value;
      var results := ResultsOf(outcomes, |selected|);
      PartialsClaimNothing(setup, selected, results);
      EndingClaims(setup, selected, results, outcomes, before);
      ClaimsAfterPartials(Partials(setup, selected, results), Ending(setup, selected, results, outcomes, before));
    }
  }

  /** The ending is ready at its last summary exactly when every scenario ran, the suite is shown to stand, and
      the history did not raise. */
  lemma EndingReadyIff(setup: Setup, selected: seq<Scenario>, results: seq<Result>, outcomes: nat -> Outcome,
                       before: Option<seq<Line>>)
    requires |results| <= |selected|
    ensures var ending := Ending(setup, selected, results, outcomes, before);
            (ending != [] && Last(ending).validationReady) <==>
            (|results| == |selected| && setup.suite == "validation" && Covered(setup, selected)
             && AllPassed(results) && RoutesShown(results) && HistoryRaises(before).None?)
  {
    ReadyIff(setup, selected, results, true, "", Trend(setup, results, before));
    assert Summarise(setup, selected, results, true, "", Trend(setup, results, before)).ok <==> AllPassed(results);
  }

  lemma EndsIfAnyRan(setup: Setup, selected: seq<Scenario>, results: seq<Result>, outcomes: nat -> Outcome,
                     before: Option<seq<Line>>)
    requires results == ResultsOf(outcomes, |selected|)
    ensures Ending(setup, selected, results, outcomes, before) == [] <==>
            results == [] && (selected != [] || HistoryRaises(before).Some?)
  {
  }

  lemma StopsShort(setup: Setup, outcomes: nat -> Outcome, selected: seq<Scenario>, results: seq<Result>)
    requires Select(setup) == Some(selected) && results == ResultsOf(outcomes, |selected|) && |results| < |selected|
    ensures !Stands(setup, outcomes)
  {
    assert outcomes(|results|).Raised?;
  }

  /** The last summary an invocation writes says `validation_ready` exactly when the whole validation suite was
      selected, every scenario of it ran and passed, some result carries route evidence, every one that does
      used both the strong and the medium tier, and the history did not raise. */
  lemma LastWrittenReadyIff(setup: Setup, outcomes: nat -> Outcome, before: Option<seq<Line>>)
    ensures var written := Written(setup, outcomes, before);
            (written != [] && Last(written).validationReady) <==>
            (Stands(setup, outcomes) && HistoryRaises(before).None?)
  {
    if Select(setup).Some? {
      var selected := Select(setup).value;
      var results := ResultsOf(outcomes, |selected|);
      var partials, ending := Partials(setup, selected, results), Ending(setup, selected, results, outcomes, before);
      EndingReadyIff(setup, selected, results, outcomes, before);
      EndsIfAnyRan(setup, selected, results, outcomes, before);
      PartialsAt(setup, selected, results, 0);
      ConcatEnds(partials, ending);
      if |results| == |selected| {
        StandsIff(setup, outcomes, selected, results);
        if results == [] { assert !RoutesShown(results); }
      } else {
        StopsShort(setup, outcomes, selected, results);
      }
    }
  }

  /** The last summary says the run is ok exactly when it does not fail. */
  lemma LastWrittenOkIff(setup: Setup, outcomes: nat -> Outcome, before: Option<seq<Line>>)
    ensures var written := Written(setup, outcomes, before);
            (written != [] && Last(written).ok) <==> !Fails(setup, outcomes, before)
  {
    if Select(setup).Some? {
      var selected := Select(setup).value;
      var results := ResultsOf(outcomes, |selected|);
      var partials, ending := Partials(setup, selected, results), Ending(setup, selected, results, outcomes, before);
      FailsIff(setup, outcomes, before, selected, results);
      EndsIfAnyRan(setup, selected, results, outcomes, before);
      PartialsAt(setup, selected, results, 0);
      ConcatEnds(partials, ending);
      EndingOkIff(setup, selected, results, outcomes, before);
    }
  }

  lemma EndingOkIff(setup: Setup, selected: seq<Scenario>, results: seq<Result>, outcomes: nat -> Outcome,
                    before: Option<seq<Line>>)
    requires |results| <= |selected|
    ensures var ending := Ending(setup, selected, results, outcomes, before);
            (ending != [] && Last(ending).ok) <==>
            (|results| == |selected| && HistoryRaises(before).None? && AllPassed(results))
  {
  }

  /** When the k-th scenario is the first to raise, and there are results, the last summary holds exactly the
      results before it and the message of its exception. */
  lemma RaisedRunReports(setup: Setup, outcomes: nat -> Outcome, before: Option<seq<Line>>, k: nat)
    requires Select(setup).Some? && 0 < k < |Select(setup).value| && outcomes(k).Raised?
    requires forall i: nat :: i < k ==> outcomes(i).Finished?
    ensures var written := Written(setup, outcomes, before);
            && written != [] && !Last(written).complete && Last(written).error == outcomes(k).message
            && |Last(written).results| == k
            && forall i: nat :: i < k ==> outcomes(i) == Finished(Last(written).results[i])
  {
    var selected := Select(setup).value;
    var results := ResultsOf(outcomes, |selected|);
    assert |results| == k;
    var partials, ending := Partials(setup, selected, results), Ending(setup, selected, results, outcomes, before);
    EndsIfAnyRan(setup, selected, results, outcomes, before);
    ConcatEnds(partials, ending);
    assert |ending| == 1;
  }

  /** Why a run fails of which every scenario finished: the history's message, or else the names of those not
      ok. */
  function Complaint(aggregate: Aggregate, before: Option<seq<Line>>): string {
    if HistoryRaises(before).Some? then HistoryRaises(before).value
    else "Scenario(s) failed: " + Joined(", ", aggregate.failedScenarios)
  }

  lemma EndingComplains(setup: Setup, selected: seq<Scenario>, results: seq<Result>, outcomes: nat -> Outcome,
                        before: Option<seq<Line>>)
    requires |results| == |selected| && results != [] && (HistoryRaises(before).Some? || !AllPassed(results))
    ensures var ending := Ending(setup, selected, results, outcomes, before);
            && ending != []
            && Last(ending) == Summarise(setup, selected, results, false,
                                         Complaint(AggregateOf(results, selected), before), None)
  {
  }

  /** When every scenario finished, there are some, and the run fails all the same, the last summary holds all
      the results and says why. */
  lemma FailedRunReports(setup: Setup, outcomes: nat -> Outcome, before: Option<seq<Line>>)
    requires Select(setup).Some? && Select(setup).value != [] && Fails(setup, outcomes, before)
    requires forall i: nat :: i < |Select(setup).value| ==> outcomes(i).Finished?
    ensures var written := Written(setup, outcomes, before);
            && written != [] && !Last(written).complete && |Last(written).results| == |Select(setup).value|
            && (forall i: nat :: i < |Last(written).results| ==> outcomes(i) == Finished(Last(written).results[i]))
            && Last(written).error == Complaint(Last(written).aggregate, before)
  {
    var selected := Select(setup).value;
    var results := ResultsOf(outcomes, |selected|);
    FailsIff(setup, outcomes, before, selected, results);
    EndingComplains(setup, selected, results, outcomes, before);
    ConcatEnds(Partials(setup, selected, results), Ending(setup, selected, results, outcomes, before));
  }

  /** What an invocation records is about the run its complete summary is about. */
  lemma RecordedIsWritten(setup: Setup, outcomes: nat -> Outcome, lines: seq<Line>, e: Entry)
    requires Appended(setup, outcomes, lines) == [Record(e)]
    ensures var written := Written(setup, outcomes, Some(lines));
            && e.suite == setup.suite && e.requested == setup.requested
            && exists k :: 0 <= k < |written| && Reports(written[k], e, lines)
  {
    var selected := Select(setup).value;
    var results := ResultsOf(outcomes, |selected|);
    var partials, ending := Partials(setup, selected, results), Ending(setup, selected, results, outcomes, Some(lines));
    var written := Written(setup, outcomes, Some(lines));
    assert Reports(ending[0], e, lines);
    assert written[|partials|] == ending[0];
  }

  ghost predicate Reports(s: Summary, e: Entry, lines: seq<Line>) {
    && s.complete && s.error == "" && s.aggregate.metrics == e.metrics && s.deltas == Deltas(lines, e)
    && |e.scenarios| == |s.results| && forall i :: 0 <= i < |s.results| ==> e.scenarios[i] == s.results[i].scenario
  }

  // ----- the file, over invocations

  /** A file an invocation writes to, as it finds it and as it leaves it: no old summary is ever removed. */
  function FileAfter(prior: Option<Summary>, written: seq<Summary>): Option<Summary> {
    if written == [] then prior else Some(Last(written))
  }

  predicate Claims(file: Option<Summary>) { file.Some? && file.value.validationReady }

  /** The invocations that write nothing: the selection raises, or the first scenario does, or there is none
      to run and the history raises. */
  lemma WritesNothingIff(setup: Setup, outcomes: nat -> Outcome, before: Option<seq<Line>>)
    ensures Written(setup, outcomes, before) == [] <==>
            || Select(setup).None?
            || (|Select(setup).value| > 0 && outcomes(0).Raised?)
            || (|Select(setup).value| == 0 && HistoryRaises(before).Some?)
  {
    if Select(setup).Some? {
      var selected := Select(setup).value;
      var results := ResultsOf(outcomes, |selected|);
      EndsIfAnyRan(setup, selected, results, outcomes, before);
      PartialsAt(setup, selected, results, 0);
    }
  }

  /** The file an invocation leaves behind says `validation_ready` exactly when the invocation showed the suite
      to stand, or wrote nothing over a file that said so already. */
  lemma LeftReadyIff(setup: Setup, outcomes: nat -> Outcome, before: Option<seq<Line>>, prior: Option<Summary>)
    ensures var written := Written(setup, outcomes, before);
            Claims(FileAfter(prior, written)) <==>
            if written == [] then Claims(prior) else Stands(setup, outcomes) && HistoryRaises(before).None?
  {
    LastWrittenReadyIff(setup, outcomes, before);
  }

  datatype Invocation = Invocation(setup: Setup, outcomes: nat -> Outcome, before: Option<seq<Line>>)

  function Writes(): Invocation -> bool {
    (i: Invocation) => |Written(i.setup, i.outcomes, i.before)| > 0
  }

  function FileAfterAll(prior: Option<Summary>, invocations: seq<Invocation>): Option<Summary> {
    if |invocations| == 0 then prior
    else
      var last := Last(invocations);
      FileAfter(FileAfterAll(prior, Front(invocations)), Written(last.setup, last.outcomes, last.before))
  }

  /** Over any series of invocations with the same file: it says `validation_ready` exactly when the last of
      them to write anything showed the suite to stand, whatever has happened since; if none wrote, when it
      said so before. */
  lemma {:induction false} SeriesReadyIff(prior: Option<Summary>, invocations: seq<Invocation>)
    ensures var w := LastIndex(Writes(), invocations);
            Claims(FileAfterAll(prior, invocations)) <==>
            if w < 0 then Claims(prior)
            else Stands(invocations[w].setup, invocations[w].outcomes) && HistoryRaises(invocations[w].before).None?
  {
    if |invocations| > 0 {
      var front, last := Front(invocations), Last(invocations);
      SeriesReadyIff(prior, front);
      LeftReadyIff(last.setup, last.outcomes, last.before, FileAfterAll(prior, front));
    }
  }

  lemma StandsSelects(setup: Setup, outcomes: nat -> Outcome)
    requires Stands(setup, outcomes)
    ensures Select(setup).Some? && |Select(setup).value| > 0 && outcomes(0).Finished?
  {
  }

  lemma FirstRaisedFails(setup: Setup, outcomes: nat -> Outcome, before: Option<seq<Line>>)
    requires Select(setup).Some? && |Select(setup).value| > 0 && outcomes(0).Raised?
    ensures Fails(setup, outcomes, before) && Written(setup, outcomes, before) == []
  {
    WritesNothingIff(setup, outcomes, before);
    assert outcomes(0).Raised?;
  }

  lemma RaisesAtOnce(setup: Setup, good: nat -> Outcome, bad: nat -> Outcome, before: Option<seq<Line>>)
    requires Stands(setup, good) && bad(0).Raised?
    ensures !Stands(setup, bad) && Fails(setup, bad, before) && Written(setup, bad, before) == []
  {
    StandsSelects(setup, good);
    FirstRaisedFails(setup, bad, before);
    if Stands(setup, bad) { StandsSelects(setup, bad); }
  }

  /** A file that says `validation_ready` goes on saying so after an invocation of the same suite that failed
      because its first scenario raised. */
  lemma StaleReadySurvives(setup: Setup, good: nat -> Outcome, bad: nat -> Outcome, before: Option<seq<Line>>)
    requires Stands(setup, good) && HistoryRaises(before).None? && bad(0).Raised?
    ensures var file := FileAfter(None, Written(setup, good, before));
            Claims(file) && Claims(FileAfter(file, Written(setup, bad, before)))
    ensures !Stands(setup, bad) && Fails(setup, bad, before)
  {
    RaisesAtOnce(setup, good, bad, before);
    LastWrittenReadyIff(setup, good, before);
  }

  lemma StandsIff(setup: Setup, outcomes: nat -> Outcome, selected: seq<Scenario>, results: seq<Result>)
    requires Select(setup) == Some(selected) && results == ResultsOf(outcomes, |selected|) && |results| == |selected|
    ensures Stands(setup, outcomes) <==>
            setup.suite == "validation" && Covered(setup, selected) && AllPassed(results) && RoutesShown(results)
  {
    assert forall i :: 0 <= i < |results| ==> outcomes(i) == Finished(results[i]);
  }

  /** Scenarios are listed in the catalogue under their own, non-empty, names. */
  ghost predicate Faithful(catalogue: map<string, Scenario>) {
    "" !in catalogue && forall n :: n in catalogue ==> catalogue[n].name == n
  }

  lemma RunsTheAllowed(setup: Setup, n: string)
    requires Select(setup).Some?
    ensures n in NamesToRun(setup) <==>
            && n in (if setup.requested != [] then setup.requested else setup.suites[setup.suite])
            && (setup.allowFake ==> n in setup.fakeAllowed)
  {
    var asked := if setup.requested != [] then setup.requested else setup.suites[setup.suite];
    FilterMembers(Allowed(setup.fakeAllowed), asked);
  }

  lemma SelectsTheNamed(setup: Setup, n: string)
    requires Faithful(setup.catalogue) && Select(setup).Some?
    ensures var selected := Select(setup).value;
            n in NamesToRun(setup) <==> exists i :: 0 <= i < |selected| && selected[i].name == n
    ensures n in NamesToRun(setup) ==> n != ""
  {
    var selected, names := Select(setup).value, NamesToRun(setup);
    assert forall i :: 0 <= i < |names| ==> selected[i].name == names[i];
    if n in names {
      var i :| 0 <= i < |names| && names[i] == n;
      assert selected[i].name == n;
    }
  }

  /** Which invocations cover their suite: those that name no scenario or all of the suite's, unless fake
      providers exclude one of them. */
  lemma CoverageIff(setup: Setup)
    requires Faithful(setup.catalogue) && Select(setup).Some?
    ensures Covered(setup, Select(setup).value) <==>
            ((setup.requested != [] ==> forall n :: n in Expected(setup) ==> n in setup.requested)
             && (setup.allowFake ==> Expected(setup) <= setup.fakeAllowed))
  {
    var selected := Select(setup).value;
    forall n | n in Expected(setup)
      ensures (exists i :: 0 <= i < |selected| && selected[i].name == n) <==>
              ((setup.requested != [] ==> n in setup.requested) && (setup.allowFake ==> n in setup.fakeAllowed))
      ensures (exists i :: 0 <= i < |selected| && selected[i].name == n) ==> n != ""
    {
      RunsTheAllowed(setup, n);
      SelectsTheNamed(setup, n);
    }
  }
}
