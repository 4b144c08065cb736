/**
  What the activity counts are over, from the process types' declarations alone
  (features/analytics/plan.ts).
 */
module Plan {
  import opened Wrappers

  /** The role an event plays in the counts. */
  datatype Role = TakingPart | Creation | Closing | Outcome

  /** The events that record a resident taking part; elsewhere; or none. */
  datatype Participation = Listed(events: seq<string>) | Elsewhere | NotCounted

  datatype SourceTotal = SourceTotal(event: string, field: string)

  datatype Declaration = Declaration(
    participation: Participation, creation: seq<string>, closing: seq<string>, outcome: seq<string>,
    sourceField: Option<string>, sourceTotals: seq<SourceTotal>, measures: map<string, Role>)

  datatype ProcessType = ProcessType(
    name: string, caption: string, plural: string, residentCreated: bool, participation: Option<Declaration>)

  /** The host's own events, counted for every type alike. */
  const HOST_PARTICIPATION: seq<string> := ["civic.process.comment_added", "civic.review.submitted", "civic.review.revised"]

  const MEASURES: seq<string> := ["met_in_public", "worked_with_neighbours", "contacted_an_official"]

  // ----- Roles -----

  function ListOf(d: Declaration): seq<string> {
    match d.participation
    case Listed(events) => events
    case _ => []
  }

  /** The type of a name; of two of one name the later counts, as in a Map. */
  function LookUp(types: seq<ProcessType>, name: string): Option<ProcessType> {
    if types == [] then None
    else if types[|types| - 1].name == name then Some(types[|types| - 1])
    else LookUp(types[..|types| - 1], name)
  }

  /** Of two types of one name the later counts, and one of another name makes no difference. */
  lemma LaterCounts(types: seq<ProcessType>, t: ProcessType, name: string)
    ensures LookUp(types + [t], name) == if t.name == name then Some(t) else LookUp(types, name)
    ensures LookUp([], name) == None
  {
    assert (types + [t])[..|types|] == types;
  }

  function DeclarationOf(types: seq<ProcessType>, name: string): Option<Declaration> {
    var t := LookUp(types, name);
    if t.None? then None else t.value.participation
  }

  /** Every role an event of a type plays: its own declaration's, and the host's participation. */
  function RolesOf(types: seq<ProcessType>, name: string, event: string): seq<Role> {
    var d := DeclarationOf(types, name);
    (if event in HOST_PARTICIPATION || (d.Some? && event in ListOf(d.value)) then [TakingPart] else []) +
    (if d.Some? && event in d.value.creation then [Creation] else []) +
    (if d.Some? && event in d.value.closing then [Closing] else []) +
    (if d.Some? && event in d.value.outcome then [Outcome] else [])
  }

  // ----- The plan -----

  /** A type ("*" for every type) and one of its events. */
  datatype Pair = Pair(t: string, e: string)

  datatype Source = Source(id: string, t: string, e: string, f: string)

  datatype Total = Total(t: string, e: string, f: Option<string>, n: string, of: seq<string>)

  datatype ActorPlan = ActorPlan(acts: seq<Pair>, measures: map<string, seq<Pair>>, sources: seq<Source>, totals: seq<Total>)

  function Pairs(t: string, events: seq<string>): (r: seq<Pair>)
    ensures |r| == |events|
    ensures forall i :: 0 <= i < |r| ==> r[i] == Pair(t, events[i])
  {
    seq(|events|, i requires 0 <= i < |events| => Pair(t, events[i]))
  }

  /** The events that make a resident active on one type. */
  function ActEvents(t: ProcessType): seq<string> {
    if t.participation.None? then []
    else ListOf(t.participation.value) + if t.residentCreated then t.participation.value.creation else []
  }

  function ActsOf(t: ProcessType): seq<Pair> {
    Pairs(t.name, ActEvents(t))
  }

  predicate Feeds(t: ProcessType, id: string, role: Role) {
    t.participation.Some? && id in t.participation.value.measures && t.participation.value.measures[id] == role
  }

  function Feeders(types: seq<ProcessType>, id: string, role: Role): seq<ProcessType> {
    if types == [] then []
    else Feeders(types[..|types| - 1], id, role) + if Feeds(types[|types| - 1], id, role) then [types[|types| - 1]] else []
  }

  predicate CountsResidents(t: ProcessType) {
    t.participation.Some? && t.participation.value.participation.Listed?
  }

  function Residents(types: seq<ProcessType>): seq<ProcessType> {
    if types == [] then []
    else Residents(types[..|types| - 1]) + if CountsResidents(types[|types| - 1]) then [types[|types| - 1]] else []
  }

  function TypeActs(types: seq<ProcessType>): seq<Pair> {
    if types == [] then [] else TypeActs(types[..|types| - 1]) + ActsOf(types[|types| - 1])
  }

  function MeasureActs(types: seq<ProcessType>): seq<Pair> {
    if types == [] then []
    else MeasureActs(types[..|types| - 1]) + (ActsOf(types[|types| - 1]) + Pairs(types[|types| - 1].name, HOST_PARTICIPATION))
  }

  function Acts(types: seq<ProcessType>): seq<Pair> {
    TypeActs(types) + Pairs("*", HOST_PARTICIPATION)
  }

  /** The pairs behind each resident measure; no entry for a measure nothing feeds. */
  function MeasurePairs(types: seq<ProcessType>, ids: seq<string>): map<string, seq<Pair>> {
    if ids == [] then map[]
    else
      var id := ids[|ids| - 1];
      var via := Residents(Feeders(types, id, TakingPart));
      var rest := MeasurePairs(types, ids[..|ids| - 1]);
      if via == [] then rest else rest[id := MeasureActs(via)]
  }

  function SourceField(t: ProcessType): Option<string> {
    if t.participation.Some? && t.participation.value.sourceField.Some? && t.participation.value.sourceField.value != ""
    then t.participation.value.sourceField else None
  }

  function SourcesOf(t: ProcessType, id: string): seq<Source> {
    var f := SourceField(t);
    if f.None? || t.participation.None? then []
    else
      var events := t.participation.value.outcome;
      seq(|events|, i requires 0 <= i < |events| => Source(id, t.name, events[i], f.value))
  }

  function FeederSources(types: seq<ProcessType>, id: string): seq<Source> {
    if types == [] then [] else FeederSources(types[..|types| - 1], id) + SourcesOf(types[|types| - 1], id)
  }

  function Sources(types: seq<ProcessType>, ids: seq<string>): seq<Source> {
    if ids == [] then []
    else Sources(types, ids[..|ids| - 1]) + FeederSources(Feeders(types, ids[|ids| - 1], Outcome), ids[|ids| - 1])
  }

  function ElsewhereTypes(types: seq<ProcessType>): seq<string> {
    if types == [] then []
    else
      var t := types[|types| - 1];
      ElsewhereTypes(types[..|types| - 1]) + if t.participation.Some? && t.participation.value.participation.Elsewhere? then [t.name] else []
  }

  function TotalsOf(t: ProcessType, of: seq<string>): seq<Total> {
    if t.participation.None? then []
    else
      var xs := t.participation.value.sourceTotals;
      seq(|xs|, i requires 0 <= i < |xs| => Total(t.name, xs[i].event, t.participation.value.sourceField, xs[i].field, of))
  }

  function Totals(types: seq<ProcessType>, of: seq<string>): seq<Total> {
    if types == [] then [] else Totals(types[..|types| - 1], of) + TotalsOf(types[|types| - 1], of)
  }

  function PlanOf(types: seq<ProcessType>): ActorPlan {
    ActorPlan(Acts(types), MeasurePairs(types, MEASURES), Sources(types, MEASURES), Totals(types, ElsewhereTypes(types)))
  }

  method CollectSources(outcome: seq<ProcessType>, id: string) returns (sources: seq<Source>)
    ensures sources == FeederSources(outcome, id)
  {
    sources := [];
    for j := 0 to |outcome|
      invariant sources == FeederSources(outcome[..j], id)
    {
      assert outcome[..j + 1][..j] == outcome[..j];
      var t := outcome[j];
      var f := SourceField(t);
      ghost var before := sources;
      if f.Some? {
        var events := t.participation.value.outcome;
        for k := 0 to |events|
          invariant sources == before + SourcesOf(t, id)[..k]
        {
          sources := sources + [Source(id, t.name, events[k], f.value)];
        }
      }
      assert sources == before + SourcesOf(t, id);
    }
    assert outcome[..|outcome|] == outcome;
  }

  method BuildPlan(types: seq<ProcessType>) returns (plan: ActorPlan)
    ensures plan == PlanOf(types)
  {
    hide Residents, Feeders, MeasureActs, FeederSources, ActsOf, Pairs;
    var acts: seq<Pair> := [];
    for i := 0 to |types|
      invariant acts == TypeActs(types[..i])
    {
      assert types[..i + 1][..i] == types[..i];
      acts := acts + ActsOf(types[i]);
    }
    assert types[..|types|] == types;
    acts := acts + Pairs("*", HOST_PARTICIPATION);
    var measures: map<string, seq<Pair>> := map[];
    var sources: seq<Source> := [];
    for i := 0 to |MEASURES|
      invariant measures == MeasurePairs(types, MEASURES[..i])
      invariant sources == Sources(types, MEASURES[..i])
    {
      var id := MEASURES[i];
      assert MEASURES[..i + 1][..i] == MEASURES[..i];
      var via := Residents(Feeders(types, id, TakingPart));
      if |via| > 0 {
        measures := measures[id := MeasureActs(via)];
      }
      var pushed := CollectSources(Feeders(types, id, Outcome), id);
      sources := sources + pushed;
    }
    assert MEASURES[..|MEASURES|] == MEASURES;
    plan := ActorPlan(acts, measures, sources, Totals(types, ElsewhereTypes(types)));
  }

  // ----- The plan and the roles agree -----

  /** What the database does with the acts of a plan: a pair names its type, or every type. */
  predicate Matches(pairs: seq<Pair>, name: string, event: string) {
    exists i :: 0 <= i < |pairs| && pairs[i].e == event && (pairs[i].t == "*" || pairs[i].t == name)
  }

  ghost predicate DistinctNames(types: seq<ProcessType>) {
    (forall i, j :: 0 <= i < j < |types| ==> types[i].name != types[j].name) &&
    (forall i :: 0 <= i < |types| ==> types[i].name != "*")
  }

  lemma MatchesAppend(a: seq<Pair>, b: seq<Pair>, name: string, event: string)
    ensures Matches(a + b, name, event) <==> Matches(a, name, event) || Matches(b, name, event)
  {
    if i :| 0 <= i < |a| && a[i].e == event && (a[i].t == "*" || a[i].t == name) {
      assert (a + b)[i] == a[i];
    }
    if i :| 0 <= i < |b| && b[i].e == event && (b[i].t == "*" || b[i].t == name) {
      assert (a + b)[|a| + i] == b[i];
    }
  }

  lemma MatchesPairs(t: string, events: seq<string>, name: string, event: string)
    ensures Matches(Pairs(t, events), name, event) <==> (t == "*" || t == name) && event in events
  {
    var ps := Pairs(t, events);
    if (t == "*" || t == name) && event in events {
      var i :| 0 <= i < |events| && events[i] == event;
      assert ps[i].e == event;
    }
  }

  /** An event acts on a type: it is listed participation, or creation residents do. */
  predicate ActsOn(t: Option<ProcessType>, event: string) {
    t.Some? && event in ActEvents(t.value)
  }

  lemma {:induction false} TypeActsMatch(types: seq<ProcessType>, name: string, event: string)
    requires DistinctNames(types)
    ensures Matches(TypeActs(types), name, event) <==> ActsOn(LookUp(types, name), event)
  {
    if types != [] {
      var n := |types| - 1;
      var t := types[n];
      TypeActsMatch(types[..n], name, event);
      MatchesAppend(TypeActs(types[..n]), ActsOf(t), name, event);
      MatchesPairs(t.name, ActEvents(t), name, event);
      if t.name == name {
        LookUpAbsent(types[..n], name);
      }
    }
  }

  lemma {:induction false} LookUpAbsent(types: seq<ProcessType>, name: string)
    requires forall i :: 0 <= i < |types| ==> types[i].name != name
    ensures LookUp(types, name).None?
  {
    if types != [] {
      LookUpAbsent(types[..|types| - 1], name);
    }
  }

  /**
    A pair matches the plan's acts exactly when its roles give it participation,
    or creation on a type residents create.
   */
  lemma PlanMatchesRoles(types: seq<ProcessType>, name: string, event: string)
    requires DistinctNames(types)
    ensures Matches(PlanOf(types).acts, name, event) <==>
              TakingPart in RolesOf(types, name, event) ||
              (Creation in RolesOf(types, name, event) && LookUp(types, name).Some? && LookUp(types, name).value.residentCreated)
  {
    MatchesAppend(TypeActs(types), Pairs("*", HOST_PARTICIPATION), name, event);
    MatchesPairs("*", HOST_PARTICIPATION, name, event);
    TypeActsMatch(types, name, event);
    RolesIff(types, name, event);
  }

  lemma RolesIff(types: seq<ProcessType>, name: string, event: string)
    ensures var d, roles := DeclarationOf(types, name), RolesOf(types, name, event);
            (TakingPart in roles <==> event in HOST_PARTICIPATION || (d.Some? && event in ListOf(d.value))) &&
            (Creation in roles <==> d.Some? && event in d.value.creation) &&
            (Closing in roles <==> d.Some? && event in d.value.closing) &&
            (Outcome in roles <==> d.Some? && event in d.value.outcome)
  {
  }

  /** A comment or a submission for review is taking part whatever the type, and all there is of it on a type the hub does not list. */
  lemma HostCountsEverywhere(types: seq<ProcessType>, name: string, event: string)
    ensures var host := event == "civic.process.comment_added" || event == "civic.review.submitted" || event == "civic.review.revised";
            (host ==> TakingPart in RolesOf(types, name, event)) &&
            (LookUp(types, name).None? ==> (TakingPart in RolesOf(types, name, event) <==> host))
  {
    hide LookUp;
  }

  // ----- What a measure's provenance names is what it counts -----

  lemma NothingMatches(name: string, event: string)
    ensures !Matches([], name, event)
  {
  }

  lemma ActsAre(t: ProcessType)
    ensures ActsOf(t) == Pairs(t.name, ActEvents(t))
  {
  }

  lemma {:induction false} MeasureActsMatch(types: seq<ProcessType>, name: string, event: string)
    requires forall i :: 0 <= i < |types| ==> types[i].name != "*"
    ensures Matches(MeasureActs(types), name, event) <==>
              exists i :: 0 <= i < |types| && types[i].name == name && (event in ActEvents(types[i]) || event in HOST_PARTICIPATION)
  {
    hide Matches, Pairs, ActsOf, ActEvents;
    if types == [] {
      assert !Matches([], name, event) by {
        NothingMatches(name, event);
      }
    } else {
      hide HOST_PARTICIPATION;
      var n := |types| - 1;
      var t := types[n];
      var host := Pairs(t.name, HOST_PARTICIPATION);
      ActsAre(t);
      MeasureActsMatch(types[..n], name, event);
      MatchesAppend(MeasureActs(types[..n]), ActsOf(t) + host, name, event);
      MatchesAppend(ActsOf(t), host, name, event);
      MatchesPairs(t.name, ActEvents(t), name, event);
      MatchesPairs(t.name, HOST_PARTICIPATION, name, event);
      if i :| 0 <= i < |types| && types[i].name == name && (event in ActEvents(types[i]) || event in HOST_PARTICIPATION) && i < n {
        assert types[..n][i].name == name;
      }
      if i :| 0 <= i < n && types[..n][i].name == name && (event in ActEvents(types[..n][i]) || event in HOST_PARTICIPATION) {
        assert types[i].name == name;
      }
    }
  }

  lemma {:induction false} ResidentFeeders(types: seq<ProcessType>, id: string, t: ProcessType)
    ensures t in Residents(Feeders(types, id, TakingPart)) <==> t in types && Feeds(t, id, TakingPart) && CountsResidents(t)
  {
    FeedersIn(types, id, TakingPart, t);
    ResidentsIn(Feeders(types, id, TakingPart), t);
  }

  lemma {:induction false} FeedersIn(types: seq<ProcessType>, id: string, role: Role, t: ProcessType)
    ensures t in Feeders(types, id, role) <==> t in types && Feeds(t, id, role)
  {
    if types != [] {
      FeedersIn(types[..|types| - 1], id, role, t);
      assert types == types[..|types| - 1] + [types[|types| - 1]];
    }
  }

  lemma {:induction false} ResidentsIn(types: seq<ProcessType>, t: ProcessType)
    ensures t in Residents(types) <==> t in types && CountsResidents(t)
  {
    if types != [] {
      ResidentsIn(types[..|types| - 1], t);
      assert types == types[..|types| - 1] + [types[|types| - 1]];
    }
  }

  lemma {:induction false} MeasureEntry(types: seq<ProcessType>, ids: seq<string>, id: string)
    ensures var via := Residents(Feeders(types, id, TakingPart));
            var m := MeasurePairs(types, ids);
            (id in m <==> id in ids && via != []) && (id in m ==> m[id] == MeasureActs(via))
  {
    hide Residents, Feeders, MeasureActs;
    if ids != [] {
      MeasureEntry(types, ids[..|ids| - 1], id);
      assert ids == ids[..|ids| - 1] + [ids[|ids| - 1]];
    }
  }

  /** The events `provenance` prints for a type feeding a measure by its residents' participation. */
  function ProvenanceEvents(t: ProcessType): seq<string> {
    ActEvents(t) + HOST_PARTICIPATION
  }

  /**
    The provenance a funder measure carries names exactly the events its
    residents are counted by, type by type.
   */
  lemma ProvenanceNamesWhatIsCounted(types: seq<ProcessType>, id: string, t: ProcessType, event: string)
    requires DistinctNames(types) && id in MEASURES
    requires t in types && Feeds(t, id, TakingPart) && CountsResidents(t)
    ensures id in PlanOf(types).measures
    ensures Matches(PlanOf(types).measures[id], t.name, event) <==> event in ProvenanceEvents(t)
  {
    var via := Residents(Feeders(types, id, TakingPart));
    ResidentFeeders(types, id, t);
    MeasureEntry(types, MEASURES, id);
    forall i | 0 <= i < |via| ensures via[i] in types {
      ResidentFeeders(types, id, via[i]);
      assert via[i] in via;
    }
    MeasureActsMatch(via, t.name, event);
    if i :| 0 <= i < |via| && via[i].name == t.name {
      assert via[i] == t;
    }
  }

  // ----- The outcomes and the recorded totals a plan asks for -----

  lemma {:induction false} FeederSourcesIff(types: seq<ProcessType>, id: string, s: Source)
    ensures s in FeederSources(types, id) <==> exists i :: 0 <= i < |types| && s in SourcesOf(types[i], id)
  {
    hide SourcesOf;
    if types != [] {
      FeederSourcesIff(types[..|types| - 1], id, s);
      assert types == types[..|types| - 1] + [types[|types| - 1]];
    }
  }

  lemma {:induction false} SourcesIff(types: seq<ProcessType>, ids: seq<string>, s: Source)
    ensures s in Sources(types, ids) <==> exists i :: 0 <= i < |ids| && s in FeederSources(Feeders(types, ids[i], Outcome), ids[i])
  {
    hide FeederSources, Feeders;
    if ids != [] {
      SourcesIff(types, ids[..|ids| - 1], s);
      assert ids == ids[..|ids| - 1] + [ids[|ids| - 1]];
    }
  }

  /** A type's outcome event names a source of a measure through one of its payload's fields. */
  predicate NamesSource(t: ProcessType, s: Source) {
    && t.name == s.t && t.participation.Some?
    && var d := t.participation.value;
       s.id in d.measures && d.measures[s.id] == Outcome && d.sourceField == Some(s.f) && s.f != "" && s.e in d.outcome
  }

  lemma SourceOfType(t: ProcessType, id: string, s: Source)
    ensures Feeds(t, id, Outcome) && s in SourcesOf(t, id) <==> s.id == id && NamesSource(t, s)
  {
    if s.id == id && NamesSource(t, s) {
      var events := t.participation.value.outcome;
      var i :| 0 <= i < |events| && events[i] == s.e;
      assert SourcesOf(t, id)[i] == s;
    }
  }

  /** The plan asks for a source exactly when it is of a funder measure some type's outcome feeds, by that type's event and field. */
  lemma PlanSourcesIff(types: seq<ProcessType>, s: Source)
    ensures s in PlanOf(types).sources <==>
              s.id in ["met_in_public", "worked_with_neighbours", "contacted_an_official"] &&
              exists i :: 0 <= i < |types| && NamesSource(types[i], s)
  {
    hide Sources, FeederSources, Feeders, NamesSource, SourcesOf, Feeds;
    SourcesIff(types, MEASURES, s);
    forall k | 0 <= k < |MEASURES|
      ensures s in FeederSources(Feeders(types, MEASURES[k], Outcome), MEASURES[k]) <==>
              s.id == MEASURES[k] && exists i :: 0 <= i < |types| && NamesSource(types[i], s)
    {
      MeasureSourcesIff(types, MEASURES[k], s);
    }
  }

  lemma MeasureSourcesIff(types: seq<ProcessType>, id: string, s: Source)
    ensures s in FeederSources(Feeders(types, id, Outcome), id) <==>
            s.id == id && exists i :: 0 <= i < |types| && NamesSource(types[i], s)
  {
    hide FeederSources, Feeders, NamesSource, SourcesOf, Feeds;
    var via := Feeders(types, id, Outcome);
    FeederSourcesIff(via, id, s);
    if i :| 0 <= i < |via| && s in SourcesOf(via[i], id) {
      FeedersIn(types, id, Outcome, via[i]);
      SourceOfType(via[i], id, s);
      var k :| 0 <= k < |types| && types[k] == via[i];
      assert NamesSource(types[k], s);
    }
    if k :| 0 <= k < |types| && s.id == id && NamesSource(types[k], s) {
      SourceOfType(types[k], id, s);
      FeedersIn(types, id, Outcome, types[k]);
      var i :| 0 <= i < |via| && via[i] == types[k];
      assert s in SourcesOf(via[i], id);
    }
  }

  lemma {:induction false} TotalsIff(types: seq<ProcessType>, of: seq<string>, x: Total)
    ensures x in Totals(types, of) <==> exists i :: 0 <= i < |types| && x in TotalsOf(types[i], of)
  {
    hide TotalsOf;
    if types != [] {
      TotalsIff(types[..|types| - 1], of, x);
      assert types == types[..|types| - 1] + [types[|types| - 1]];
    }
  }

  lemma {:induction false} ElsewhereIff(types: seq<ProcessType>, name: string)
    ensures name in ElsewhereTypes(types) <==>
            exists i :: 0 <= i < |types| && types[i].name == name && types[i].participation.Some? &&
                        types[i].participation.value.participation.Elsewhere?
  {
    if types != [] {
      ElsewhereIff(types[..|types| - 1], name);
      assert types == types[..|types| - 1] + [types[|types| - 1]];
    }
  }

  /** A type's declaration records a total of others' participants: the event, its payload's field for the total, the one for the source. */
  predicate RecordsTotal(t: ProcessType, x: Total) {
    && t.name == x.t && t.participation.Some? && t.participation.value.sourceField == x.f
    && SourceTotal(x.e, x.n) in t.participation.value.sourceTotals
  }

  lemma TotalOfType(t: ProcessType, of: seq<string>, x: Total)
    ensures x in TotalsOf(t, of) <==> x.of == of && RecordsTotal(t, x)
  {
    if x.of == of && RecordsTotal(t, x) {
      var xs := t.participation.value.sourceTotals;
      var i :| 0 <= i < |xs| && xs[i] == SourceTotal(x.e, x.n);
      assert TotalsOf(t, of)[i] == x;
    }
  }

  /** The plan asks for exactly the totals the types record, each for the types whose participants act elsewhere. */
  lemma PlanTotalsIff(types: seq<ProcessType>, x: Total, name: string)
    ensures x in PlanOf(types).totals <==>
              x.of == ElsewhereTypes(types) && exists i :: 0 <= i < |types| && RecordsTotal(types[i], x)
    ensures name in ElsewhereTypes(types) <==>
            exists i :: 0 <= i < |types| && types[i].name == name && types[i].participation.Some? &&
                        types[i].participation.value.participation.Elsewhere?
  {
    hide Acts, MeasurePairs, Sources, TotalsOf, RecordsTotal;
    var of := ElsewhereTypes(types);
    ElsewhereIff(types, name);
    hide ElsewhereTypes;
    TotalsIff(types, of, x);
    forall i | 0 <= i < |types|
      ensures x in TotalsOf(types[i], of) <==> x.of == of && RecordsTotal(types[i], x)
    {
      TotalOfType(types[i], of, x);
    }
  }
}
