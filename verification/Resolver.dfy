/** `validate_canonical_response`: normalise, check references, resolve. An accepted output never fails a lookup,
  * and what it resolves to is what its references say. */
module Resolver {
  import opened Domain
  import opened JsonSchemas
  import opened Normalizer
  import opened References
  import opened Catalogs
  import opened WireOutput
  import CompactContract
  import WireRoundTrip

  /** A dictionary lookup that raises when the key is missing. */
  datatype Lookup<+T> = Found(value: T) | KeyError(key: string) {
    predicate IsFailure() { KeyError? }
    function PropagateFailure<U>(): Lookup<U> requires IsFailure() { KeyError(key) }
    function Extract(): T requires !IsFailure() { value }
  }

  datatype Evidence = Evidence(claim: string, kind: string, sourceType: string, sourceReference: string,
                               timeframe: Option<string>, observed: string)

  datatype Scenario = Scenario(name: string, description: string, probability: real, confirmation: seq<string>)

  datatype Regime = Regime(classification: string, strength: real, confidence: real, evidence: seq<Evidence>)
  datatype Higher = Higher(bias: string, description: string, evidence: seq<Evidence>)
  datatype Structure = Structure(shortTerm: string, mediumTerm: string, higherTimeframe: string, recentChange: string,
                                 evidence: seq<Evidence>)
  datatype Liquidity = Liquidity(summary: string, events: seq<string>, unresolved: seq<string>,
                                 evidence: seq<Evidence>)
  datatype SupplyDemand = SupplyDemand(summary: string, nearestSupply: Option<real>, nearestDemand: Option<real>,
                                       evidence: seq<Evidence>)
  datatype Momentum = Momentum(direction: string, strength: real, trend: string, evidence: seq<Evidence>)
  datatype Volatility = Volatility(state: string, trend: string, evidence: seq<Evidence>)

  datatype Analysis = Analysis(
    regime: Regime,
    higher: Higher,
    structure: Structure,
    liquidity: Liquidity,
    supplyDemand: SupplyDemand,
    momentum: Momentum,
    volatility: Volatility,
    bullish: seq<Evidence>,
    bearish: seq<Evidence>,
    contradictions: seq<Evidence>,
    keyRisks: seq<Evidence>,
    scenarios: seq<Scenario>,
    confidence: real,
    summary: string,
    invalidations: seq<string>,
    warnings: seq<string>)

  // ---- the dictionaries ----

  /** `{item.evidence_id: item for item in catalog}`: a later item wins. */
  function EvidenceById(catalog: seq<EvidenceItem>): map<string, EvidenceItem> {
    if catalog == [] then map[]
    else var last := catalog[|catalog| - 1]; EvidenceById(catalog[..|catalog| - 1])[last.evidenceId := last]
  }

  function ZoneById(catalog: seq<ZoneItem>): map<string, ZoneItem> {
    if catalog == [] then map[]
    else var last := catalog[|catalog| - 1]; ZoneById(catalog[..|catalog| - 1])[last.zoneId := last]
  }

  function EvidenceIds(catalog: seq<EvidenceItem>): set<string> {
    set item | item in catalog :: item.evidenceId
  }

  function ZoneIds(catalog: seq<ZoneItem>): set<string> {
    set item | item in catalog :: item.zoneId
  }

  lemma {:induction false} EvidenceByIdIsExact(catalog: seq<EvidenceItem>)
    ensures EvidenceById(catalog).Keys == EvidenceIds(catalog)
    ensures forall id | id in EvidenceById(catalog) ::
      EvidenceById(catalog)[id] in catalog && EvidenceById(catalog)[id].evidenceId == id
  {
    if catalog != [] {
      var n := |catalog| - 1;
      EvidenceByIdIsExact(catalog[..n]);
      assert catalog == catalog[..n] + [catalog[n]];
    }
  }

  lemma {:induction false} ZoneByIdIsExact(catalog: seq<ZoneItem>)
    ensures ZoneById(catalog).Keys == ZoneIds(catalog)
    ensures forall id | id in ZoneById(catalog) ::
      ZoneById(catalog)[id] in catalog && ZoneById(catalog)[id].zoneId == id
  {
    if catalog != [] {
      var n := |catalog| - 1;
      ZoneByIdIsExact(catalog[..n]);
      assert catalog == catalog[..n] + [catalog[n]];
    }
  }

  // ---- resolution ----

  function EvidenceOf(item: EvidenceItem): Evidence {
    Evidence(item.fact, item.kind, item.sourceType, item.sourceReference, item.timeframe, item.observed)
  }

  function EvidenceFor(byId: map<string, EvidenceItem>, refs: seq<string>): Lookup<seq<Evidence>> {
    if refs == [] then Found([])
    else if refs[0] !in byId then KeyError(refs[0])
    else
      var rest :- EvidenceFor(byId, refs[1..]);
      Found([EvidenceOf(byId[refs[0]])] + rest)
  }

  function MidpointFor(byId: map<string, ZoneItem>, reference: Option<string>): Lookup<Option<real>> {
    match reference
    case None => Found(None)
    case Some(id) => if id in byId then Found(Some(byId[id].midpoint)) else KeyError(id)
  }

  function ScenarioOf(s: CompactScenario): Scenario {
    Scenario(s.name, s.description, s.probability, s.refs)
  }

  /** `resolve_compact_output`. */
  function Resolve(w: Wire, catalog: seq<EvidenceItem>, supply: seq<ZoneItem>, demand: seq<ZoneItem>)
    : Lookup<Analysis>
  {
    var byId, supplyById, demandById := EvidenceById(catalog), ZoneById(supply), ZoneById(demand);
    var regime :- EvidenceFor(byId, w.regime.refs);
    var higher :- EvidenceFor(byId, w.higher.refs);
    var structure :- EvidenceFor(byId, w.structure.refs);
    var liquidity :- EvidenceFor(byId, w.liquidity.refs);
    var nearestSupply :- MidpointFor(supplyById, w.zones.supplyRef);
    var nearestDemand :- MidpointFor(demandById, w.zones.demandRef);
    var zones :- EvidenceFor(byId, w.zones.refs);
    var momentum :- EvidenceFor(byId, w.momentum.refs);
    var volatility :- EvidenceFor(byId, w.volatility.refs);
    var bullish :- EvidenceFor(byId, w.bullish);
    var bearish :- EvidenceFor(byId, w.bearish);
    var contradictions :- EvidenceFor(byId, w.contradictions);
    var keyRisks :- EvidenceFor(byId, w.keyRisks);
    Found(Analysis(
      Regime(w.regime.classification, w.regime.strength, w.regime.confidence, regime),
      Higher(w.higher.bias, w.higher.summary, higher),
      Structure(w.structure.shortTerm, w.structure.mediumTerm, w.higher.summary, w.structure.recentChange, structure),
      Liquidity(w.liquidity.summary, w.liquidity.events, w.liquidity.unresolved, liquidity),
      SupplyDemand(w.zones.summary, nearestSupply, nearestDemand, zones),
      Momentum(w.momentum.direction, w.momentum.strength, w.momentum.trend, momentum),
      Volatility(w.volatility.state, w.volatility.trend, volatility),
      bullish, bearish, contradictions, keyRisks,
      seq(|w.scenarios|, i requires 0 <= i < |w.scenarios| => ScenarioOf(w.scenarios[i])),
      w.confidence, w.summary, w.invalidations, w.warnings))
  }

  // ---- what a faithful resolution is ----

  /** The evidence says what the catalog entry says. */
  predicate Restates(e: Evidence, item: EvidenceItem) {
    && e.claim == item.fact && e.kind == item.kind && e.sourceType == item.sourceType
    && e.sourceReference == item.sourceReference && e.timeframe == item.timeframe && e.observed == item.observed
  }

  /** Position by position, the evidence of a list is the catalog item that the reference names. */
  ghost predicate Matches(refs: seq<string>, evidence: seq<Evidence>, catalog: seq<EvidenceItem>) {
    && |evidence| == |refs|
    && forall k | 0 <= k < |refs| ::
         exists item | item in catalog :: item.evidenceId == refs[k] && Restates(evidence[k], item)
  }

  ghost predicate NearestIs(reference: Option<string>, nearest: Option<real>, catalog: seq<ZoneItem>) {
    match reference
    case None => nearest.None?
    case Some(id) => exists item | item in catalog :: item.zoneId == id && nearest == Some(item.midpoint)
  }

  ghost predicate Faithful(w: Wire, a: Analysis, catalog: seq<EvidenceItem>, supply: seq<ZoneItem>,
                           demand: seq<ZoneItem>) {
    && Matches(w.regime.refs, a.regime.evidence, catalog) && Matches(w.higher.refs, a.higher.evidence, catalog)
    && Matches(w.structure.refs, a.structure.evidence, catalog)
    && Matches(w.liquidity.refs, a.liquidity.evidence, catalog)
    && Matches(w.zones.refs, a.supplyDemand.evidence, catalog)
    && Matches(w.momentum.refs, a.momentum.evidence, catalog)
    && Matches(w.volatility.refs, a.volatility.evidence, catalog)
    && Matches(w.bullish, a.bullish, catalog) && Matches(w.bearish, a.bearish, catalog)
    && Matches(w.contradictions, a.contradictions, catalog) && Matches(w.keyRisks, a.keyRisks, catalog)
    && NearestIs(w.zones.supplyRef, a.supplyDemand.nearestSupply, supply)
    && NearestIs(w.zones.demandRef, a.supplyDemand.nearestDemand, demand)
    && ProseKept(w, a)
  }

  /** What the provider wrote, rated or classified is taken over as it is; a scenario keeps its reference ids. */
  ghost predicate ProseKept(w: Wire, a: Analysis) {
    && a.regime.classification == w.regime.classification && a.regime.strength == w.regime.strength
    && a.regime.confidence == w.regime.confidence
    && a.higher.bias == w.higher.bias && a.higher.description == a.structure.higherTimeframe == w.higher.summary
    && a.structure.shortTerm == w.structure.shortTerm && a.structure.mediumTerm == w.structure.mediumTerm
    && a.structure.recentChange == w.structure.recentChange
    && a.liquidity.summary == w.liquidity.summary && a.liquidity.events == w.liquidity.events
    && a.liquidity.unresolved == w.liquidity.unresolved && a.supplyDemand.summary == w.zones.summary
    && a.momentum.direction == w.momentum.direction && a.momentum.strength == w.momentum.strength
    && a.momentum.trend == w.momentum.trend
    && a.volatility.state == w.volatility.state && a.volatility.trend == w.volatility.trend
    && a.confidence == w.confidence && a.summary == w.summary
    && a.invalidations == w.invalidations && a.warnings == w.warnings
    && |a.scenarios| == |w.scenarios|
    && forall i | 0 <= i < |w.scenarios| ::
         && a.scenarios[i].name == w.scenarios[i].name && a.scenarios[i].description == w.scenarios[i].description
         && a.scenarios[i].probability == w.scenarios[i].probability
         && a.scenarios[i].confirmation == w.scenarios[i].refs
  }

  lemma MatchesCons(first: string, rest: seq<string>, item: EvidenceItem, found: seq<Evidence>,
                    catalog: seq<EvidenceItem>)
    requires item in catalog && item.evidenceId == first && Matches(rest, found, catalog)
    ensures Matches([first] + rest, [EvidenceOf(item)] + found, catalog)
  {}

  lemma {:induction false} EvidenceForIsExact(catalog: seq<EvidenceItem>, refs: seq<string>)
    ensures var found := EvidenceFor(EvidenceById(catalog), refs);
      && (found.Found? <==> forall r | r in refs :: r in EvidenceIds(catalog))
      && (found.Found? ==> Matches(refs, found.value, catalog))
  {
    EvidenceByIdIsExact(catalog);
    if refs != [] {
      var byId, rest := EvidenceById(catalog), refs[1..];
      assert refs == [refs[0]] + rest;
      EvidenceForIsExact(catalog, rest);
      if EvidenceFor(byId, refs).Found? {
        MatchesCons(refs[0], rest, byId[refs[0]], EvidenceFor(byId, rest).value, catalog);
      }
    }
  }

  lemma MidpointForIsExact(catalog: seq<ZoneItem>, reference: Option<string>)
    ensures var found := MidpointFor(ZoneById(catalog), reference);
      && (found.Found? <==> (reference.Some? ==> reference.value in ZoneIds(catalog)))
      && (found.Found? ==> NearestIs(reference, found.value, catalog))
  {}

  ghost predicate KnownRefs(refs: seq<string>, catalog: seq<EvidenceItem>) {
    forall r | r in refs :: r in EvidenceIds(catalog)
  }

  ghost predicate AllKnown(w: Wire, catalog: seq<EvidenceItem>, supply: seq<ZoneItem>, demand: seq<ZoneItem>) {
    && KnownRefs(w.regime.refs, catalog) && KnownRefs(w.higher.refs, catalog) && KnownRefs(w.structure.refs, catalog)
    && KnownRefs(w.liquidity.refs, catalog) && KnownRefs(w.zones.refs, catalog)
    && KnownRefs(w.momentum.refs, catalog) && KnownRefs(w.volatility.refs, catalog)
    && KnownRefs(w.bullish, catalog) && KnownRefs(w.bearish, catalog)
    && KnownRefs(w.contradictions, catalog) && KnownRefs(w.keyRisks, catalog)
    && (w.zones.supplyRef.Some? ==> w.zones.supplyRef.value in ZoneIds(supply))
    && (w.zones.demandRef.Some? ==> w.zones.demandRef.value in ZoneIds(demand))
  }

  /** The resolver finds everything exactly when each of its lookups does, and puts each result in its place. */
  lemma ResolveParts(w: Wire, catalog: seq<EvidenceItem>, supply: seq<ZoneItem>, demand: seq<ZoneItem>)
    ensures var byId := EvidenceById(catalog); var resolved := Resolve(w, catalog, supply, demand);
      && (resolved.Found? <==>
            && EvidenceFor(byId, w.regime.refs).Found?
            && EvidenceFor(byId, w.higher.refs).Found?
            && EvidenceFor(byId, w.structure.refs).Found?
            && EvidenceFor(byId, w.liquidity.refs).Found?
            && EvidenceFor(byId, w.zones.refs).Found?
            && EvidenceFor(byId, w.momentum.refs).Found?
            && EvidenceFor(byId, w.volatility.refs).Found?
            && EvidenceFor(byId, w.bullish).Found?
            && EvidenceFor(byId, w.bearish).Found?
            && EvidenceFor(byId, w.contradictions).Found?
            && EvidenceFor(byId, w.keyRisks).Found?
            && MidpointFor(ZoneById(supply), w.zones.supplyRef).Found?
            && MidpointFor(ZoneById(demand), w.zones.demandRef).Found?)
      && (resolved.Found? ==>
            var a := resolved.value;
            && EvidenceFor(byId, w.regime.refs) == Found(a.regime.evidence)
            && EvidenceFor(byId, w.higher.refs) == Found(a.higher.evidence)
            && EvidenceFor(byId, w.structure.refs) == Found(a.structure.evidence)
            && EvidenceFor(byId, w.liquidity.refs) == Found(a.liquidity.evidence)
            && EvidenceFor(byId, w.zones.refs) == Found(a.supplyDemand.evidence)
            && EvidenceFor(byId, w.momentum.refs) == Found(a.momentum.evidence)
            && EvidenceFor(byId, w.volatility.refs) == Found(a.volatility.evidence)
            && EvidenceFor(byId, w.bullish) == Found(a.bullish)
            && EvidenceFor(byId, w.bearish) == Found(a.bearish)
            && EvidenceFor(byId, w.contradictions) == Found(a.contradictions)
            && EvidenceFor(byId, w.keyRisks) == Found(a.keyRisks)
            && MidpointFor(ZoneById(supply), w.zones.supplyRef) == Found(a.supplyDemand.nearestSupply)
            && MidpointFor(ZoneById(demand), w.zones.demandRef) == Found(a.supplyDemand.nearestDemand)
            && ProseKept(w, a))
  {}

  ghost predicate LookupExact(refs: seq<string>, catalog: seq<EvidenceItem>) {
    var found := EvidenceFor(EvidenceById(catalog), refs);
    (found.Found? <==> KnownRefs(refs, catalog)) && (found.Found? ==> Matches(refs, found.value, catalog))
  }

  lemma LookupsAreExact(w: Wire, catalog: seq<EvidenceItem>)
    ensures LookupExact(w.regime.refs, catalog)
    ensures LookupExact(w.higher.refs, catalog)
    ensures LookupExact(w.structure.refs, catalog)
    ensures LookupExact(w.liquidity.refs, catalog)
    ensures LookupExact(w.zones.refs, catalog)
    ensures LookupExact(w.momentum.refs, catalog)
    ensures LookupExact(w.volatility.refs, catalog)
    ensures LookupExact(w.bullish, catalog)
    ensures LookupExact(w.bearish, catalog)
    ensures LookupExact(w.contradictions, catalog)
    ensures LookupExact(w.keyRisks, catalog)
  {
    EvidenceForIsExact(catalog, w.regime.refs);
    EvidenceForIsExact(catalog, w.higher.refs);
    EvidenceForIsExact(catalog, w.structure.refs);
    EvidenceForIsExact(catalog, w.liquidity.refs);
    EvidenceForIsExact(catalog, w.zones.refs);
    EvidenceForIsExact(catalog, w.momentum.refs);
    EvidenceForIsExact(catalog, w.volatility.refs);
    EvidenceForIsExact(catalog, w.bullish);
    EvidenceForIsExact(catalog, w.bearish);
    EvidenceForIsExact(catalog, w.contradictions);
    EvidenceForIsExact(catalog, w.keyRisks);
  }

  /** The resolver succeeds exactly when every reference it looks up is in its catalog, and then it is faithful. */
  lemma ResolverIsTotalOnKnown(w: Wire, catalog: seq<EvidenceItem>, supply: seq<ZoneItem>, demand: seq<ZoneItem>)
    ensures var resolved := Resolve(w, catalog, supply, demand);
      && (resolved.Found? <==> AllKnown(w, catalog, supply, demand))
      && (resolved.Found? ==> Faithful(w, resolved.value, catalog, supply, demand))
  {
    ResolveParts(w, catalog, supply, demand);
    LookupsAreExact(w, catalog);
    MidpointForIsExact(supply, w.zones.supplyRef);
    MidpointForIsExact(demand, w.zones.demandRef);
  }

  // ---- validation ----

  datatype Failure = SchemaError | BadReference(fault: RefFault) | BadZone(code: string) | LookupFailed(key: string)

  /** `normalized` is the dump of the parsed output: it is what the artifact stores. */
  datatype Validation = Validation(normalized: Json, wire: Wire, resolved: Analysis, changes: seq<Change>)

  function ZoneFaults(w: Wire, supply: seq<ZoneItem>, demand: seq<ZoneItem>): Option<string> {
    var first := ZoneFault("unknown_supply_zone_ref", w.zones.supplyRef, ZoneIds(supply));
    if first.Some? then first else ZoneFault("unknown_demand_zone_ref", w.zones.demandRef, ZoneIds(demand))
  }

  /** What the wire checks and the resolver do with a parsed output. */
  ghost function CheckAndResolve(w: Wire, catalog: seq<EvidenceItem>, supply: seq<ZoneItem>, demand: seq<ZoneItem>)
    : Result<Analysis, Failure>
  {
    WalkSeesTheModel(w, EvidenceIds(catalog));
    var fault := FirstFault(Dump(w), EvidenceIds(catalog), []);
    if fault.Some? then Err(BadReference(fault.value))
    else
      var zoneFault := ZoneFaults(w, supply, demand);
      if zoneFault.Some? then Err(BadZone(zoneFault.value))
      else
        match Resolve(w, catalog, supply, demand)
        case KeyError(key) => Err(LookupFailed(key))
        case Found(a) => Ok(a)
  }

  /** `model_validate` is a parameter: which JSON values it takes, and to what model. */
  method ValidateCanonicalResponse(raw: Json, parse: Json -> Option<Wire>, catalog: seq<EvidenceItem>,
                                   supply: seq<ZoneItem>, demand: seq<ZoneItem>)
    returns (r: Result<Validation, Failure>)
    ensures r == Validated(raw, parse, catalog, supply, demand)
  {
    var normalized, changes := CompactContract.NormalizeCompactOutputShapes(raw);
    var parsed := parse(normalized);
    if parsed.None? {
      return Err(SchemaError);
    }
    var wire := parsed.value;
    WalkSeesTheModel(wire, EvidenceIds(catalog));
    var fault := Walk(Dump(wire), EvidenceIds(catalog), []);
    if fault.Some? {
      return Err(BadReference(fault.value));
    }
    var zoneFault := ZoneFaults(wire, supply, demand);
    if zoneFault.Some? {
      return Err(BadZone(zoneFault.value));
    }
    var resolved := Resolve(wire, catalog, supply, demand);
    if resolved.KeyError? {
      return Err(LookupFailed(resolved.key));
    }
    return Ok(Validation(Dump(wire), wire, resolved.value, changes));
  }

  ghost function Validated(raw: Json, parse: Json -> Option<Wire>, catalog: seq<EvidenceItem>,
                           supply: seq<ZoneItem>, demand: seq<ZoneItem>): Result<Validation, Failure>
  {
    var first := CompactContract.Normalized(raw);
    match parse(first.value)
    case None => Err(SchemaError)
    case Some(w) =>
      match CheckAndResolve(w, catalog, supply, demand)
      case Err(failure) => Err(failure)
      case Ok(a) => Ok(Validation(Dump(w), w, a, first.changes))
  }

  // ---- main results ----

  lemma AcceptedRefsAreKnown(w: Wire, catalog: seq<EvidenceItem>)
    requires WireRefsGood(w, EvidenceIds(catalog))
    ensures KnownRefs(w.regime.refs, catalog) && KnownRefs(w.higher.refs, catalog)
    ensures KnownRefs(w.structure.refs, catalog) && KnownRefs(w.liquidity.refs, catalog)
    ensures KnownRefs(w.zones.refs, catalog) && KnownRefs(w.momentum.refs, catalog)
    ensures KnownRefs(w.volatility.refs, catalog) && KnownRefs(w.bullish, catalog) && KnownRefs(w.bearish, catalog)
    ensures KnownRefs(w.contradictions, catalog) && KnownRefs(w.keyRisks, catalog)
  {}

  /** No parsed output ever fails a lookup. It is accepted exactly when its reference lists are duplicate-free and
    * known and a zone is named exactly on the sides that have one; what it then resolves to is faithful. */
  lemma AcceptedOutputResolves(w: Wire, catalog: seq<EvidenceItem>, supply: seq<ZoneItem>, demand: seq<ZoneItem>)
    ensures var r := CheckAndResolve(w, catalog, supply, demand);
      && (r.Err? ==> !r.error.LookupFailed?)
      && (r.Ok? <==>
            && WireRefsGood(w, EvidenceIds(catalog))
            && (w.zones.supplyRef.None? <==> supply == []) && (w.zones.demandRef.None? <==> demand == [])
            && (w.zones.supplyRef.Some? ==> w.zones.supplyRef.value in ZoneIds(supply))
            && (w.zones.demandRef.Some? ==> w.zones.demandRef.value in ZoneIds(demand)))
      && (r.Ok? ==> Faithful(w, r.value, catalog, supply, demand))
  {
    WalkSeesTheModel(w, EvidenceIds(catalog));
    ResolverIsTotalOnKnown(w, catalog, supply, demand);
    EmptyCatalogHasNoIds(supply);
    EmptyCatalogHasNoIds(demand);
    if WireRefsGood(w, EvidenceIds(catalog)) { AcceptedRefsAreKnown(w, catalog); }
  }

  lemma EmptyCatalogHasNoIds(catalog: seq<ZoneItem>)
    ensures ZoneIds(catalog) == {} <==> catalog == []
  {
    if catalog != [] { assert catalog[0].zoneId in ZoneIds(catalog); }
  }

  /** The references are distinct, and each position holds the content of the only catalog entry it can name. */
  ghost predicate Exact(refs: seq<string>, evidence: seq<Evidence>, catalog: seq<EvidenceItem>) {
    && |evidence| == |refs|
    && (forall j, k | 0 <= j < k < |refs| :: refs[j] != refs[k])
    && (forall k | 0 <= k < |refs| :: refs[k] in EvidenceIds(catalog))
    && (forall k, i | 0 <= k < |refs| && 0 <= i < |catalog| && catalog[i].evidenceId == refs[k] ::
          Restates(evidence[k], catalog[i]))
  }

  lemma MatchesAreExact(refs: seq<string>, evidence: seq<Evidence>, catalog: seq<EvidenceItem>)
    requires DistinctIds(catalog) && GoodRefs(refs, EvidenceIds(catalog)) && Matches(refs, evidence, catalog)
    ensures Exact(refs, evidence, catalog)
  {}

  /** A nearest price is given exactly when the side has a zone, and it is the middle of the zone that was named. */
  ghost predicate NearestExact(reference: Option<string>, nearest: Option<real>, zones: seq<ZoneItem>) {
    && (nearest.Some? <==> zones != []) && (reference.Some? <==> zones != [])
    && (reference.Some? ==> reference.value in ZoneIds(zones))
    && forall i | 0 <= i < |zones| && reference == Some(zones[i].zoneId) ::
         nearest == Some((zones[i].low + zones[i].high) / 2.0)
  }

  lemma NamedZoneIsExact(reference: Option<string>, nearest: Option<real>, mappings: seq<ZoneMapping>, price: real,
                         side: Side)
    requires price > 0.0 && NearestIs(reference, nearest, ZonesOf(mappings, price, side))
    requires reference.None? <==> ZonesOf(mappings, price, side) == []
    ensures NearestExact(reference, nearest, ZonesOf(mappings, price, side))
  {
    var zones := ZonesOf(mappings, price, side);
    DistinctPrefixIds(Nearest(mappings, price, side), side, price);
    forall i | 0 <= i < |zones| && reference == Some(zones[i].zoneId)
      ensures nearest == Some((zones[i].low + zones[i].high) / 2.0)
    {
      SameIdSameZone(zones, i, reference, nearest);
    }
  }

  lemma SameIdSameZone(zones: seq<ZoneItem>, i: nat, reference: Option<string>, nearest: Option<real>)
    requires DistinctZoneIds(zones) && i < |zones| && reference == Some(zones[i].zoneId)
    requires NearestIs(reference, nearest, zones)
    ensures nearest == Some(zones[i].midpoint)
  {}

  ghost predicate EveryListExact(w: Wire, a: Analysis, catalog: seq<EvidenceItem>) {
    && Exact(w.regime.refs, a.regime.evidence, catalog)
    && Exact(w.higher.refs, a.higher.evidence, catalog)
    && Exact(w.structure.refs, a.structure.evidence, catalog)
    && Exact(w.liquidity.refs, a.liquidity.evidence, catalog)
    && Exact(w.zones.refs, a.supplyDemand.evidence, catalog)
    && Exact(w.momentum.refs, a.momentum.evidence, catalog)
    && Exact(w.volatility.refs, a.volatility.evidence, catalog)
    && Exact(w.bullish, a.bullish, catalog)
    && Exact(w.bearish, a.bearish, catalog)
    && Exact(w.contradictions, a.contradictions, catalog)
    && Exact(w.keyRisks, a.keyRisks, catalog)
  }

  lemma FaithfulListsAreExact(w: Wire, a: Analysis, catalog: seq<EvidenceItem>, supply: seq<ZoneItem>,
                              demand: seq<ZoneItem>)
    requires DistinctIds(catalog) && WireRefsGood(w, EvidenceIds(catalog)) && Faithful(w, a, catalog, supply, demand)
    ensures EveryListExact(w, a, catalog)
  {
    MatchesAreExact(w.regime.refs, a.regime.evidence, catalog);
    MatchesAreExact(w.higher.refs, a.higher.evidence, catalog);
    MatchesAreExact(w.structure.refs, a.structure.evidence, catalog);
    MatchesAreExact(w.liquidity.refs, a.liquidity.evidence, catalog);
    MatchesAreExact(w.zones.refs, a.supplyDemand.evidence, catalog);
    MatchesAreExact(w.momentum.refs, a.momentum.evidence, catalog);
    MatchesAreExact(w.volatility.refs, a.volatility.evidence, catalog);
    MatchesAreExact(w.bullish, a.bullish, catalog);
    MatchesAreExact(w.bearish, a.bearish, catalog);
    MatchesAreExact(w.contradictions, a.contradictions, catalog);
    MatchesAreExact(w.keyRisks, a.keyRisks, catalog);
  }

  /** Against the catalogs of any request, an accepted output resolves position by position to the one entry that
    * each reference names, without duplicates, and a side has a nearest price exactly when it has a zone. */
  lemma BuiltCatalogsResolveExactly(w: Wire, sources: seq<Source>, quant: string, completeness: string,
                                    mappings: seq<ZoneMapping>, price: real)
    requires price > 0.0
    ensures var catalog := Numbered(Chosen(sources, quant, completeness));
      var supply, demand := ZonesOf(mappings, price, Supply), ZonesOf(mappings, price, Demand);
      var r := CheckAndResolve(w, catalog, supply, demand);
      && (r.Err? ==> !r.error.LookupFailed?)
      && (r.Ok? ==>
            && EveryListExact(w, r.value, catalog)
            && NearestExact(w.zones.supplyRef, r.value.supplyDemand.nearestSupply, supply)
            && NearestExact(w.zones.demandRef, r.value.supplyDemand.nearestDemand, demand))
  {
    var catalog := Numbered(Chosen(sources, quant, completeness));
    var supply, demand := ZonesOf(mappings, price, Supply), ZonesOf(mappings, price, Demand);
    EvidenceCatalogShape(sources, quant, completeness);
    AcceptedOutputResolves(w, catalog, supply, demand);
    var r := CheckAndResolve(w, catalog, supply, demand);
    if r.Ok? {
      FaithfulListsAreExact(w, r.value, catalog, supply, demand);
      NamedZoneIsExact(w.zones.supplyRef, r.value.supplyDemand.nearestSupply, mappings, price, Supply);
      NamedZoneIsExact(w.zones.demandRef, r.value.supplyDemand.nearestDemand, mappings, price, Demand);
    }
  }

  // ---- recovery from the stored artifact ----

  /** What recovery validates: the stored normalised output, or the provider's output while there is none. */
  function Recoverable(raw: Json, stored: Option<Json>): Json {
    stored.GetOr(raw)
  }

  /** Validating the stored output of an accepted response again gives the same dump, model and analysis, with an empty
    * change list, if and only if the parser reads the dump of this model back as the model. */
  lemma RecoveryIsStable(raw: Json, parse: Json -> Option<Wire>, catalog: seq<EvidenceItem>, supply: seq<ZoneItem>,
                         demand: seq<ZoneItem>)
    requires var first := Validated(raw, parse, catalog, supply, demand);
      first.Ok? && WireRoundTrip.KnownLabels(first.value.wire)
    ensures var first := Validated(raw, parse, catalog, supply, demand);
      var stored := first.value.normalized;
      Validated(Recoverable(raw, Some(stored)), parse, catalog, supply, demand) == Ok(first.value.(changes := []))
      <==> parse(stored) == Some(first.value.wire)
  {
    WireRoundTrip.DumpIsAFixedPoint(Validated(raw, parse, catalog, supply, demand).value.wire);
  }

  /** A parser that produces the enums' labels only and reads every dump back. */
  ghost predicate FaithfulParser(parse: Json -> Option<Wire>) {
    forall v, w | parse(v) == Some(w) :: WireRoundTrip.KnownLabels(w) && parse(Dump(w)) == Some(w)
  }

  /** The validation after a number of recoveries, each from what its predecessor stored. */
  ghost function Recovered(validate: Json -> Result<Validation, Failure>, raw: Json, times: nat)
    : Result<Validation, Failure>
  {
    if times == 0 then validate(Recoverable(raw, None))
    else
      match Recovered(validate, raw, times - 1)
      case Err(failure) => Err(failure)
      case Ok(last) => validate(Recoverable(raw, Some(last.normalized)))
  }

  lemma {:induction false} RecoveredBy(validate: Json -> Result<Validation, Failure>, raw: Json, first: Validation,
                                       times: nat)
    requires validate(raw) == Ok(first) && validate(first.normalized) == Ok(first.(changes := []))
    ensures Recovered(validate, raw, times) == Ok(if times == 0 then first else first.(changes := []))
  {
    if times > 0 { RecoveredBy(validate, raw, first, times - 1); }
  }

  /** Recovery never changes an analysis, however often it is stored and validated again. */
  lemma {:induction false} RecoveryNeverChangesAnAnalysis(raw: Json, parse: Json -> Option<Wire>,
                                                          catalog: seq<EvidenceItem>, supply: seq<ZoneItem>,
                                                          demand: seq<ZoneItem>, times: nat)
    requires FaithfulParser(parse) && Validated(raw, parse, catalog, supply, demand).Ok?
    ensures var first := Validated(raw, parse, catalog, supply, demand).value;
      Recovered(json => Validated(json, parse, catalog, supply, demand), raw, times)
      == Ok(if times == 0 then first else first.(changes := []))
  {
    RecoveryIsStable(raw, parse, catalog, supply, demand);
    RecoveredBy(json => Validated(json, parse, catalog, supply, demand), raw,
                Validated(raw, parse, catalog, supply, demand).value, times);
  }
}
