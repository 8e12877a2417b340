/** The evidence and zone catalogs that a provider's references are checked against. */
module Catalogs {
  import opened Domain
  import opened Reals

  // ---- identifiers ----

  const DIGITS := "0123456789"

  function Decimal(n: nat): string {
    if n < 10 then [DIGITS[n]] else Decimal(n / 10) + [DIGITS[n % 10]]
  }

  lemma DigitsDiffer(m: nat, n: nat)
    requires m < 10 && n < 10 && DIGITS[m] == DIGITS[n]
    ensures m == n
  {}

  lemma {:induction false} DecimalIsInjective(m: nat, n: nat)
    requires Decimal(m) == Decimal(n)
    ensures m == n
  {
    var s, t := Decimal(m), Decimal(n);
    assert m >= 10 ==> |Decimal(m / 10)| > 0;
    assert n >= 10 ==> |Decimal(n / 10)| > 0;
    assert s[|s| - 1] == DIGITS[m % 10] && t[|t| - 1] == DIGITS[n % 10];
    DigitsDiffer(m % 10, n % 10);
    if m >= 10 && n >= 10 {
      assert s[..|s| - 1] == Decimal(m / 10) && t[..|t| - 1] == Decimal(n / 10);
      DecimalIsInjective(m / 10, n / 10);
    } else {
      assert |s| == 1 || |t| == 1;
    }
  }

  function Identifier(prefix: string, n: nat): string {
    prefix + Decimal(n)
  }

  lemma IdentifiersDiffer(prefix: string, m: nat, n: nat)
    requires m != n
    ensures Identifier(prefix, m) != Identifier(prefix, n)
  {
    if Identifier(prefix, m) == Identifier(prefix, n) {
      assert Identifier(prefix, m)[|prefix|..] == Decimal(m) && Identifier(prefix, n)[|prefix|..] == Decimal(n);
      DecimalIsInjective(m, n);
    }
  }

  function Take<T>(s: seq<T>, n: nat): seq<T> {
    if |s| <= n then s else s[..n]
  }

  // ---- evidence catalog ----

  /** One element of an evidence source; `facts` are the compact facts found in its raw payload. */
  datatype SourceEntry =
    | NotAMapping
    | Mapping(facts: seq<string>, reasons: seq<string>, evidenceId: Option<string>, availability: string,
              timeframe: Option<string>)

  datatype Source = Source(sourceType: string, entries: seq<SourceEntry>)

  datatype Draft = Draft(fact: string, kind: string, sourceType: string, sourceReference: string,
                         timeframe: Option<string>, observed: string)

  datatype EvidenceItem = EvidenceItem(evidenceId: string, fact: string, kind: string, sourceType: string,
                                       sourceReference: string, timeframe: Option<string>, observed: string)

  function LeadingFact(sourceType: string, entry: SourceEntry): string
    requires entry.Mapping?
  {
    if entry.facts != [] then entry.facts[0]
    else if entry.reasons != [] then entry.reasons[0]
    else sourceType + " evidence available"
  }

  function DraftOf(sourceType: string, index: nat, entry: SourceEntry): Draft
    requires entry.Mapping?
  {
    var fact := LeadingFact(sourceType, entry);
    Draft(Take(fact, 140),
          if entry.availability in {"unavailable", "degraded", "stale"} then "uncertainty" else "calculated_feature",
          sourceType,
          Take(entry.evidenceId.GetOr(sourceType + ":" + Decimal(index)), 128),
          match entry.timeframe { case Some(t) => Some(Take(t, 8)) case None => None },
          Take(fact, 96))
  }

  function DeterministicDraft(sourceType: string, name: string, shown: string): Draft {
    Draft(name + "=" + shown, "calculated_feature", sourceType, sourceType, None, shown)
  }

  function ItemOf(number: nat, d: Draft): EvidenceItem {
    EvidenceItem(Identifier("E", number), d.fact, d.kind, d.sourceType, d.sourceReference, d.timeframe, d.observed)
  }

  /** The length limits of the item's `fact` field; a draft outside them raises. */
  predicate FactOk(d: Draft) {
    1 <= |d.fact| <= 140
  }

  // What the catalog is, independently of the loop that builds it.

  function DraftsOf(source: Source, n: nat): seq<Draft>
    requires n <= |source.entries|
  {
    if n == 0 then []
    else
      DraftsOf(source, n - 1)
      + (if source.entries[n - 1].Mapping? then [DraftOf(source.sourceType, n - 1, source.entries[n - 1])] else [])
  }

  function Collected(sources: seq<Source>, n: nat): seq<Draft>
    requires n <= |sources|
  {
    if n == 0 then [] else Collected(sources, n - 1) + DraftsOf(sources[n - 1], |sources[n - 1].entries|)
  }

  function Deterministic(quant: string, completeness: string): seq<Draft> {
    [DeterministicDraft("quant", "quant_direction", quant),
     DeterministicDraft("data_quality", "evidence_completeness", completeness)]
  }

  /** The first eighteen source items, or all of them and the two deterministic ones. */
  function Chosen(sources: seq<Source>, quant: string, completeness: string): seq<Draft> {
    var all := Collected(sources, |sources|);
    if |all| >= 18 then all[..18] else all + Deterministic(quant, completeness)
  }

  function Numbered(drafts: seq<Draft>): seq<EvidenceItem> {
    seq(|drafts|, i requires 0 <= i < |drafts| => ItemOf(i + 1, drafts[i]))
  }

  lemma NumberedSnoc(drafts: seq<Draft>, d: Draft)
    ensures Numbered(drafts + [d]) == Numbered(drafts) + [ItemOf(|drafts| + 1, d)]
  {}

  lemma {:induction false} DraftsArePrefix(source: Source, n: nat, m: nat)
    requires n <= m <= |source.entries|
    ensures DraftsOf(source, n) <= DraftsOf(source, m)
    decreases m - n
  {
    if n < m { DraftsArePrefix(source, n, m - 1); }
  }

  lemma {:induction false} CollectedArePrefix(sources: seq<Source>, n: nat, m: nat)
    requires n <= m <= |sources|
    ensures Collected(sources, n) <= Collected(sources, m)
    decreases m - n
  {
    if n < m { CollectedArePrefix(sources, n, m - 1); }
  }

  lemma SoFarIsPrefix(sources: seq<Source>, s: nat, i: nat)
    requires s < |sources| && i <= |sources[s].entries|
    ensures Collected(sources, s) + DraftsOf(sources[s], i) <= Collected(sources, |sources|)
  {
    DraftsArePrefix(sources[s], i, |sources[s].entries|);
    CollectedArePrefix(sources, s + 1, |sources|);
    var part, whole := DraftsOf(sources[s], i), DraftsOf(sources[s], |sources[s].entries|);
    assert Collected(sources, s) + part <= Collected(sources, s) + whole;
  }

  lemma ShortPrefixIsChosen(part: seq<Draft>, sources: seq<Source>, quant: string, completeness: string)
    requires part <= Collected(sources, |sources|) && |part| <= 18
    ensures part <= Chosen(sources, quant, completeness)
    ensures |part| == 18 ==> part == Chosen(sources, quant, completeness)
  {}

  /** The loop's state: a numbered catalog of accepted drafts, still below the cap. */
  ghost predicate Building(catalog: seq<EvidenceItem>, done: seq<Draft>) {
    catalog == Numbered(done) && |done| < 18 && forall d | d in done :: FactOk(d)
  }

  lemma LastOfPrefix(part: seq<Draft>, d: Draft, whole: seq<Draft>)
    requires part + [d] <= whole
    ensures d in whole
  {
    assert whole[|part|] == (part + [d])[|part|];
  }

  lemma DraftsGrow(before: seq<Draft>, source: Source, i: nat)
    requires i < |source.entries| && source.entries[i].Mapping?
    ensures before + DraftsOf(source, i) + [DraftOf(source.sourceType, i, source.entries[i])]
         == before + DraftsOf(source, i + 1)
  {}

  lemma FewAreAllChosen(sources: seq<Source>, quant: string, completeness: string)
    requires |Collected(sources, |sources|)| < 18
    ensures Chosen(sources, quant, completeness) == Collected(sources, |sources|) + Deterministic(quant, completeness)
  {}

  /** One more mapping: its draft is the next chosen one, and the eighteenth completes the choice. */
  lemma NextDraft(sources: seq<Source>, quant: string, completeness: string, s: nat, i: nat, done: seq<Draft>)
    requires s < |sources| && i < |sources[s].entries| && sources[s].entries[i].Mapping?
    requires done == Collected(sources, s) + DraftsOf(sources[s], i) && |done| < 18
    ensures var d := DraftOf(sources[s].sourceType, i, sources[s].entries[i]);
      && done + [d] == Collected(sources, s) + DraftsOf(sources[s], i + 1)
      && d in Chosen(sources, quant, completeness)
      && (|done| == 17 ==> done + [d] == Chosen(sources, quant, completeness))
  {
    var d := DraftOf(sources[s].sourceType, i, sources[s].entries[i]);
    DraftsGrow(Collected(sources, s), sources[s], i);
    SoFarIsPrefix(sources, s, i + 1);
    ShortPrefixIsChosen(done + [d], sources, quant, completeness);
    LastOfPrefix(done, d, Chosen(sources, quant, completeness));
  }

  lemma OneMoreItem(catalog: seq<EvidenceItem>, done: seq<Draft>, d: Draft)
    requires Building(catalog, done) && FactOk(d)
    ensures catalog + [ItemOf(|catalog| + 1, d)] == Numbered(done + [d])
    ensures |done| < 17 ==> Building(catalog + [ItemOf(|catalog| + 1, d)], done + [d])
    ensures forall e | e in done + [d] :: FactOk(e)
  {
    NumberedSnoc(done, d);
  }

  function SoFar(sources: seq<Source>, s: nat, i: nat): seq<Draft>
    requires s < |sources| && i <= |sources[s].entries|
  {
    Collected(sources, s) + DraftsOf(sources[s], i)
  }

  /** The numbered catalog of a choice of drafts, or the error of an item whose fact is outside its limits. */
  ghost function Answer(chosen: seq<Draft>): Result<seq<EvidenceItem>, string> {
    if forall d | d in chosen :: FactOk(d) then Ok(Numbered(chosen)) else Err("ValidationError")
  }

  /** One entry of a source that is a mapping: the answer is known, or the catalog grows by its draft. */
  lemma EntryStep(sources: seq<Source>, quant: string, completeness: string, s: nat, i: nat, catalog: seq<EvidenceItem>)
    requires s < |sources| && i < |sources[s].entries| && sources[s].entries[i].Mapping?
    requires Building(catalog, SoFar(sources, s, i))
    ensures var d := DraftOf(sources[s].sourceType, i, sources[s].entries[i]);
      var grown := catalog + [ItemOf(|catalog| + 1, d)];
      if !FactOk(d) then Answer(Chosen(sources, quant, completeness)) == Err("ValidationError")
      else if |grown| >= 18 then Answer(Chosen(sources, quant, completeness)) == Ok(grown)
      else Building(grown, SoFar(sources, s, i + 1))
  {
    var d := DraftOf(sources[s].sourceType, i, sources[s].entries[i]);
    NextDraft(sources, quant, completeness, s, i, SoFar(sources, s, i));
    if FactOk(d) { OneMoreItem(catalog, SoFar(sources, s, i), d); }
  }

  lemma SkippedEntry(sources: seq<Source>, s: nat, i: nat)
    requires s < |sources| && i < |sources[s].entries| && !sources[s].entries[i].Mapping?
    ensures SoFar(sources, s, i + 1) == SoFar(sources, s, i)
  {}

  lemma NothingBuilt(sources: seq<Source>)
    ensures Building([], Collected(sources, 0))
  {}

  /** `_evidence_catalog`. */
  method BuildEvidenceCatalog(sources: seq<Source>, quant: string, completeness: string)
    returns (r: Result<seq<EvidenceItem>, string>)
    ensures r == Answer(Chosen(sources, quant, completeness))
  {
    var catalog: seq<EvidenceItem> := [];
    var s := 0;
    NothingBuilt(sources);
    while s < |sources|
      invariant 0 <= s <= |sources| && Building(catalog, Collected(sources, s))
    {
      var finished: Option<Result<seq<EvidenceItem>, string>>;
      finished, catalog := AddSource(sources, quant, completeness, s, catalog);
      if finished.Some? {
        return finished.value;
      }
      s := s + 1;
    }
    r := AddDeterministic(sources, quant, completeness, catalog);
  }

  /** The inner loop over one source; `finished` is an early return out of both loops. */
  method AddSource(sources: seq<Source>, ghost quant: string, ghost completeness: string, s: nat,
                   collected: seq<EvidenceItem>)
    returns (finished: Option<Result<seq<EvidenceItem>, string>>, catalog: seq<EvidenceItem>)
    requires s < |sources| && Building(collected, Collected(sources, s))
    ensures finished.None? ==> Building(catalog, Collected(sources, s + 1))
    ensures finished.Some? ==> finished.value == Answer(Chosen(sources, quant, completeness))
  {
    catalog := collected;
    var i := 0;
    assert SoFar(sources, s, 0) == Collected(sources, s);
    while i < |sources[s].entries|
      invariant 0 <= i <= |sources[s].entries| && Building(catalog, SoFar(sources, s, i))
    {
      if sources[s].entries[i].Mapping? {
        var d := DraftOf(sources[s].sourceType, i, sources[s].entries[i]);
        EntryStep(sources, quant, completeness, s, i, catalog);
        if !FactOk(d) {
          return Some(Err("ValidationError")), catalog;
        }
        catalog := catalog + [ItemOf(|catalog| + 1, d)];
        if |catalog| >= 18 {
          return Some(Ok(catalog)), catalog;
        }
      } else {
        SkippedEntry(sources, s, i);
      }
      i := i + 1;
    }
    finished := None;
  }

  /** The two deterministic entries, each only while there is room for it. */
  method AddDeterministic(ghost sources: seq<Source>, quant: string, completeness: string, collected: seq<EvidenceItem>)
    returns (r: Result<seq<EvidenceItem>, string>)
    requires Building(collected, Collected(sources, |sources|))
    ensures r == Answer(Chosen(sources, quant, completeness))
  {
    FewAreAllChosen(sources, quant, completeness);
    r := AddEach(collected, Collected(sources, |sources|), Deterministic(quant, completeness));
  }

  method AddEach(collected: seq<EvidenceItem>, ghost drafts: seq<Draft>, extra: seq<Draft>)
    returns (r: Result<seq<EvidenceItem>, string>)
    requires Building(collected, drafts) && |extra| == 2
    ensures r == Answer(drafts + extra)
  {
    var catalog := collected;
    var k := 0;
    while k < 2
      invariant 0 <= k <= 2 && catalog == Numbered(drafts + extra[..k])
      invariant forall d | d in drafts + extra[..k] :: FactOk(d)
    {
      if |catalog| >= 20 {
        break;
      }
      assert (drafts + extra)[|drafts| + k] == extra[k];
      if !FactOk(extra[k]) {
        return Err("ValidationError");
      }
      NumberedSnoc(drafts + extra[..k], extra[k]);
      assert drafts + extra[..k + 1] == drafts + extra[..k] + [extra[k]];
      catalog := catalog + [ItemOf(|catalog| + 1, extra[k])];
      k := k + 1;
    }
    assert extra[..2] == extra;
    return Ok(catalog);
  }

  ghost predicate DistinctIds(catalog: seq<EvidenceItem>) {
    forall i, j | 0 <= i < j < |catalog| :: catalog[i].evidenceId != catalog[j].evidenceId
  }

  /** Whatever the request holds, the catalog has between two and nineteen entries, numbered E1 to En without a
    * repetition; the cap of twenty is never reached. */
  lemma EvidenceCatalogShape(sources: seq<Source>, quant: string, completeness: string)
    ensures var catalog := Numbered(Chosen(sources, quant, completeness));
      && 2 <= |catalog| <= 19 && DistinctIds(catalog)
      && forall i | 0 <= i < |catalog| :: catalog[i].evidenceId == Identifier("E", i + 1)
  {
    var catalog := Numbered(Chosen(sources, quant, completeness));
    forall i, j | 0 <= i < j < |catalog| ensures catalog[i].evidenceId != catalog[j].evidenceId {
      IdentifiersDiffer("E", i + 1, j + 1);
    }
  }

  // ---- zones ----

  /** What one mapping inside the zone evidence offers. */
  datatype ZoneMapping = ZoneMapping(lower: Option<real>, upper: Option<real>, kind: Option<string>,
                                     timeframe: Option<string>, evidenceId: Option<string>)

  datatype Zone = Zone(kind: string, lower: real, upper: real, timeframe: Option<string>, evidenceId: Option<string>)

  datatype ZoneItem = ZoneItem(zoneId: string, low: real, high: real, midpoint: real, distancePct: real,
                               timeframe: Option<string>, evidenceId: Option<string>)

  function ZoneOf(m: ZoneMapping): Option<Zone> {
    if m.lower.None? || m.upper.None? || m.lower.value <= 0.0 || m.upper.value <= 0.0 then None
    else Some(Zone(Take(m.kind.GetOr("zone"), 48), Min(m.lower.value, m.upper.value), Max(m.lower.value, m.upper.value),
                   m.timeframe, m.evidenceId))
  }

  predicate SameKey(a: Zone, b: Zone) {
    a.kind == b.kind && a.lower == b.lower && a.upper == b.upper && a.evidenceId == b.evidenceId
  }

  predicate Known(zones: seq<Zone>, z: Zone) {
    exists i | 0 <= i < |zones| :: SameKey(zones[i], z)
  }

  function Midpoint(z: Zone): real { (z.lower + z.upper) / 2.0 }

  function Distance(z: Zone, price: real): real { Abs(Midpoint(z) - price) }

  // `sorted` with a distance key: a stable sort.

  predicate Ordered(zones: seq<Zone>, price: real) {
    forall i, j | 0 <= i < j < |zones| :: Distance(zones[i], price) <= Distance(zones[j], price)
  }

  function At(zones: seq<Zone>, price: real, distance: real): seq<Zone> {
    if zones == [] then []
    else (if Distance(zones[0], price) == distance then [zones[0]] else []) + At(zones[1..], price, distance)
  }

  function Insert(z: Zone, zones: seq<Zone>, price: real): seq<Zone> {
    if zones == [] || Distance(z, price) <= Distance(zones[0], price) then [z] + zones
    else [zones[0]] + Insert(z, zones[1..], price)
  }

  function Sorted(zones: seq<Zone>, price: real): seq<Zone> {
    if zones == [] then [] else Insert(zones[0], Sorted(zones[1..], price), price)
  }

  lemma {:induction false} InsertKeepsItems(z: Zone, zones: seq<Zone>, price: real)
    ensures multiset(Insert(z, zones, price)) == multiset(zones) + multiset{z}
  {
    if zones != [] {
      assert zones == [zones[0]] + zones[1..];
      InsertKeepsItems(z, zones[1..], price);
    }
  }

  lemma OrderedCons(z: Zone, zones: seq<Zone>, price: real)
    requires Ordered(zones, price) && forall x | x in zones :: Distance(z, price) <= Distance(x, price)
    ensures Ordered([z] + zones, price)
  {}

  lemma OrderedParts(z: Zone, zones: seq<Zone>, price: real)
    requires Ordered([z] + zones, price)
    ensures Ordered(zones, price) && forall x | x in zones :: Distance(z, price) <= Distance(x, price)
  {
    var all := [z] + zones;
    assert forall j | 0 <= j < |zones| :: zones[j] == all[j + 1];
    assert all[0] == z;
  }

  lemma {:induction false} InsertKeepsOrder(z: Zone, zones: seq<Zone>, price: real)
    requires Ordered(zones, price)
    ensures Ordered(Insert(z, zones, price), price)
  {
    if zones == [] {
      assert [z] + [] == [z];
    } else {
      var first, rest := zones[0], zones[1..];
      assert zones == [first] + rest;
      OrderedParts(first, rest, price);
      if Distance(z, price) <= Distance(first, price) {
        OrderedCons(z, zones, price);
      } else {
        InsertKeepsOrder(z, rest, price);
        InsertKeepsItems(z, rest, price);
        forall x | x in Insert(z, rest, price) ensures Distance(first, price) <= Distance(x, price) {
          assert x in multiset(Insert(z, rest, price));
        }
        OrderedCons(first, Insert(z, rest, price), price);
      }
    }
  }

  lemma {:induction false} InsertKeepsTies(z: Zone, zones: seq<Zone>, price: real, distance: real)
    requires Ordered(zones, price)
    ensures At(Insert(z, zones, price), price, distance) == At([z] + zones, price, distance)
  {
    assert ([z] + zones)[1..] == zones;
    if zones != [] && Distance(z, price) > Distance(zones[0], price) {
      InsertKeepsTies(z, zones[1..], price, distance);
      var rest := Insert(z, zones[1..], price);
      assert ([zones[0]] + rest)[1..] == rest;
      assert ([z] + zones[1..])[1..] == zones[1..];
    }
  }

  /** The sort only reorders, by distance, and keeps zones at equal distance in their original order. */
  lemma {:induction false} SortedIsStable(zones: seq<Zone>, price: real)
    ensures Ordered(Sorted(zones, price), price)
    ensures multiset(Sorted(zones, price)) == multiset(zones)
    ensures forall distance :: At(Sorted(zones, price), price, distance) == At(zones, price, distance)
  {
    if zones != [] {
      SortedIsStable(zones[1..], price);
      var rest := Sorted(zones[1..], price);
      InsertKeepsOrder(zones[0], rest, price);
      InsertKeepsItems(zones[0], rest, price);
      assert zones == [zones[0]] + zones[1..];
      forall distance ensures At(Sorted(zones, price), price, distance) == At(zones, price, distance) {
        InsertKeepsTies(zones[0], rest, price, distance);
        assert ([zones[0]] + rest)[1..] == rest;
      }
    }
  }

  // The candidates: first mapping of each key.

  function Deduplicated(mappings: seq<ZoneMapping>, n: nat): seq<Zone>
    requires n <= |mappings|
  {
    if n == 0 then []
    else
      var earlier := Deduplicated(mappings, n - 1);
      match ZoneOf(mappings[n - 1])
      case Some(z) => if Known(earlier, z) then earlier else earlier + [z]
      case None => earlier
  }

  function Candidates(mappings: seq<ZoneMapping>, price: real): seq<Zone> {
    Sorted(Deduplicated(mappings, |mappings|), price)
  }

  /** `_candidate_zones` after the walk: skip unusable mappings, keep the first zone of a key, sort by distance. */
  method CandidateZones(mappings: seq<ZoneMapping>, price: real) returns (zones: seq<Zone>)
    ensures zones == Candidates(mappings, price)
  {
    var candidates: seq<Zone> := [];
    for i := 0 to |mappings|
      invariant candidates == Deduplicated(mappings, i)
    {
      var z := ZoneOf(mappings[i]);
      if z.Some? && !Known(candidates, z.value) {
        candidates := candidates + [z.value];
      }
    }
    zones := Sorted(candidates, price);
  }

  lemma {:induction false} DeduplicatedIsExact(mappings: seq<ZoneMapping>, n: nat)
    requires n <= |mappings|
    ensures var zones := Deduplicated(mappings, n);
      && (forall i, j | 0 <= i < j < |zones| :: !SameKey(zones[i], zones[j]))
      && (forall k | 0 <= k < n && ZoneOf(mappings[k]).Some? :: Known(zones, ZoneOf(mappings[k]).value))
      && (forall z | z in zones :: exists k | 0 <= k < n :: ZoneOf(mappings[k]) == Some(z))
  {
    if n > 0 {
      DeduplicatedIsExact(mappings, n - 1);
      var earlier, zones := Deduplicated(mappings, n - 1), Deduplicated(mappings, n);
      forall z | Known(earlier, z) ensures Known(zones, z) {
        var i :| 0 <= i < |earlier| && SameKey(earlier[i], z);
        assert zones[i] == earlier[i];
      }
      if zones != earlier {
        assert zones[|earlier|] == ZoneOf(mappings[n - 1]).value;
        assert SameKey(zones[|earlier|], ZoneOf(mappings[n - 1]).value);
      }
    }
  }

  // ---- supply and demand ----

  datatype Side = Supply | Demand

  predicate Contains(text: string, token: string) {
    exists i | 0 <= i <= |text| :: token <= text[i..]
  }

  function Lower(text: string): string {
    seq(|text|, i requires 0 <= i < |text| => if 'A' <= text[i] <= 'Z' then text[i] - 'A' + 'a' else text[i])
  }

  function Tokens(side: Side): set<string> {
    match side
    case Supply => {"supply", "bearish", "resistance", "sell"}
    case Demand => {"demand", "bullish", "support", "buy"}
  }

  predicate OnSide(z: Zone, side: Side) {
    exists token | token in Tokens(side) :: Contains(Lower(z.kind), token)
  }

  function Filtered(zones: seq<Zone>, side: Side): seq<Zone> {
    if zones == [] then [] else (if OnSide(zones[0], side) then [zones[0]] else []) + Filtered(zones[1..], side)
  }

  function Nearest(mappings: seq<ZoneMapping>, price: real, side: Side): seq<Zone> {
    Take(Filtered(Candidates(mappings, price), side), 3)
  }

  function Prefix(side: Side): string {
    match side case Supply => "SZ" case Demand => "DZ"
  }

  /** `_zone_catalog`. */
  function ZoneCatalog(zones: seq<Zone>, side: Side, price: real): seq<ZoneItem>
    requires price > 0.0
  {
    seq(|zones|, i requires 0 <= i < |zones| =>
      ZoneItem(Identifier(Prefix(side), i + 1), zones[i].lower, zones[i].upper, Midpoint(zones[i]),
               Distance(zones[i], price) / price * 100.0, zones[i].timeframe, zones[i].evidenceId))
  }

  function ZonesOf(mappings: seq<ZoneMapping>, price: real, side: Side): seq<ZoneItem>
    requires price > 0.0
  {
    ZoneCatalog(Nearest(mappings, price, side), side, price)
  }

  ghost predicate DistinctZoneIds(catalog: seq<ZoneItem>) {
    forall i, j | 0 <= i < j < |catalog| :: catalog[i].zoneId != catalog[j].zoneId
  }

  lemma {:induction false} FilteredIsExact(zones: seq<Zone>, side: Side, price: real)
    requires Ordered(zones, price)
    ensures Ordered(Filtered(zones, side), price)
    ensures forall z :: z in Filtered(zones, side) <==> z in zones && OnSide(z, side)
  {
    if zones != [] {
      assert zones == [zones[0]] + zones[1..];
      FilteredIsExact(zones[1..], side, price);
      var rest := Filtered(zones[1..], side);
      forall j | 0 <= j < |rest| ensures Distance(zones[0], price) <= Distance(rest[j], price) {
        assert rest[j] in zones[1..];
      }
    }
  }

  lemma CandidateOfMapping(mappings: seq<ZoneMapping>, price: real, k: nat) returns (z: Zone)
    requires k < |mappings| && ZoneOf(mappings[k]).Some?
    ensures z in Candidates(mappings, price) && SameKey(z, ZoneOf(mappings[k]).value)
  {
    DeduplicatedIsExact(mappings, |mappings|);
    SortedIsStable(Deduplicated(mappings, |mappings|), price);
    var zones := Deduplicated(mappings, |mappings|);
    var i :| 0 <= i < |zones| && SameKey(zones[i], ZoneOf(mappings[k]).value);
    z := zones[i];
    assert z in multiset(Candidates(mappings, price));
  }

  /** Of a list ordered by distance, what the first three leave out is no nearer than they are. */
  lemma FirstThreeAreNearest(zones: seq<Zone>, price: real, z: Zone)
    requires Ordered(zones, price) && z in zones
    ensures z in Take(zones, 3) || (|Take(zones, 3)| == 3
                                    && forall n | n in Take(zones, 3) :: Distance(n, price) <= Distance(z, price))
  {}

  lemma NearestAreOrdered(mappings: seq<ZoneMapping>, price: real, side: Side)
    ensures Ordered(Nearest(mappings, price, side), price) && |Nearest(mappings, price, side)| <= 3
    ensures forall z | z in Nearest(mappings, price, side) :: OnSide(z, side)
    ensures Ordered(Filtered(Candidates(mappings, price), side), price)
  {
    SortedIsStable(Deduplicated(mappings, |mappings|), price);
    FilteredIsExact(Candidates(mappings, price), side, price);
  }

  /** The catalog of a side: at most three entries with distinct ids, nearest first. A usable zone of that side is
    * in it, or the catalog is full and everything in it is at least as near. */
  lemma ZoneCatalogIsNearest(mappings: seq<ZoneMapping>, price: real, side: Side, k: nat)
    requires price > 0.0 && k < |mappings|
    ensures var near := Nearest(mappings, price, side); var catalog := ZonesOf(mappings, price, side);
      && |catalog| == |near| <= 3 && DistinctZoneIds(catalog) && Ordered(near, price)
      && (forall z | z in near :: OnSide(z, side))
      && (forall z | ZoneOf(mappings[k]) == Some(z) && OnSide(z, side) ::
            Known(near, z) || (|near| == 3 && forall n | n in near :: Distance(n, price) <= Distance(z, price)))
  {
    NearestAreOrdered(mappings, price, side);
    DistinctPrefixIds(Nearest(mappings, price, side), side, price);
    if ZoneOf(mappings[k]).Some? && OnSide(ZoneOf(mappings[k]).value, side) {
      UsableZoneIsNear(mappings, price, side, k);
    }
  }

  lemma UsableZoneIsNear(mappings: seq<ZoneMapping>, price: real, side: Side, k: nat)
    requires k < |mappings| && ZoneOf(mappings[k]).Some? && OnSide(ZoneOf(mappings[k]).value, side)
    ensures var near := Nearest(mappings, price, side); var z := ZoneOf(mappings[k]).value;
      Known(near, z) || (|near| == 3 && forall n | n in near :: Distance(n, price) <= Distance(z, price))
  {
    var all := Candidates(mappings, price);
    var z := CandidateOfMapping(mappings, price, k);
    assert OnSide(z, side);
    NearestAreOrdered(mappings, price, side);
    SortedIsStable(Deduplicated(mappings, |mappings|), price);
    FilteredIsExact(all, side, price);
    FirstThreeAreNearest(Filtered(all, side), price, z);
  }

  lemma DistinctPrefixIds(zones: seq<Zone>, side: Side, price: real)
    requires price > 0.0
    ensures DistinctZoneIds(ZoneCatalog(zones, side, price))
  {
    var catalog := ZoneCatalog(zones, side, price);
    forall i, j | 0 <= i < j < |catalog| ensures catalog[i].zoneId != catalog[j].zoneId {
      IdentifiersDiffer(Prefix(side), i + 1, j + 1);
    }
  }
}
