/** What the entries of the evidence and zone catalogs show of the request they are built from. */
module CatalogEntries {
  import opened Domain
  import opened Catalogs

  // ---- identifiers ----

  /** The number that a text of digits stands for. */
  function ValueOf(text: string): int {
    if text == "" then 0
    else ValueOf(text[..|text| - 1]) * 10 + (text[|text| - 1] as int - '0' as int)
  }

  lemma DigitValue(n: nat)
    requires n < 10
    ensures '0' <= DIGITS[n] <= '9' && DIGITS[n] as int - '0' as int == n
  {}

  /** Catalog numbers are written in decimal, without a leading zero. */
  lemma {:induction false} DecimalIsRead(n: nat)
    ensures ValueOf(Decimal(n)) == n && Decimal(n) != "" && (n > 0 ==> Decimal(n)[0] != '0')
    ensures forall c | c in Decimal(n) :: '0' <= c <= '9'
  {
    DigitValue(n % 10);
    var text := Decimal(n);
    if n < 10 {
      assert text[..|text| - 1] == "";
    } else {
      DecimalIsRead(n / 10);
      assert text[..|text| - 1] == Decimal(n / 10);
    }
  }

  // ---- evidence ----

  /** A text cut to a length: a prefix, and all of it where it fits. */
  predicate CutTo(cut: string, whole: string, n: nat) {
    cut <= whole && |cut| <= n && (|cut| == n || cut == whole)
  }

  lemma TakeCuts(whole: string, n: nat)
    ensures CutTo(Take(whole, n), whole, n)
  {}

  /** One entry says what its mapping says: the first fact, else the first reason, else that there is evidence; and it
    * is an uncertainty exactly when the mapping is unavailable, degraded or stale. */
  lemma EntryShowsItsMapping(sourceType: string, index: nat, m: SourceEntry)
    requires m.Mapping?
    ensures var d := DraftOf(sourceType, index, m);
      && (m.facts != [] ==> CutTo(d.fact, m.facts[0], 140) && CutTo(d.observed, m.facts[0], 96))
      && (m.facts == [] && m.reasons != [] ==> CutTo(d.fact, m.reasons[0], 140) && CutTo(d.observed, m.reasons[0], 96))
      && (m.facts == [] && m.reasons == [] ==> CutTo(d.fact, sourceType + " evidence available", 140))
      && d.observed <= d.fact && d.sourceType == sourceType
      && CutTo(d.sourceReference,
               if m.evidenceId.Some? then m.evidenceId.value else sourceType + ":" + Decimal(index), 128)
      && (d.timeframe.Some? <==> m.timeframe.Some?)
      && (m.timeframe.Some? ==> CutTo(d.timeframe.value, m.timeframe.value, 8))
    ensures DraftOf(sourceType, index, m).kind ==
      if m.availability == "unavailable" || m.availability == "degraded" || m.availability == "stale" then "uncertainty"
      else "calculated_feature"
  {
    var fact := LeadingFact(sourceType, m);
    TakeCuts(fact, 140);
    TakeCuts(fact, 96);
    TakeCuts(m.evidenceId.GetOr(sourceType + ":" + Decimal(index)), 128);
    if m.timeframe.Some? { TakeCuts(m.timeframe.value, 8); }
  }

  /** Mappings among the first n entries, and in the first n sources. */
  function Mappings(entries: seq<SourceEntry>, n: nat): nat
    requires n <= |entries|
  {
    if n == 0 then 0 else Mappings(entries, n - 1) + (if entries[n - 1].Mapping? then 1 else 0)
  }

  function MappingsOf(sources: seq<Source>, n: nat): nat
    requires n <= |sources|
  {
    if n == 0 then 0 else MappingsOf(sources, n - 1) + Mappings(sources[n - 1].entries, |sources[n - 1].entries|)
  }

  lemma {:induction false} DraftsAreCounted(source: Source, n: nat)
    requires n <= |source.entries|
    ensures |DraftsOf(source, n)| == Mappings(source.entries, n)
  {
    if n > 0 { DraftsAreCounted(source, n - 1); }
  }

  lemma {:induction false} CollectedAreCounted(sources: seq<Source>, n: nat)
    requires n <= |sources|
    ensures |Collected(sources, n)| == MappingsOf(sources, n)
  {
    if n > 0 {
      CollectedAreCounted(sources, n - 1);
      DraftsAreCounted(sources[n - 1], |sources[n - 1].entries|);
    }
  }

  /** A mapping with fewer than eighteen before it, counted over all sources in their order, is the catalog's entry of
    * that number; no other mapping is in the catalog, because it then holds the first eighteen and nothing else. */
  lemma MappingHasItsEntry(sources: seq<Source>, quant: string, completeness: string, s: nat, i: nat)
    requires s < |sources| && i < |sources[s].entries| && sources[s].entries[i].Mapping?
    ensures var before := MappingsOf(sources, s) + Mappings(sources[s].entries, i);
      var catalog := Numbered(Chosen(sources, quant, completeness));
      if before < 18 then
        && before < |catalog|
        && catalog[before] == ItemOf(before + 1, DraftOf(sources[s].sourceType, i, sources[s].entries[i]))
      else |catalog| == 18
  {
    CollectedAreCounted(sources, s);
    DraftsAreCounted(sources[s], i);
    SoFarIsPrefix(sources, s, i + 1);
    var d := DraftOf(sources[s].sourceType, i, sources[s].entries[i]);
    var part := Collected(sources, s) + DraftsOf(sources[s], i);
    assert part + [d] == Collected(sources, s) + DraftsOf(sources[s], i + 1);
    PrefixHasEntry(part, d, Collected(sources, |sources|));
  }

  lemma PrefixHasEntry(part: seq<Draft>, d: Draft, all: seq<Draft>)
    requires part + [d] <= all
    ensures |part| < |all| && all[|part|] == d
  {
    assert (part + [d])[|part|] == d;
  }

  /** The length: one entry a mapping and the two deterministic ones, or the first eighteen mappings alone. */
  lemma CatalogLength(sources: seq<Source>, quant: string, completeness: string)
    ensures var mappings := MappingsOf(sources, |sources|);
      var catalog := Numbered(Chosen(sources, quant, completeness));
      if mappings >= 18 then |catalog| == 18
      else
        && |catalog| == mappings + 2
        && catalog[mappings].fact == "quant_direction=" + quant && catalog[mappings].observed == quant
        && catalog[mappings + 1].fact == "evidence_completeness=" + completeness
        && catalog[mappings + 1].observed == completeness
        && catalog[mappings].kind == catalog[mappings + 1].kind == "calculated_feature"
        && catalog[mappings].sourceType == catalog[mappings].sourceReference == "quant"
        && catalog[mappings + 1].sourceType == catalog[mappings + 1].sourceReference == "data_quality"
        && catalog[mappings].timeframe.None? && catalog[mappings + 1].timeframe.None?
  {
    CollectedAreCounted(sources, |sources|);
    DeterministicShow(quant, completeness);
  }

  lemma DeterministicShow(quant: string, completeness: string)
    ensures var extra := Deterministic(quant, completeness);
      && |extra| == 2 && extra[0].fact == "quant_direction=" + quant && extra[0].observed == quant
      && extra[1].fact == "evidence_completeness=" + completeness && extra[1].observed == completeness
      && extra[0].kind == extra[1].kind == "calculated_feature"
      && extra[0].sourceType == extra[0].sourceReference == "quant"
      && extra[1].sourceType == extra[1].sourceReference == "data_quality"
      && extra[0].timeframe.None? && extra[1].timeframe.None?
  {
    assert "quant_direction" + "=" == "quant_direction=";
    assert "evidence_completeness" + "=" == "evidence_completeness=";
    assert "quant_direction" + "=" + quant == "quant_direction=" + quant;
    assert "evidence_completeness" + "=" + completeness == "evidence_completeness=" + completeness;
  }

  /** The catalog cannot be built exactly when one of the first eighteen mappings leads with an empty fact, or when a
    * deterministic fact that has room exceeds the limit of 140. */
  lemma CatalogFailsExactly(sources: seq<Source>, quant: string, completeness: string)
    ensures Answer(Chosen(sources, quant, completeness)).Err? <==>
      || (exists d | d in Take(Collected(sources, |sources|), 18) :: |d.fact| == 0)
      || (MappingsOf(sources, |sources|) < 18 && (|quant| > 124 || |completeness| > 118))
  {
    var all := Collected(sources, |sources|);
    CollectedAreCounted(sources, |sources|);
    CollectedFactsAreShort(sources, |sources|);
    var first := Take(all, 18);
    forall d | d in first ensures |d.fact| <= 140 { FirstOnesAreAmong(all, 18, d); }
    if |all| >= 18 {
      NoExtras(first);
    } else {
      DeterministicLengths(quant, completeness);
      var extra := Deterministic(quant, completeness);
      TwoExtras(first, extra[0], extra[1]);
      assert extra == [extra[0], extra[1]];
    }
  }

  lemma FirstOnesAreAmong(all: seq<Draft>, n: nat, d: Draft)
    requires d in Take(all, n)
    ensures d in all
  {}

  lemma NoExtras(first: seq<Draft>)
    requires forall d | d in first :: |d.fact| <= 140
    ensures Answer(first).Err? <==> exists d | d in first :: |d.fact| == 0
  {}

  lemma TwoExtras(first: seq<Draft>, one: Draft, other: Draft)
    requires forall d | d in first :: |d.fact| <= 140
    requires |one.fact| > 0 && |other.fact| > 0
    ensures Answer(first + [one, other]).Err? <==>
      (exists d | d in first :: |d.fact| == 0) || |one.fact| > 140 || |other.fact| > 140
  {
    var all := first + [one, other];
    assert all[|first|] == one && all[|first| + 1] == other;
    assert forall d :: d in all <==> d in first || d == one || d == other;
  }

  lemma DeterministicLengths(quant: string, completeness: string)
    ensures var extra := Deterministic(quant, completeness);
      |extra| == 2 && |extra[0].fact| == 16 + |quant| && |extra[1].fact| == 22 + |completeness|
  {
    DeterministicShow(quant, completeness);
    assert |"quant_direction="| == 16 && |"evidence_completeness="| == 22;
  }

  lemma {:induction false} DraftFactsAreShort(source: Source, n: nat)
    requires n <= |source.entries|
    ensures forall d | d in DraftsOf(source, n) :: |d.fact| <= 140
  {
    if n > 0 { DraftFactsAreShort(source, n - 1); }
  }

  lemma {:induction false} CollectedFactsAreShort(sources: seq<Source>, n: nat)
    requires n <= |sources|
    ensures forall d | d in Collected(sources, n) :: |d.fact| <= 140
  {
    if n > 0 {
      CollectedFactsAreShort(sources, n - 1);
      DraftFactsAreShort(sources[n - 1], |sources[n - 1].entries|);
    }
  }

  // ---- zones ----

  predicate Mentions(kind: string, word: string) {
    Contains(Lower(kind), word)
  }

  /** Which words put a zone on a side: its kind, whatever its letter case, mentions one of four. */
  lemma SideOfKind(z: Zone)
    ensures OnSide(z, Supply) <==>
      || Mentions(z.kind, "supply") || Mentions(z.kind, "bearish")
      || Mentions(z.kind, "resistance") || Mentions(z.kind, "sell")
    ensures OnSide(z, Demand) <==>
      || Mentions(z.kind, "demand") || Mentions(z.kind, "bullish")
      || Mentions(z.kind, "support") || Mentions(z.kind, "buy")
  {
    TokensOfSupply();
    TokensOfDemand();
  }

  lemma TokensOfSupply()
    ensures forall token :: token in Tokens(Supply) <==> token in ["supply", "bearish", "resistance", "sell"]
  {}

  lemma TokensOfDemand()
    ensures forall token :: token in Tokens(Demand) <==> token in ["demand", "bullish", "support", "buy"]
  {}

  /** Which mappings are usable, and what their zones are called. */
  lemma ZoneOfMapping(m: ZoneMapping)
    ensures ZoneOf(m).Some? <==> m.lower.Some? && m.upper.Some? && m.lower.value > 0.0 && m.upper.value > 0.0
    ensures ZoneOf(m).Some? ==> CutTo(ZoneOf(m).value.kind, if m.kind.Some? then m.kind.value else "zone", 48)
  {
    TakeCuts(m.kind.GetOr("zone"), 48);
  }

  /** A zone entry shows one usable mapping: its two positive prices in order, their middle, the distance of the middle
    * in percent of the price, and the mapping's timeframe and evidence. */
  predicate Shows(item: ZoneItem, m: ZoneMapping, price: real) {
    && m.lower.Some? && m.upper.Some? && m.lower.value > 0.0 && m.upper.value > 0.0
    && item.low <= item.high && (item.low == m.lower.value || item.low == m.upper.value)
    && item.low + item.high == m.lower.value + m.upper.value
    && 2.0 * item.midpoint == item.low + item.high
    && (item.midpoint >= price ==> item.distancePct * price == (item.midpoint - price) * 100.0)
    && (item.midpoint <= price ==> item.distancePct * price == (price - item.midpoint) * 100.0)
    && item.timeframe == m.timeframe && item.evidenceId == m.evidenceId
  }

  lemma PercentOfPrice(distance: real, price: real)
    requires price > 0.0
    ensures distance / price * 100.0 * price == distance * 100.0
  {
    assert distance / price * price == distance;
    assert distance / price * 100.0 * price == distance / price * price * 100.0;
  }

  lemma ZoneShows(z: Zone, m: ZoneMapping, side: Side, number: nat, price: real)
    requires price > 0.0 && ZoneOf(m) == Some(z)
    ensures Shows(ZoneItem(Identifier(Prefix(side), number), z.lower, z.upper, Midpoint(z),
                           Distance(z, price) / price * 100.0, z.timeframe, z.evidenceId), m, price)
  {
    PercentOfPrice(Distance(z, price), price);
  }

  /** Every zone entry shows a usable mapping whose kind belongs to the entry's side. */
  lemma ZoneEntryShowsAMapping(mappings: seq<ZoneMapping>, price: real, side: Side, n: nat) returns (k: nat)
    requires price > 0.0 && n < |ZonesOf(mappings, price, side)|
    ensures k < |mappings| && Shows(ZonesOf(mappings, price, side)[n], mappings[k], price)
    ensures ZoneOf(mappings[k]).Some? && OnSide(ZoneOf(mappings[k]).value, side)
  {
    var z := Nearest(mappings, price, side)[n];
    assert z in Nearest(mappings, price, side);
    k := NearIsAMapping(mappings, price, side, z);
    ZoneShows(z, mappings[k], side, n + 1, price);
  }

  lemma FirstOnesAreMembers(zones: seq<Zone>, n: nat, z: Zone)
    requires z in Take(zones, n)
    ensures z in zones
  {}

  lemma NearIsAMapping(mappings: seq<ZoneMapping>, price: real, side: Side, z: Zone) returns (k: nat)
    requires z in Nearest(mappings, price, side)
    ensures k < |mappings| && ZoneOf(mappings[k]) == Some(z) && OnSide(z, side)
  {
    var zones, sorted := Deduplicated(mappings, |mappings|), Candidates(mappings, price);
    SortedIsStable(zones, price);
    FilteredIsExact(sorted, side, price);
    FirstOnesAreMembers(Filtered(sorted, side), 3, z);
    assert z in multiset(sorted);
    DeduplicatedIsExact(mappings, |mappings|);
    k :| 0 <= k < |mappings| && ZoneOf(mappings[k]) == Some(z);
  }
}
