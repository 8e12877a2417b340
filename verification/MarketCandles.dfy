/** Where a cycle's candle comes from: a validated market candle is captured into an evidence frame, the newest frames
  * are synchronised into a market state, and the outcome update reads the prices back out of its evidence. */
module MarketCandles {
  import opened Domain
  import opened JsonSchemas
  import opened Reals
  import opened OutcomeBook
  import SO = SignalOutcomes

  // ---- the payload and its validator ----

  datatype CandlePayload = CandlePayload(
    symbol: string, instrument: string, timeframe: string,
    openTime: Time, closeTime: Time, ingestionTime: Time,
    open: real, high: real, low: real, close: real,
    volume: real, spread: real, provider: string, providerSymbol: string,
    qualityScore: real, qualityLevel: string, final: bool, revision: int)

  datatype PayloadFault = FieldBounds | CloseNotAfterOpen | NotPositive | OhlcRelationship

  /** Field bounds, then `candle_invariants`, in the validator's order; None is acceptance. */
  function PayloadError(p: CandlePayload): Option<PayloadFault> {
    if p.volume < 0.0 || p.spread < 0.0 || p.qualityScore < 0.0 || p.qualityScore > 100.0 || p.revision < 1 then
      Some(FieldBounds)
    else if p.closeTime <= p.openTime then Some(CloseNotAfterOpen)
    else if !(p.open > 0.0 && p.high > 0.0 && p.low > 0.0 && p.close > 0.0) then Some(NotPositive)
    else if p.high < Max(p.open, p.close) || p.low > Min(p.open, p.close) || p.low > p.high then Some(OhlcRelationship)
    else None
  }

  function CandleOf(p: CandlePayload): SO.Candle {
    SO.Candle(p.high, p.low, p.close)
  }

  /** The payload as JSON; `text` renders the instants. */
  function Dumped(p: CandlePayload, text: Time -> string): Json {
    Object([
      Field("payload_kind", Text("market_candle")), Field("symbol", Text(p.symbol)),
      Field("canonical_instrument", Text(p.instrument)), Field("timeframe", Text(p.timeframe)),
      Field("open_time", Text(text(p.openTime))), Field("close_time", Text(text(p.closeTime))),
      Field("ingestion_time", Text(text(p.ingestionTime))),
      Field("open", Number(p.open)), Field("high", Number(p.high)), Field("low", Number(p.low)),
      Field("close", Number(p.close)), Field("volume", Number(p.volume)), Field("spread", Number(p.spread)),
      Field("provider", Text(p.provider)), Field("provider_symbol", Text(p.providerSymbol)),
      Field("quality_score", Number(p.qualityScore)), Field("quality_level", Text(p.qualityLevel)),
      Field("final", Bool(p.final)), Field("revision", Number(p.revision as real))])
  }

  // ---- capture ----

  const MARKET_DATA := "market_data"
  const ENGINES := ["smc", "liquidity", "volume_profile", "institutional_flow", "market_regime", "economic_calendar"]

  datatype Availability = Available | Unavailable | Degraded | Stale

  datatype Captured = Captured(engine: string, availability: Availability, raw: Option<Json>)

  /** What one of the other engines returned for the candle. */
  datatype EngineOutput = EngineOutput(degraded: bool, observed: Time, available: Time, raw: Json)

  datatype FrameHash = FrameHash(event: nat, timeframe: string, closeAt: Time, evidence: seq<Captured>)

  datatype Frame = Frame(event: nat, instrument: string, timeframe: string, closeAt: Time, cutoff: Time,
                         evidence: seq<Captured>)
  {
    function Id(): FrameHash { FrameHash(event, timeframe, closeAt, evidence) }
  }

  /** One candle envelope with the engines' outputs for it, at the clock's reading. */
  datatype Envelope = Envelope(event: nat, payload: CandlePayload, outputs: map<string, EngineOutput>, cutoff: Time)

  datatype CaptureError = FutureEvidence(engine: string) | CloseAfterCutoff

  /** The loop over the other engines. */
  function EngineEvidence(engines: seq<string>, e: Envelope): Result<seq<Captured>, CaptureError> {
    if engines == [] then Ok([])
    else
      var engine := engines[0];
      if engine !in e.outputs then
        match EngineEvidence(engines[1..], e)
        case Err(error) => Err(error)
        case Ok(rest) => Ok([Captured(engine, Unavailable, None)] + rest)
      else
        var output := e.outputs[engine];
        if output.observed > e.cutoff || output.available > e.cutoff then Err(FutureEvidence(engine))
        else
          match EngineEvidence(engines[1..], e)
          case Err(error) => Err(error)
          case Ok(rest) =>
            Ok([Captured(engine, if output.degraded then Degraded else Available, Some(output.raw))] + rest)
  }

  function FrameWith(e: Envelope, raw: Json): Result<Frame, CaptureError> {
    match EngineEvidence(ENGINES, e)
    case Err(error) => Err(error)
    case Ok(others) =>
      if e.payload.closeTime > e.cutoff then Err(CloseAfterCutoff)
      else Ok(Frame(e.event, e.payload.instrument, e.payload.timeframe, e.payload.closeTime, e.cutoff,
                    [Captured(MARKET_DATA, Available, Some(raw))] + others))
  }

  /** `_frame` with the frame's own validator. */
  function FrameOf(e: Envelope, text: Time -> string): Result<Frame, CaptureError> {
    FrameWith(e, Dumped(e.payload, text))
  }

  predicate Required(timeframe: string) {
    timeframe == "M5" || timeframe == "M15"
  }

  /** The frames stored by a sequence of captures; an envelope that raises, or of another timeframe, stores none. */
  function Frames(captures: seq<Envelope>, text: Time -> string): seq<Frame> {
    if captures == [] then []
    else
      var frames, e := Frames(captures[..|captures| - 1], text), captures[|captures| - 1];
      if PayloadError(e.payload).Some? || !Required(e.payload.timeframe) then frames
      else match FrameOf(e, text) case Err(_) => frames case Ok(f) => frames + [f]
  }

  // ---- synchronisation ----

  predicate Knowable(f: Frame, instrument: string, timeframe: string, boundary: Time, cutoff: Time) {
    f.instrument == instrument && f.timeframe == timeframe && f.closeAt <= boundary && f.cutoff <= cutoff
  }

  /** `latest_frame`: by close, then by cutoff; which of two equals is taken is left to their order in `frames`. */
  function LatestFrame(frames: seq<Frame>, instrument: string, timeframe: string, boundary: Time, cutoff: Time)
    : Option<Frame>
  {
    if frames == [] then None
    else
      var best, f := LatestFrame(frames[..|frames| - 1], instrument, timeframe, boundary, cutoff), frames[|frames| - 1];
      if !Knowable(f, instrument, timeframe, boundary, cutoff) then best
      else if best.None? || f.closeAt > best.value.closeAt
           || (f.closeAt == best.value.closeAt && f.cutoff >= best.value.cutoff) then Some(f)
      else best
  }

  datatype Item = Item(frame: FrameHash, engine: string, closeAt: Time, availability: Availability, raw: Option<Json>)

  /** `expected_closed_boundary`. */
  function Aligned(boundary: Time, minutes: nat): (aligned: Time)
    requires minutes > 0
    ensures aligned <= boundary
  {
    var epochMinutes := boundary / 60;
    (epochMinutes - epochMinutes % minutes) * 60
  }

  function Items(f: Frame, expected: Time): seq<Item> {
    seq(|f.evidence|, i requires 0 <= i < |f.evidence| =>
      var c := f.evidence[i];
      Item(f.Id(), c.engine, f.closeAt,
           if f.closeAt < expected && c.availability == Available then Stale else c.availability, c.raw))
  }

  /** The evidence of the newest frames up to the ends of the two timeframes, or None while one has no frame. */
  function SynchronizedAt(frames: seq<Frame>, instrument: string, fastEnd: Time, slowEnd: Time, cutoff: Time)
    : Option<seq<Item>>
  {
    var fast := LatestFrame(frames, instrument, "M5", fastEnd, cutoff);
    var slow := LatestFrame(frames, instrument, "M15", slowEnd, cutoff);
    if fast.None? || slow.None? then None
    else Some(Items(fast.value, fastEnd) + Items(slow.value, slowEnd))
  }

  /** `synchronize`. */
  function Synchronized(frames: seq<Frame>, instrument: string, boundary: Time, cutoff: Time): Option<seq<Item>> {
    SynchronizedAt(frames, instrument, Aligned(boundary, 5), Aligned(boundary, 15), cutoff)
  }

  // ---- the candle of a state ----

  function LoweredText(s: string): string {
    if s == "" then "" else [Lowered(s[0])] + LoweredText(s[1..])
  }

  predicate IsMarketItem(item: Item) {
    LoweredText(item.engine) == MARKET_DATA && item.raw.Some? && item.raw.value.Object?
  }

  function MarketItems(items: seq<Item>): (market: seq<Item>)
    ensures forall m | m in market :: IsMarketItem(m)
  {
    if items == [] then []
    else if IsMarketItem(items[0]) then [items[0]] + MarketItems(items[1..])
    else MarketItems(items[1..])
  }

  /** `max` with a key returns the first of the greatest. */
  function FirstLatest(items: seq<Item>): (latest: Item)
    requires items != []
    ensures latest in items && forall i | i in items :: i.closeAt <= latest.closeAt
  {
    if |items| == 1 then items[0]
    else
      var best := FirstLatest(items[1..]);
      if items[0].closeAt >= best.closeAt then items[0] else best
  }

  /** `raw.get(key)`; of equal keys the last one stands. */
  function Get(fields: seq<Field>, key: string): Option<Json> {
    if fields == [] then None
    else
      var later := Get(fields[1..], key);
      if later.Some? then later else if fields[0].key == key then Some(fields[0].value) else None
  }

  function NumberAt(fields: seq<Field>, key: string): Option<real> {
    match Get(fields, key) case None => None case Some(v) => if v.Number? then Some(v.number) else None
  }

  /** The three prices of a raw mapping, if all are numbers. */
  function QuotedCandle(raw: Option<Json>): Option<SO.Candle> {
    if raw.None? || !raw.value.Object? then None
    else
      var fields := raw.value.fields;
      var high, low, close := NumberAt(fields, "high"), NumberAt(fields, "low"), NumberAt(fields, "close");
      if high.None? || low.None? || close.None? then None
      else Some(SO.Candle(high.value, low.value, close.value))
  }

  /** The candle that the outcome update reads from a state; None ends the update early. */
  function StateCandle(items: seq<Item>): Option<SO.Candle> {
    var market := MarketItems(items);
    if market == [] then None else QuotedCandle(FirstLatest(market).raw)
  }

  // ---- states stored without their payloads ----

  /** `_compact_evidence_payload`: the frame stays the only owner of the raw value. */
  datatype CompactItem = CompactItem(frame: FrameHash, engine: string, closeAt: Time, availability: Availability)

  function Compacted(items: seq<Item>): seq<CompactItem> {
    seq(|items|, i requires 0 <= i < |items| =>
      CompactItem(items[i].frame, items[i].engine, items[i].closeAt, items[i].availability))
  }

  function FirstOfEngine(evidence: seq<Captured>, engine: string): Option<Captured> {
    if evidence == [] then None
    else if evidence[0].engine == engine then Some(evidence[0])
    else FirstOfEngine(evidence[1..], engine)
  }

  function FrameWithId(frames: seq<Frame>, id: FrameHash): Option<Frame> {
    if frames == [] then None
    else if frames[0].Id() == id then Some(frames[0])
    else FrameWithId(frames[1..], id)
  }

  /** `_reconstruct_compact_state`; None where a frame or its engine is missing and the code raises. */
  function Restored(frames: seq<Frame>, items: seq<CompactItem>): Option<seq<Item>> {
    if items == [] then Some([])
    else
      var n := |items| - 1;
      var before, c, frame := Restored(frames, items[..n]), items[n], FrameWithId(frames, items[n].frame);
      if before.None? || frame.None? then None
      else
        match FirstOfEngine(frame.value.evidence, c.engine)
        case None => None
        case Some(captured) =>
          Some(before.value + [Item(c.frame, c.engine, c.closeAt, c.availability, captured.raw)])
  }

  // ---- the payload as it is read back ----

  lemma ValidatedIsOrdered(p: CandlePayload)
    requires PayloadError(p).None?
    ensures SO.Ordered(CandleOf(p))
  {}

  /** Exactly which prices the validator lets through. */
  lemma AcceptedPayloadIsOrdered(p: CandlePayload)
    requires p.volume >= 0.0 && p.spread >= 0.0 && 0.0 <= p.qualityScore <= 100.0 && p.revision >= 1
    ensures PayloadError(p).None? <==>
      p.openTime < p.closeTime && 0.0 < p.low && p.low <= p.open <= p.high && p.low <= p.close <= p.high
    ensures PayloadError(p).None? ==> SO.Ordered(CandleOf(p))
  {}

  lemma {:induction false} GetAt(fields: seq<Field>, k: nat)
    requires k < |fields| && forall j | k < j < |fields| :: fields[j].key != fields[k].key
    ensures Get(fields, fields[k].key) == Some(fields[k].value)
    decreases |fields|
  {
    if k == 0 {
      AbsentKey(fields[1..], fields[0].key);
    } else {
      GetAt(fields[1..], k - 1);
    }
  }

  lemma {:induction false} AbsentKey(fields: seq<Field>, key: string)
    requires forall j | 0 <= j < |fields| :: fields[j].key != key
    ensures Get(fields, key).None?
    decreases |fields|
  {
    if fields != [] { AbsentKey(fields[1..], key); }
  }

  lemma DumpedHigh(p: CandlePayload, text: Time -> string)
    ensures NumberAt(Dumped(p, text).fields, "high") == Some(p.high)
  {
    var fields := Dumped(p, text).fields;
    assert fields[8] == Field("high", Number(p.high));
    GetAt(fields, 8);
  }

  lemma DumpedLow(p: CandlePayload, text: Time -> string)
    ensures NumberAt(Dumped(p, text).fields, "low") == Some(p.low)
  {
    var fields := Dumped(p, text).fields;
    assert fields[9] == Field("low", Number(p.low));
    GetAt(fields, 9);
  }

  lemma DumpedClose(p: CandlePayload, text: Time -> string)
    ensures NumberAt(Dumped(p, text).fields, "close") == Some(p.close)
  {
    var fields := Dumped(p, text).fields;
    assert fields[10] == Field("close", Number(p.close));
    assert "close" != "final" by { assert "close"[0] != "final"[0]; }
    GetAt(fields, 10);
  }

  /** The dump is read back to the payload's own prices. */
  lemma DumpQuotesItsPrices(p: CandlePayload, text: Time -> string)
    ensures QuotedCandle(Some(Dumped(p, text))) == Some(CandleOf(p))
  {
    DumpedHigh(p, text);
    DumpedLow(p, text);
    DumpedClose(p, text);
  }

  // ---- captured frames ----

  /** The frame was captured from a payload that passed its validator. */
  ghost predicate Genuine(f: Frame, text: Time -> string) {
    exists e: Envelope :: PayloadError(e.payload).None? && Required(e.payload.timeframe) && FrameOf(e, text) == Ok(f)
  }

  lemma {:induction false} StoredFramesAreGenuine(captures: seq<Envelope>, text: Time -> string)
    ensures forall f | f in Frames(captures, text) :: Genuine(f, text)
    decreases |captures|
  {
    if captures != [] {
      StoredFramesAreGenuine(captures[..|captures| - 1], text);
      var e := captures[|captures| - 1];
      if PayloadError(e.payload).None? && Required(e.payload.timeframe) && FrameOf(e, text).Ok? {
        assert Genuine(FrameOf(e, text).value, text);
      }
    }
  }

  lemma {:induction false} OneItemPerEngine(engines: seq<string>, e: Envelope)
    requires EngineEvidence(engines, e).Ok?
    ensures var others := EngineEvidence(engines, e).value;
      |others| == |engines| && forall i | 0 <= i < |engines| :: others[i].engine == engines[i]
    decreases |engines|
  {
    if engines != [] { OneItemPerEngine(engines[1..], e); }
  }

  lemma {:induction false} LoweredKeepsLength(s: string)
    ensures |LoweredText(s)| == |s|
  {
    if s != "" { LoweredKeepsLength(s[1..]); }
  }

  lemma {:induction false} LowerCaseStays(s: string)
    requires forall i | 0 <= i < |s| :: Lowered(s[i]) == s[i]
    ensures LoweredText(s) == s
  {
    if s != "" { LowerCaseStays(s[1..]); }
  }

  lemma {:induction false} MarketItemsOfConcatenation(xs: seq<Item>, ys: seq<Item>)
    ensures MarketItems(xs + ys) == MarketItems(xs) + MarketItems(ys)
    decreases |xs|
  {
    if xs == [] {
      assert xs + ys == ys;
    } else {
      assert (xs + ys)[1..] == xs[1..] + ys;
      MarketItemsOfConcatenation(xs[1..], ys);
    }
  }

  lemma {:induction false} NoMarketItems(items: seq<Item>)
    requires forall i | 0 <= i < |items| :: |items[i].engine| != |MARKET_DATA|
    ensures MarketItems(items) == []
    decreases |items|
  {
    if items != [] {
      LoweredKeepsLength(items[0].engine);
      NoMarketItems(items[1..]);
    }
  }

  lemma OtherEnginesAreLonger()
    ensures forall i | 0 <= i < |ENGINES| :: |ENGINES[i]| != |MARKET_DATA|
  {
    assert |"smc"| == 3 && |"liquidity"| == 9 && |"volume_profile"| == 14;
    assert |"institutional_flow"| == 18 && |"market_regime"| == 13 && |"economic_calendar"| == 17;
  }

  /** The frame's first evidence quotes a validated payload, and no other engine can be taken for it. */
  ghost predicate Captures(f: Frame, p: CandlePayload) {
    && PayloadError(p).None? && SO.Ordered(CandleOf(p))
    && p.closeTime == f.closeAt && p.instrument == f.instrument && p.timeframe == f.timeframe
    && f.evidence != [] && LoweredText(f.evidence[0].engine) == MARKET_DATA
    && QuotedCandle(f.evidence[0].raw) == Some(CandleOf(p))
    && forall c | c in f.evidence[1..] :: |c.engine| != |MARKET_DATA|
  }

  lemma MarketDataIsLowerCase()
    ensures LoweredText(MARKET_DATA) == MARKET_DATA
  {
    LowerCaseStays(MARKET_DATA);
  }

  lemma OthersAreNotMarketData(e: Envelope)
    requires EngineEvidence(ENGINES, e).Ok?
    ensures forall c | c in EngineEvidence(ENGINES, e).value :: |c.engine| != |MARKET_DATA|
  {
    OneItemPerEngine(ENGINES, e);
    OtherEnginesAreLonger();
  }

  lemma FirstAndRest<T>(first: T, rest: seq<T>)
    ensures ([first] + rest)[0] == first && ([first] + rest)[1..] == rest
  {}

  lemma {:induction false} FrameCaptures(e: Envelope, raw: Json, f: Frame)
    requires PayloadError(e.payload).None? && FrameWith(e, raw) == Ok(f)
    requires QuotedCandle(Some(raw)) == Some(CandleOf(e.payload))
    ensures Captures(f, e.payload)
  {
    ValidatedIsOrdered(e.payload);
    MarketDataIsLowerCase();
    OthersAreNotMarketData(e);
    FirstAndRest(Captured(MARKET_DATA, Available, Some(raw)), EngineEvidence(ENGINES, e).value);
  }

  lemma GenuineFrameCaptures(f: Frame, text: Time -> string) returns (p: CandlePayload)
    requires Genuine(f, text)
    ensures Captures(f, p)
  {
    var e: Envelope :| PayloadError(e.payload).None? && Required(e.payload.timeframe) && FrameOf(e, text) == Ok(f);
    p := e.payload;
    DumpQuotesItsPrices(p, text);
    FrameCaptures(e, Dumped(p, text), f);
  }

  /** The items show one market candle: that of the payload. */
  ghost predicate ShowsOne(items: seq<Item>, p: CandlePayload) {
    var market := MarketItems(items);
    |market| == 1 && market[0].closeAt == p.closeTime && QuotedCandle(market[0].raw) == Some(CandleOf(p))
  }

  lemma {:induction false} CapturedFrameShowsOne(f: Frame, p: CandlePayload, expected: Time)
    requires Captures(f, p)
    ensures ShowsOne(Items(f, expected), p)
  {
    var items := Items(f, expected);
    assert IsMarketItem(items[0]);
    forall i | 0 <= i < |items[1..]| ensures |items[1..][i].engine| != |MARKET_DATA| {
      assert items[1..][i].engine == f.evidence[1..][i].engine;
    }
    NoMarketItems(items[1..]);
    assert MarketItems(items) == [items[0]] + MarketItems(items[1..]);
  }

  /** The frame chosen is stored and knowable, and no knowable stored frame closes later. */
  lemma {:induction false} LatestFrameIsLatest(frames: seq<Frame>, instrument: string, timeframe: string, boundary: Time,
                                               cutoff: Time)
    ensures var best := LatestFrame(frames, instrument, timeframe, boundary, cutoff);
      && (best.Some? ==> best.value in frames && Knowable(best.value, instrument, timeframe, boundary, cutoff))
      && forall f | f in frames && Knowable(f, instrument, timeframe, boundary, cutoff) ::
           best.Some? && f.closeAt <= best.value.closeAt
    decreases |frames|
  {
    if frames != [] {
      LatestFrameIsLatest(frames[..|frames| - 1], instrument, timeframe, boundary, cutoff);
      assert frames == frames[..|frames| - 1] + [frames[|frames| - 1]];
    }
  }

  // ---- the candle of a produced state ----

  lemma FirstLatestOfTwo(a: Item, b: Item)
    ensures FirstLatest([a, b]) == if a.closeAt >= b.closeAt then a else b
  {
    assert [a, b][1..] == [b];
  }

  lemma {:induction false} CandleOfTwo(xs: seq<Item>, ys: seq<Item>, p: CandlePayload, q: CandlePayload)
    requires ShowsOne(xs, p) && ShowsOne(ys, q)
    ensures StateCandle(xs + ys) == Some(CandleOf(if p.closeTime >= q.closeTime then p else q))
  {
    MarketItemsOfConcatenation(xs, ys);
    var a, b := MarketItems(xs)[0], MarketItems(ys)[0];
    assert MarketItems(xs + ys) == [a, b];
    FirstLatestOfTwo(a, b);
  }

  function Latest(a: Time, b: Time): Time { if a >= b then a else b }

  lemma {:induction false} TwoFramesShowOneCandle(fast: Frame, slow: Frame, fastEnd: Time, slowEnd: Time,
                                                  text: Time -> string) returns (p: CandlePayload)
    requires Genuine(fast, text) && Genuine(slow, text)
    ensures StateCandle(Items(fast, fastEnd) + Items(slow, slowEnd)) == Some(CandleOf(p))
    ensures PayloadError(p).None? && SO.Ordered(CandleOf(p))
    ensures p.closeTime == Latest(fast.closeAt, slow.closeAt)
    ensures p.instrument == if fast.closeAt >= slow.closeAt then fast.instrument else slow.instrument
  {
    var first := GenuineFrameCaptures(fast, text);
    var second := GenuineFrameCaptures(slow, text);
    CapturedFrameShowsOne(fast, first, fastEnd);
    CapturedFrameShowsOne(slow, second, slowEnd);
    CandleOfTwo(Items(fast, fastEnd), Items(slow, slowEnd), first, second);
    p := if first.closeTime >= second.closeTime then first else second;
  }

  /** The payload is of the instrument, closes by one of the ends, and no knowable frame closes after it. */
  ghost predicate IsNewest(p: CandlePayload, frames: seq<Frame>, instrument: string, fastEnd: Time, slowEnd: Time,
                           cutoff: Time)
  {
    && p.instrument == instrument && p.closeTime <= Latest(fastEnd, slowEnd)
    && forall f | f in frames ::
         && (Knowable(f, instrument, "M5", fastEnd, cutoff) ==> f.closeAt <= p.closeTime)
         && (Knowable(f, instrument, "M15", slowEnd, cutoff) ==> f.closeAt <= p.closeTime)
  }

  lemma {:induction false} LaterOfTheNewest(p: CandlePayload, frames: seq<Frame>, instrument: string, fastEnd: Time,
                                            slowEnd: Time, cutoff: Time)
    requires SynchronizedAt(frames, instrument, fastEnd, slowEnd, cutoff).Some?
    requires var fast := LatestFrame(frames, instrument, "M5", fastEnd, cutoff).value;
      var slow := LatestFrame(frames, instrument, "M15", slowEnd, cutoff).value;
      && p.closeTime == Latest(fast.closeAt, slow.closeAt)
      && p.instrument == if fast.closeAt >= slow.closeAt then fast.instrument else slow.instrument
    ensures IsNewest(p, frames, instrument, fastEnd, slowEnd, cutoff)
  {
    LatestFrameIsLatest(frames, instrument, "M5", fastEnd, cutoff);
    LatestFrameIsLatest(frames, instrument, "M15", slowEnd, cutoff);
  }

  lemma {:induction false} SynchronizedFramesShowTheNewest(frames: seq<Frame>, instrument: string, fastEnd: Time,
                                                           slowEnd: Time, cutoff: Time, text: Time -> string)
    returns (p: CandlePayload)
    requires SynchronizedAt(frames, instrument, fastEnd, slowEnd, cutoff).Some?
    requires forall f | f in frames :: Genuine(f, text)
    ensures StateCandle(SynchronizedAt(frames, instrument, fastEnd, slowEnd, cutoff).value) == Some(CandleOf(p))
    ensures PayloadError(p).None? && SO.Ordered(CandleOf(p))
    ensures IsNewest(p, frames, instrument, fastEnd, slowEnd, cutoff)
  {
    LatestFrameIsLatest(frames, instrument, "M5", fastEnd, cutoff);
    LatestFrameIsLatest(frames, instrument, "M15", slowEnd, cutoff);
    var fast := LatestFrame(frames, instrument, "M5", fastEnd, cutoff).value;
    var slow := LatestFrame(frames, instrument, "M15", slowEnd, cutoff).value;
    p := TwoFramesShowOneCandle(fast, slow, fastEnd, slowEnd, text);
    LaterOfTheNewest(p, frames, instrument, fastEnd, slowEnd, cutoff);
  }

  /** Every synchronised state has a candle, that of a validated payload: ordered, of the instrument, not after the
    * boundary, and as new as any frame that was knowable. */
  lemma {:induction false} ProducedStateHasItsCandle(captures: seq<Envelope>, text: Time -> string, instrument: string,
                                                     boundary: Time, cutoff: Time) returns (p: CandlePayload)
    requires Synchronized(Frames(captures, text), instrument, boundary, cutoff).Some?
    ensures StateCandle(Synchronized(Frames(captures, text), instrument, boundary, cutoff).value) == Some(CandleOf(p))
    ensures PayloadError(p).None? && SO.Ordered(CandleOf(p)) && p.closeTime <= boundary
    ensures IsNewest(p, Frames(captures, text), instrument, Aligned(boundary, 5), Aligned(boundary, 15), cutoff)
  {
    StoredFramesAreGenuine(captures, text);
    p := SynchronizedFramesShowTheNewest(Frames(captures, text), instrument, Aligned(boundary, 5), Aligned(boundary, 15),
                                         cutoff, text);
  }

  // ---- the hypotheses of the outcome laws, discharged ----

  /** A market state that the service synchronised from its captures. */
  ghost predicate Produced(items: seq<Item>, text: Time -> string) {
    exists captures, instrument, boundary, cutoff ::
      Synchronized(Frames(captures, text), instrument, boundary, cutoff) == Some(items)
  }

  lemma ProducedCandle(items: seq<Item>, text: Time -> string)
    requires Produced(items, text)
    ensures StateCandle(items).Some? && SO.Ordered(StateCandle(items).value)
  {
    var captures, instrument, boundary, cutoff :|
      Synchronized(Frames(captures, text), instrument, boundary, cutoff) == Some(items);
    var p := ProducedStateHasItsCandle(captures, text, instrument, boundary, cutoff);
  }

  /** On produced states the outcome of any accepted signal stays in its bounds, whatever the run. */
  lemma {:induction false} ProducedStatesKeepBounds(s: SO.Signal, seen: seq<SO.Observation>, states: seq<seq<Item>>,
                                                    text: Time -> string)
    requires SO.Accepted(s) && |states| == |seen|
    requires forall i | 0 <= i < |seen| :: Produced(states[i], text) && StateCandle(states[i]) == Some(seen[i].candle)
    ensures SO.Run(s, SO.Initial(s), seen).Ok?
    ensures var o := SO.Run(s, SO.Initial(s), seen).value; SO.Open(o) || SO.Settled(o) || SO.Untraded(o)
  {
    forall i | 0 <= i < |seen| ensures SO.Ordered(seen[i].candle) { ProducedCandle(states[i], text); }
    SO.OutcomeBounds(s, seen);
  }

  /** On produced states only the newest signal of an instrument is ever active. */
  lemma {:induction false} ProducedStatesKeepOneActive(cycles: seq<Cycle>, states: seq<seq<Item>>, text: Time -> string)
    requires WellFormed(cycles) && |states| == |cycles|
    requires forall i | 0 <= i < |cycles| :: Produced(states[i], text) && cycles[i].candle == StateCandle(states[i])
    ensures Replay(cycles).Ok? && OnlyNewestActive(Signals(cycles), Replay(cycles).value)
  {
    forall i | 0 <= i < |cycles| ensures cycles[i].candle.Some? { ProducedCandle(states[i], text); }
    AtMostOneActive(cycles);
  }

  // ---- a state read back from its compact rows ----

  ghost predicate OneOfEach(evidence: seq<Captured>) {
    forall i, j | 0 <= i < j < |evidence| :: evidence[i].engine != evidence[j].engine
  }

  lemma {:induction false} FirstOfEngineAt(evidence: seq<Captured>, k: nat)
    requires OneOfEach(evidence) && k < |evidence|
    ensures FirstOfEngine(evidence, evidence[k].engine) == Some(evidence[k])
    decreases |evidence|
  {
    if k > 0 { FirstOfEngineAt(evidence[1..], k - 1); }
  }

  lemma {:induction false} FrameWithItsId(frames: seq<Frame>, f: Frame)
    requires f in frames
    ensures FrameWithId(frames, f.Id()).Some? && FrameWithId(frames, f.Id()).value.evidence == f.evidence
    decreases |frames|
  {
    if frames[0] != f {
      FrameWithItsId(frames[1..], f);
    }
  }

  ghost predicate ItemOf(frames: seq<Frame>, f: Frame, k: nat, expected: Time, item: Item) {
    f in frames && OneOfEach(f.evidence) && k < |f.evidence| && item == Items(f, expected)[k]
  }

  ghost predicate FromFrames(frames: seq<Frame>, item: Item) {
    exists f, k: nat, expected :: ItemOf(frames, f, k, expected, item)
  }

  lemma {:induction false} CompactRowsRestore(frames: seq<Frame>, items: seq<Item>)
    requires forall i | 0 <= i < |items| :: FromFrames(frames, items[i])
    ensures Restored(frames, Compacted(items)) == Some(items)
    decreases |items|
  {
    if items != [] {
      var n := |items| - 1;
      var f, k: nat, expected :| ItemOf(frames, f, k, expected, items[n]);
      assert Compacted(items)[..n] == Compacted(items[..n]);
      CompactRowsRestore(frames, items[..n]);
      FrameWithItsId(frames, f);
      FirstOfEngineAt(f.evidence, k);
      assert items == items[..n] + [items[n]];
    }
  }

  lemma EngineNamesDiffer()
    ensures forall i, j | 0 <= i < j < |ENGINES| :: |ENGINES[i]| != |ENGINES[j]|
  {
    assert |"smc"| == 3 && |"liquidity"| == 9 && |"volume_profile"| == 14;
    assert |"institutional_flow"| == 18 && |"market_regime"| == 13 && |"economic_calendar"| == 17;
  }

  lemma {:induction false} GenuineFrameHasOneOfEach(f: Frame, text: Time -> string)
    requires Genuine(f, text)
    ensures OneOfEach(f.evidence)
  {
    var e: Envelope :| PayloadError(e.payload).None? && Required(e.payload.timeframe) && FrameOf(e, text) == Ok(f);
    FrameHasOneOfEach(e, Dumped(e.payload, text), f);
  }

  lemma {:induction false} FrameHasOneOfEach(e: Envelope, raw: Json, f: Frame)
    requires FrameWith(e, raw) == Ok(f)
    ensures OneOfEach(f.evidence)
  {
    OneItemPerEngine(ENGINES, e);
    OtherEnginesAreLonger();
    EngineNamesDiffer();
    var others := EngineEvidence(ENGINES, e).value;
    forall i, j | 0 <= i < j < |f.evidence| ensures |f.evidence[i].engine| != |f.evidence[j].engine| {
      assert f.evidence[j] == others[j - 1];
      if i > 0 { assert f.evidence[i] == others[i - 1]; }
    }
  }

  /** Round trip of the stored state: its evidence rows without their payloads, and the two frames, give back the very
    * items that were synchronised, hence the same candle. */
  lemma {:induction false} CompactRowsRestoreTheState(frames: seq<Frame>, instrument: string, fastEnd: Time,
                                                      slowEnd: Time, cutoff: Time, text: Time -> string)
    requires SynchronizedAt(frames, instrument, fastEnd, slowEnd, cutoff).Some?
    requires forall f | f in frames :: Genuine(f, text)
    ensures var items := SynchronizedAt(frames, instrument, fastEnd, slowEnd, cutoff).value;
      var fast := LatestFrame(frames, instrument, "M5", fastEnd, cutoff).value;
      var slow := LatestFrame(frames, instrument, "M15", slowEnd, cutoff).value;
      Restored([fast, slow], Compacted(items)) == Some(items)
  {
    LatestFrameIsLatest(frames, instrument, "M5", fastEnd, cutoff);
    LatestFrameIsLatest(frames, instrument, "M15", slowEnd, cutoff);
    var fast := LatestFrame(frames, instrument, "M5", fastEnd, cutoff).value;
    var slow := LatestFrame(frames, instrument, "M15", slowEnd, cutoff).value;
    GenuineFrameHasOneOfEach(fast, text);
    GenuineFrameHasOneOfEach(slow, text);
    var a, b := Items(fast, fastEnd), Items(slow, slowEnd);
    forall i | 0 <= i < |a + b| ensures FromFrames([fast, slow], (a + b)[i]) {
      if i < |a| {
        assert ItemOf([fast, slow], fast, i, fastEnd, (a + b)[i]);
      } else {
        assert ItemOf([fast, slow], slow, i - |a|, slowEnd, (a + b)[i]);
      }
    }
    CompactRowsRestore([fast, slow], a + b);
  }
}
