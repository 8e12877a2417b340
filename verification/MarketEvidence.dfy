/** What a synchronised state says of its evidence: which frames it takes, nothing from beyond the cutoff, and exactly
  * which items are marked as stale. */
module MarketEvidence {
  import opened Domain
  import opened JsonSchemas
  import opened MarketCandles

  /** Of the knowable frames that close with it, none was captured at a later cutoff. */
  lemma {:induction false} LatestFrameIsNewest(frames: seq<Frame>, instrument: string, timeframe: string, boundary: Time,
                                               cutoff: Time, f: Frame)
    requires f in frames && Knowable(f, instrument, timeframe, boundary, cutoff)
    requires LatestFrame(frames, instrument, timeframe, boundary, cutoff).Some?
    requires f.closeAt == LatestFrame(frames, instrument, timeframe, boundary, cutoff).value.closeAt
    ensures f.cutoff <= LatestFrame(frames, instrument, timeframe, boundary, cutoff).value.cutoff
    decreases |frames|
  {
    var n := |frames| - 1;
    LatestFrameIsLatest(frames[..n], instrument, timeframe, boundary, cutoff);
    assert frames == frames[..n] + [frames[n]];
    if f in frames[..n] && LatestFrame(frames[..n], instrument, timeframe, boundary, cutoff).value.closeAt == f.closeAt {
      LatestFrameIsNewest(frames[..n], instrument, timeframe, boundary, cutoff, f);
    }
  }

  // ---- what a capture can know ----

  predicate InTime(engine: string, e: Envelope) {
    engine in e.outputs ==> e.outputs[engine].observed <= e.cutoff && e.outputs[engine].available <= e.cutoff
  }

  /** How an engine's output is kept: absent as unavailable, a degraded one as degraded, any other as available. */
  predicate CapturedAs(c: Captured, engine: string, e: Envelope) {
    && c.engine == engine
    && (c.availability == Unavailable <==> engine !in e.outputs) && (c.availability == Unavailable ==> c.raw.None?)
    && (engine in e.outputs ==>
          && c.raw == Some(e.outputs[engine].raw)
          && c.availability == if e.outputs[engine].degraded then Degraded else Available)
  }

  lemma {:induction false} CapturedExactlyInTime(engines: seq<string>, e: Envelope)
    ensures EngineEvidence(engines, e).Ok? <==> forall i | 0 <= i < |engines| :: InTime(engines[i], e)
    decreases |engines|
  {
    if engines != [] {
      var rest := engines[1..];
      CapturedExactlyInTime(rest, e);
      assert forall i | 0 < i < |engines| :: engines[i] == rest[i - 1];
      assert forall i | 0 <= i < |rest| :: rest[i] == engines[i + 1];
    }
  }

  lemma {:induction false} EngineIsCapturedAs(engines: seq<string>, e: Envelope, i: nat)
    requires EngineEvidence(engines, e).Ok? && i < |engines|
    ensures i < |EngineEvidence(engines, e).value| && CapturedAs(EngineEvidence(engines, e).value[i], engines[i], e)
    decreases |engines|
  {
    if i > 0 { EngineIsCapturedAs(engines[1..], e, i - 1); }
  }

  /** A capture succeeds exactly when neither the candle nor any engine's output reaches beyond the cutoff. */
  lemma CaptureSeesNoFuture(e: Envelope, text: Time -> string)
    ensures FrameOf(e, text).Ok? <==>
      e.payload.closeTime <= e.cutoff && forall i | 0 <= i < |ENGINES| :: InTime(ENGINES[i], e)
  {
    CapturedExactlyInTime(ENGINES, e);
  }

  /** A capture stores a frame exactly for a validated candle of five or fifteen minutes that sees no future, and the
    * frame is then that of the candle. */
  lemma FrameIsStoredExactly(captures: seq<Envelope>, e: Envelope, text: Time -> string)
    ensures var before, after := Frames(captures, text), Frames(captures + [e], text); var p := e.payload;
      if PayloadError(p).None? && (p.timeframe == "M5" || p.timeframe == "M15") && p.closeTime <= e.cutoff
         && forall i | 0 <= i < |ENGINES| :: InTime(ENGINES[i], e) then
        && |after| == |before| + 1 && before <= after
        && var f := after[|before|];
           && f.event == e.event && f.instrument == p.instrument && f.timeframe == p.timeframe
           && f.closeAt == p.closeTime && f.cutoff == e.cutoff
           && |f.evidence| > 0 && f.evidence[0] == Captured("market_data", Available, Some(Dumped(p, text)))
      else after == before
  {
    assert (captures + [e])[..|captures|] == captures;
    CaptureSeesNoFuture(e, text);
  }

  lemma CapturedAvailability(f: Frame, text: Time -> string, k: nat)
    requires Genuine(f, text) && k < |f.evidence|
    ensures f.evidence[k].availability != Stale
    ensures f.evidence[0].availability == Available
  {
    var e: Envelope :| PayloadError(e.payload).None? && Required(e.payload.timeframe) && FrameOf(e, text) == Ok(f);
    EngineIsCaptured(e, Dumped(e.payload, text), f, k);
  }

  lemma EngineIsCaptured(e: Envelope, raw: Json, f: Frame, k: nat)
    requires FrameWith(e, raw) == Ok(f) && k < |f.evidence|
    ensures f.evidence[k].availability != Stale
    ensures f.evidence[0].availability == Available
  {
    OneItemPerEngine(ENGINES, e);
    if k > 0 {
      EngineIsCapturedAs(ENGINES, e, k - 1);
      assert f.evidence[k] == EngineEvidence(ENGINES, e).value[k - 1];
    }
  }

  // ---- what a state can know ----

  /** The frame may be used: of the instrument and timeframe, closed by the boundary, and captured by the cutoff. */
  predicate Usable(f: Frame, instrument: string, timeframe: string, boundary: Time, cutoff: Time) {
    f.instrument == instrument && f.timeframe == timeframe && f.closeAt <= boundary && f.cutoff <= cutoff
  }

  /** A frame is found exactly when a usable one is stored, and it is one of them. */
  lemma {:induction false} LatestFrameIsUsable(frames: seq<Frame>, instrument: string, timeframe: string,
                                               boundary: Time, cutoff: Time)
    ensures var best := LatestFrame(frames, instrument, timeframe, boundary, cutoff);
      && (best.Some? <==> exists f | f in frames :: Usable(f, instrument, timeframe, boundary, cutoff))
      && (best.Some? ==> best.value in frames && Usable(best.value, instrument, timeframe, boundary, cutoff))
  {
    LatestFrameIsLatest(frames, instrument, timeframe, boundary, cutoff);
    assert forall f :: Usable(f, instrument, timeframe, boundary, cutoff)
                  <==> Knowable(f, instrument, timeframe, boundary, cutoff);
  }

  lemma {:induction false} StoredFrameHasItsCapture(captures: seq<Envelope>, text: Time -> string, f: Frame)
    returns (e: Envelope)
    requires f in Frames(captures, text)
    ensures e in captures && FrameOf(e, text) == Ok(f)
    decreases |captures|
  {
    var n := |captures| - 1;
    if f in Frames(captures[..n], text) {
      e := StoredFrameHasItsCapture(captures[..n], text, f);
    } else {
      e := captures[n];
    }
  }

  /** The capture knew nothing after the cutoff: not its candle, and no engine's output. */
  predicate KnownBy(e: Envelope, cutoff: Time) {
    && e.cutoff <= cutoff && e.payload.closeTime <= cutoff
    && forall engine | engine in ENGINES && engine in e.outputs ::
         e.outputs[engine].observed <= cutoff && e.outputs[engine].available <= cutoff
  }

  lemma FrameIsKnown(e: Envelope, text: Time -> string, f: Frame, cutoff: Time)
    requires FrameOf(e, text) == Ok(f) && f.cutoff <= cutoff
    ensures KnownBy(e, cutoff) && f.closeAt == e.payload.closeTime
  {
    CaptureSeesNoFuture(e, text);
    forall engine | engine in ENGINES && engine in e.outputs
      ensures e.outputs[engine].observed <= cutoff && e.outputs[engine].available <= cutoff
    {
      var i :| 0 <= i < |ENGINES| && ENGINES[i] == engine;
      assert InTime(ENGINES[i], e);
    }
  }

  /** No look-ahead, end to end: every item of a synchronised state belongs to the frame of a capture that closed by the
    * boundary and knew nothing after the state's knowledge cutoff. */
  lemma {:induction false} StatesKnowNoFuture(captures: seq<Envelope>, text: Time -> string, instrument: string,
                                              fastEnd: Time, slowEnd: Time, cutoff: Time, k: nat)
    returns (e: Envelope)
    requires SynchronizedAt(Frames(captures, text), instrument, fastEnd, slowEnd, cutoff).Some?
    requires k < |SynchronizedAt(Frames(captures, text), instrument, fastEnd, slowEnd, cutoff).value|
    ensures var item := SynchronizedAt(Frames(captures, text), instrument, fastEnd, slowEnd, cutoff).value[k];
      && e in captures && KnownBy(e, cutoff) && FrameOf(e, text).Ok?
      && item.frame == FrameOf(e, text).value.Id() && item.closeAt == e.payload.closeTime
      && (item.closeAt <= fastEnd || item.closeAt <= slowEnd)
  {
    var frames := Frames(captures, text);
    LatestFrameIsUsable(frames, instrument, "M5", fastEnd, cutoff);
    LatestFrameIsUsable(frames, instrument, "M15", slowEnd, cutoff);
    var fast := LatestFrame(frames, instrument, "M5", fastEnd, cutoff).value;
    var slow := LatestFrame(frames, instrument, "M15", slowEnd, cutoff).value;
    var f := if k < |fast.evidence| then fast else slow;
    e := StoredFrameHasItsCapture(captures, text, f);
    FrameIsKnown(e, text, f, cutoff);
    var items := SynchronizedAt(frames, instrument, fastEnd, slowEnd, cutoff).value;
    assert k < |fast.evidence| ==> items[k] == Items(fast, fastEnd)[k];
    assert k >= |fast.evidence| ==> items[k] == Items(slow, slowEnd)[k - |fast.evidence|];
  }

  // ---- the stale mark ----

  /** A frame closes on time. */
  ghost predicate OnTime(frames: seq<Frame>, instrument: string, timeframe: string, end: Time, cutoff: Time) {
    exists f | f in frames :: Knowable(f, instrument, timeframe, end, cutoff) && f.closeAt == end
  }

  lemma LatestIsOnTimeExactly(frames: seq<Frame>, instrument: string, timeframe: string, end: Time, cutoff: Time)
    requires LatestFrame(frames, instrument, timeframe, end, cutoff).Some?
    ensures LatestFrame(frames, instrument, timeframe, end, cutoff).value.closeAt < end
       <==> !OnTime(frames, instrument, timeframe, end, cutoff)
  {
    LatestFrameIsLatest(frames, instrument, timeframe, end, cutoff);
    var best := LatestFrame(frames, instrument, timeframe, end, cutoff).value;
    if OnTime(frames, instrument, timeframe, end, cutoff) {
      var f :| f in frames && Knowable(f, instrument, timeframe, end, cutoff) && f.closeAt == end;
    }
  }

  lemma MarkOfItem(f: Frame, expected: Time, text: Time -> string, k: nat)
    requires Genuine(f, text) && k < |f.evidence|
    ensures var mark := Items(f, expected)[k].availability;
      && (mark == Stale <==> f.evidence[k].availability == Available && f.closeAt < expected)
      && (mark != Stale ==> mark == f.evidence[k].availability)
    ensures Items(f, expected)[0].availability in {Stale, Available}
  {
    CapturedAvailability(f, text, k);
  }

  /** In a synchronised state the price evidence of a timeframe is stale exactly when no knowable frame closes at the
    * end of that timeframe; of the other evidence, what was available at capture is. */
  lemma {:induction false} StaleExactlyWhenBehind(frames: seq<Frame>, instrument: string, fastEnd: Time, slowEnd: Time,
                                                  cutoff: Time, text: Time -> string, k: nat)
    requires SynchronizedAt(frames, instrument, fastEnd, slowEnd, cutoff).Some?
    requires forall f | f in frames :: Genuine(f, text)
    ensures var items := SynchronizedAt(frames, instrument, fastEnd, slowEnd, cutoff).value;
      var fast := LatestFrame(frames, instrument, "M5", fastEnd, cutoff).value;
      var slow := LatestFrame(frames, instrument, "M15", slowEnd, cutoff).value;
      var n := |fast.evidence|;
      && |items| == n + |slow.evidence|
      && (k < n ==> (items[k].availability == Stale <==>
            fast.evidence[k].availability == Available && !OnTime(frames, instrument, "M5", fastEnd, cutoff)))
      && (k < |slow.evidence| ==> (items[n + k].availability == Stale <==>
            slow.evidence[k].availability == Available && !OnTime(frames, instrument, "M15", slowEnd, cutoff)))
      && (n > 0 ==> fast.evidence[0].availability == Available)
      && (|slow.evidence| > 0 ==> slow.evidence[0].availability == Available)
  {
    LatestFrameIsLatest(frames, instrument, "M5", fastEnd, cutoff);
    LatestFrameIsLatest(frames, instrument, "M15", slowEnd, cutoff);
    LatestIsOnTimeExactly(frames, instrument, "M5", fastEnd, cutoff);
    LatestIsOnTimeExactly(frames, instrument, "M15", slowEnd, cutoff);
    var fast := LatestFrame(frames, instrument, "M5", fastEnd, cutoff).value;
    var slow := LatestFrame(frames, instrument, "M15", slowEnd, cutoff).value;
    if k < |fast.evidence| { MarkOfItem(fast, fastEnd, text, k); }
    if k < |slow.evidence| { MarkOfItem(slow, slowEnd, text, k); }
    if |fast.evidence| > 0 { CapturedAvailability(fast, text, 0); }
    if |slow.evidence| > 0 { CapturedAvailability(slow, text, 0); }
  }

  /** The end of a timeframe is the last whole multiple of its minutes. */
  lemma AlignedIsTheLastMultiple(boundary: Time, minutes: nat)
    requires minutes > 0
    ensures exists n: int ::
      Aligned(boundary, minutes) == n * minutes * 60 && n * minutes * 60 <= boundary < (n + 1) * minutes * 60
  {
    var m := boundary / 60;
    var n := m / minutes;
    assert m == n * minutes + m % minutes;
    assert (n + 1) * minutes == n * minutes + minutes;
    assert Aligned(boundary, minutes) == n * minutes * 60;
    assert boundary < (m + 1) * 60 <= (n + 1) * minutes * 60;
  }
}
