/** The provider texts that stand for a regime label, as tokens, and the alias table that this amounts to. */
module RegimeTokens {
  import opened Domain
  import opened JsonSchemas
  import opened Normalizer

  // The texts that each regime label answers to, as tokens: lower-case letters and digits alone.

  const BULLISH := ["bullish", "bull", "bullishmarket", "bullishregime", "bullishtrend", "bullishexpansion",
                    "expansionbull", "expansionbullish", "compressionbull", "compressionbullish"]
  const BEARISH := ["bearish", "bear", "bearishmarket", "bearishregime", "bearishtrend", "bearishexpansion",
                    "expansionbear", "expansionbearish", "compressionbear", "compressionbearish"]
  const RANGING := ["ranging", "range", "rangebound", "sideways"]
  const TRANSITIONAL := ["transitional", "transition", "transitioning"]
  const UNCERTAIN := ["uncertain", "indeterminate", "unknown"]

  /** The regime label a token stands for. */
  function RegimeOf(token: string): Option<string> {
    if token in BULLISH then Some("bullish")
    else if token in BEARISH then Some("bearish")
    else if token in RANGING then Some("ranging")
    else if token in TRANSITIONAL then Some("transitional")
    else if token in UNCERTAIN then Some("uncertain")
    else None
  }

  // ---- tokens of the aliases ----

  predicate Plain(s: string) {
    forall i | 0 <= i < |s| :: IsTokenChar(s[i])
  }

  lemma PlainToken(s: string)
    requires Plain(s)
    ensures EnumToken(s) == s
  {
    PlainTokensStay(s);
  }

  lemma {:induction false} TokenOfConcatenation(a: string, b: string)
    ensures EnumToken(a + b) == EnumToken(a) + EnumToken(b)
  {
    if a == "" {
      assert a + b == b;
    } else {
      assert (a + b)[1..] == a[1..] + b && (a + b)[0] == a[0];
      TokenOfConcatenation(a[1..], b);
      var first := if IsTokenChar(Lowered(a[0])) then [Lowered(a[0])] else "";
      assert EnumToken(a) == first + EnumToken(a[1..]);
      assert EnumToken(a + b) == first + EnumToken(a[1..] + b);
    }
  }

  lemma JoinedToken(a: string, b: string)
    requires Plain(a) && Plain(b)
    ensures EnumToken(a + "_" + b) == a + b
  {
    PlainToken(a);
    PlainToken(b);
    TokenOfConcatenation(a + "_", b);
    TokenOfConcatenation(a, "_");
    UnderscoreIsDropped();
    assert a + "" == a;
  }

  lemma UnderscoreIsDropped()
    ensures EnumToken("_") == ""
  {}

  /** The tokens of a list of aliases. */
  ghost predicate TokensOf(aliases: seq<string>, tokens: seq<string>) {
    |aliases| == |tokens| && forall i | 0 <= i < |aliases| :: EnumToken(aliases[i]) == tokens[i]
  }

  lemma {:induction false} AliasUnder(aliases: seq<string>, regime: string, tokens: seq<string>, token: string)
    requires TokensOf(aliases, tokens)
    ensures AliasFor(Under(aliases, regime), token) == if token in tokens then Some(regime) else None
    decreases |aliases|
  {
    if aliases != [] {
      AliasUnder(aliases[1..], regime, tokens[1..], token);
      assert Under(aliases, regime)[1..] == Under(aliases[1..], regime);
      assert tokens == [tokens[0]] + tokens[1..];
    }
  }

  lemma {:induction false} AliasOfConcatenation(a: seq<(string, string)>, b: seq<(string, string)>, token: string)
    ensures AliasFor(a + b, token) == if AliasFor(a, token).Some? then AliasFor(a, token) else AliasFor(b, token)
    decreases |a|
  {
    if a == [] {
      assert a + b == b;
    } else {
      assert (a + b)[1..] == a[1..] + b;
      AliasOfConcatenation(a[1..], b, token);
    }
  }

  lemma PlainPieces()
    ensures Plain("bullish") && Plain("bearish") && Plain("bull") && Plain("bear") && Plain("range") && Plain("bound")
    ensures Plain("market") && Plain("regime") && Plain("trend") && Plain("expansion") && Plain("compression")
  {}

  lemma BullishTokens()
    ensures EnumToken("bullish_market") == "bullishmarket"
    ensures EnumToken("bullish_regime") == "bullishregime"
    ensures EnumToken("bullish_trend") == "bullishtrend"
    ensures EnumToken("bullish_expansion") == "bullishexpansion"
  {
    PlainPieces();
    assert "bullish" + "_" + "market" == "bullish_market" && "bullish" + "market" == "bullishmarket";
    JoinedToken("bullish", "market");
    assert "bullish" + "_" + "regime" == "bullish_regime" && "bullish" + "regime" == "bullishregime";
    JoinedToken("bullish", "regime");
    assert "bullish" + "_" + "trend" == "bullish_trend" && "bullish" + "trend" == "bullishtrend";
    JoinedToken("bullish", "trend");
    assert "bullish" + "_" + "expansion" == "bullish_expansion" && "bullish" + "expansion" == "bullishexpansion";
    JoinedToken("bullish", "expansion");
  }

  lemma BearishTokens()
    ensures EnumToken("bearish_market") == "bearishmarket"
    ensures EnumToken("bearish_regime") == "bearishregime"
    ensures EnumToken("bearish_trend") == "bearishtrend"
    ensures EnumToken("bearish_expansion") == "bearishexpansion"
  {
    PlainPieces();
    assert "bearish" + "_" + "market" == "bearish_market" && "bearish" + "market" == "bearishmarket";
    JoinedToken("bearish", "market");
    assert "bearish" + "_" + "regime" == "bearish_regime" && "bearish" + "regime" == "bearishregime";
    JoinedToken("bearish", "regime");
    assert "bearish" + "_" + "trend" == "bearish_trend" && "bearish" + "trend" == "bearishtrend";
    JoinedToken("bearish", "trend");
    assert "bearish" + "_" + "expansion" == "bearish_expansion" && "bearish" + "expansion" == "bearishexpansion";
    JoinedToken("bearish", "expansion");
  }

  lemma ExpansionTokens()
    ensures EnumToken("expansion_bull") == "expansionbull"
    ensures EnumToken("expansion_bullish") == "expansionbullish"
    ensures EnumToken("expansion_bear") == "expansionbear"
    ensures EnumToken("expansion_bearish") == "expansionbearish"
  {
    PlainPieces();
    assert "expansion" + "_" + "bull" == "expansion_bull" && "expansion" + "bull" == "expansionbull";
    JoinedToken("expansion", "bull");
    assert "expansion" + "_" + "bullish" == "expansion_bullish" && "expansion" + "bullish" == "expansionbullish";
    JoinedToken("expansion", "bullish");
    assert "expansion" + "_" + "bear" == "expansion_bear" && "expansion" + "bear" == "expansionbear";
    JoinedToken("expansion", "bear");
    assert "expansion" + "_" + "bearish" == "expansion_bearish" && "expansion" + "bearish" == "expansionbearish";
    JoinedToken("expansion", "bearish");
  }

  lemma CompressionTokens()
    ensures EnumToken("compression_bull") == "compressionbull"
    ensures EnumToken("compression_bullish") == "compressionbullish"
    ensures EnumToken("compression_bear") == "compressionbear"
    ensures EnumToken("compression_bearish") == "compressionbearish"
  {
    PlainPieces();
    assert "compression" + "_" + "bull" == "compression_bull" && "compression" + "bull" == "compressionbull";
    JoinedToken("compression", "bull");
    assert "compression" + "_" + "bullish" == "compression_bullish" && "compression" + "bullish" == "compressionbullish";
    JoinedToken("compression", "bullish");
    assert "compression" + "_" + "bear" == "compression_bear" && "compression" + "bear" == "compressionbear";
    JoinedToken("compression", "bear");
    assert "compression" + "_" + "bearish" == "compression_bearish" && "compression" + "bearish" == "compressionbearish";
    JoinedToken("compression", "bearish");
  }

  lemma SimpleTokens()
    ensures EnumToken("bull") == "bull" && EnumToken("bear") == "bear" && EnumToken("range") == "range"
    ensures EnumToken("range_bound") == "rangebound"
  {
    PlainPieces();
    PlainToken("bull");
    PlainToken("bear");
    PlainToken("range");
    assert "range" + "_" + "bound" == "range_bound" && "range" + "bound" == "rangebound";
    JoinedToken("range", "bound");
  }

  lemma PlainWords()
    ensures Plain("sideways") && Plain("transition") && Plain("transitioning")
    ensures Plain("indeterminate") && Plain("unknown")
  {}

  lemma LongTokens()
    ensures EnumToken("sideways") == "sideways" && EnumToken("transition") == "transition"
    ensures EnumToken("transitioning") == "transitioning" && EnumToken("indeterminate") == "indeterminate"
    ensures EnumToken("unknown") == "unknown"
  {
    PlainWords();
    PlainToken("sideways");
    PlainToken("transition");
    PlainToken("transitioning");
    PlainToken("indeterminate");
    PlainToken("unknown");
  }

  lemma TwoTokens(a: string, b: string, s: string, t: string)
    requires EnumToken(a) == s && EnumToken(b) == t
    ensures TokensOf([a, b], [s, t])
  {}

  lemma ThreeTokens(a: string, b: string, c: string, s: string, t: string, u: string)
    requires EnumToken(a) == s && EnumToken(b) == t && EnumToken(c) == u
    ensures TokensOf([a, b, c], [s, t, u])
  {}

  lemma NineTokens(a1: string, a2: string, a3: string, a4: string, a5: string, a6: string, a7: string, a8: string,
                   a9: string, t1: string, t2: string, t3: string, t4: string, t5: string, t6: string, t7: string,
                   t8: string, t9: string)
    requires EnumToken(a1) == t1 && EnumToken(a2) == t2 && EnumToken(a3) == t3
    requires EnumToken(a4) == t4 && EnumToken(a5) == t5 && EnumToken(a6) == t6
    requires EnumToken(a7) == t7 && EnumToken(a8) == t8 && EnumToken(a9) == t9
    ensures TokensOf([a1, a2, a3, a4, a5, a6, a7, a8, a9], [t1, t2, t3, t4, t5, t6, t7, t8, t9])
  {}

  lemma BullishAliases()
    ensures TokensOf(BULLISH_ALIASES, BULLISH[1..])
  {
    SimpleTokens();
    BullishTokens();
    ExpansionTokens();
    CompressionTokens();
    assert BULLISH[1..] == ["bull", "bullishmarket", "bullishregime", "bullishtrend", "bullishexpansion",
                            "expansionbull", "expansionbullish", "compressionbull", "compressionbullish"];
    NineTokens("bull", "bullish_market", "bullish_regime", "bullish_trend", "bullish_expansion", "expansion_bull",
               "expansion_bullish", "compression_bull", "compression_bullish", "bull", "bullishmarket",
               "bullishregime", "bullishtrend", "bullishexpansion", "expansionbull", "expansionbullish",
               "compressionbull", "compressionbullish");
  }

  lemma BearishAliases()
    ensures TokensOf(BEARISH_ALIASES, BEARISH[1..])
  {
    SimpleTokens();
    BearishTokens();
    ExpansionTokens();
    CompressionTokens();
    assert BEARISH[1..] == ["bear", "bearishmarket", "bearishregime", "bearishtrend", "bearishexpansion",
                            "expansionbear", "expansionbearish", "compressionbear", "compressionbearish"];
    NineTokens("bear", "bearish_market", "bearish_regime", "bearish_trend", "bearish_expansion", "expansion_bear",
               "expansion_bearish", "compression_bear", "compression_bearish", "bear", "bearishmarket",
               "bearishregime", "bearishtrend", "bearishexpansion", "expansionbear", "expansionbearish",
               "compressionbear", "compressionbearish");
  }

  lemma OtherAliases()
    ensures TokensOf(RANGING_ALIASES, RANGING[1..])
    ensures TokensOf(TRANSITIONAL_ALIASES, TRANSITIONAL[1..])
    ensures TokensOf(UNCERTAIN_ALIASES, UNCERTAIN[1..])
  {
    SimpleTokens();
    LongTokens();
    assert RANGING[1..] == ["range", "rangebound", "sideways"];
    assert TRANSITIONAL[1..] == ["transition", "transitioning"] && UNCERTAIN[1..] == ["indeterminate", "unknown"];
    ThreeTokens("range", "range_bound", "sideways", "range", "rangebound", "sideways");
    TwoTokens("transition", "transitioning", "transition", "transitioning");
    TwoTokens("indeterminate", "unknown", "indeterminate", "unknown");
  }

  // ---- the table ----

  /** The label of an alias, token by token. */
  function AliasOf(token: string): Option<string> {
    if token in BULLISH[1..] then Some("bullish")
    else if token in BEARISH[1..] then Some("bearish")
    else if token in RANGING[1..] then Some("ranging")
    else if token in TRANSITIONAL[1..] then Some("transitional")
    else if token in UNCERTAIN[1..] then Some("uncertain")
    else None
  }

  lemma AliasTable(token: string)
    ensures AliasFor(REGIME_ALIASES, token) == AliasOf(token)
  {
    var a, b, c := Under(BULLISH_ALIASES, "bullish"), Under(BEARISH_ALIASES, "bearish"), Under(RANGING_ALIASES, "ranging");
    var d, e := Under(TRANSITIONAL_ALIASES, "transitional"), Under(UNCERTAIN_ALIASES, "uncertain");
    AliasOfConcatenation(a + b + c + d, e, token);
    AliasOfConcatenation(a + b + c, d, token);
    AliasOfConcatenation(a + b, c, token);
    AliasOfConcatenation(a, b, token);
    BullishAliases();
    BearishAliases();
    OtherAliases();
    AliasUnder(BULLISH_ALIASES, "bullish", BULLISH[1..], token);
    AliasUnder(BEARISH_ALIASES, "bearish", BEARISH[1..], token);
    AliasUnder(RANGING_ALIASES, "ranging", RANGING[1..], token);
    AliasUnder(TRANSITIONAL_ALIASES, "transitional", TRANSITIONAL[1..], token);
    AliasUnder(UNCERTAIN_ALIASES, "uncertain", UNCERTAIN[1..], token);
  }
}
