/** Worked examples of the base parser's extraction rules on concrete texts. */
module ParserExamples {
  import opened Wrappers
  import opened JsText
  import opened Types
  import opened StreamParsing

  // ---------------------------------------------------------------------------
  // Size: "1.5 GB"

  lemma SmallDigitValues()
    ensures DigitsValue("1") == 1 && DigitsValue("5") == 5
  {
    assert "1"[..0] == "";
    assert "5"[..0] == "";
  }

  lemma OnePointFiveRuns()
    ensures DigitRun("1.5", 0) == 1 && DigitRun("1.5", 2) == 1
  {
    var n := "1.5";
    assert n[0] == '1' && n[1] == '.' && n[2] == '5';
    assert DigitRun(n, 1) == 0;
    assert DigitRun(n, 3) == 0;
  }

  lemma OnePointFivePrefix()
    ensures UnsignedDecimalPrefix("1.5") == Some((1.5, 3))
  {
    var n := "1.5";
    OnePointFiveRuns();
    SmallDigitValues();
    assert n[..1] == "1" && n[2..3] == "5";
    assert Pow10(1) == 10;
  }

  lemma OnePointFiveFloat()
    ensures ParseFloat("1.5") == Some(1.5)
  {
    OnePointFivePrefix();
    var n := "1.5";
    TrimStartOfDigits(n);
  }

  lemma UpperGB()
    ensures Upper("GB") == "GB"
  {
    assert Upper("GB")[0] == 'G' && Upper("GB")[1] == 'B';
  }

  /** The size regex finds number "1.5" and unit "GB" in "1.5 GB". */
  lemma SizeRegexExample()
    ensures DefaultSizeRegex("1.5 GB") == Some(SizeMatch("1.5", "GB"))
  {
    var s := "1.5 GB";
    assert s[0] == '1' && s[1] == '.' && s[2] == '5' && s[3] == ' ' && s[4] == 'G' && s[5] == 'B';
    assert DigitRun(s, 1) == 0;
    assert DigitRun(s, 0) == 1;
    assert DigitRun(s, 3) == 0;
    assert DigitRun(s, 2) == 1;
    assert s[4..6] == "GB";
    UpperGB();
    assert s[0..3] == "1.5";
    assert SizeAt(s, 0) == Some(SizeMatch("1.5", "GB"));
  }

  lemma GigabyteFactors()
    ensures UnitFactor("GB", 1024) == 1073741824.0
    ensures UnitFactor("GB", 1000) == 1000000000.0
  {
    UpperGB();
    assert UnitExponent("GB") == 3;
  }

  lemma BytesOfMatch(cfg: ParserConfig, text: string, m: SizeMatch, v: real)
    requires cfg.sizeRegex.Some? && cfg.sizeRegex.value(text) == Some(m)
    requires UnitFactor(m.unit, cfg.sizeK) != 0.0 && ParseFloat(m.number) == Some(v)
    ensures CalculateBytes(cfg, text) == Num(Scale(v, UnitFactor(m.unit, cfg.sizeK)))
  {
  }

  /** "1.5 GB" is 1.5 * 1024^3 bytes with the base parser's size pattern and k = 1024. */
  lemma SizeUnitExample(cfg: ParserConfig)
    requires cfg.sizeRegex.Some? && cfg.sizeRegex.value("1.5 GB") == DefaultSizeRegex("1.5 GB")
    requires cfg.sizeK == 1024
    ensures CalculateBytes(cfg, "1.5 GB") == Num(1.5 * 1073741824.0)
  {
    SizeRegexExample();
    OnePointFiveFloat();
    GigabyteFactors();
    BytesOfMatch(cfg, "1.5 GB", SizeMatch("1.5", "GB"), 1.5);
  }

  /** A 1000-based provider with the same pattern reads "1.5 GB" as 1.5 * 1000^3 bytes. */
  lemma SizeUnitExampleBase1000(cfg: ParserConfig)
    requires cfg.sizeRegex.Some? && cfg.sizeRegex.value("1.5 GB") == DefaultSizeRegex("1.5 GB")
    requires cfg.sizeK == 1000
    ensures CalculateBytes(cfg, "1.5 GB") == Num(1.5 * 1000000000.0)
  {
    SizeRegexExample();
    OnePointFiveFloat();
    GigabyteFactors();
    BytesOfMatch(cfg, "1.5 GB", SizeMatch("1.5", "GB"), 1.5);
  }

  /** Without size hints, a non-zero size found in the description is the size. */
  lemma SizeFromDescriptionOnly(cfg: ParserConfig, s: RawStream, filename: Option<string>, folder: Option<string>)
    requires s.videoSize.None? && s.size.None? && s.sizeBytes.None? && s.sizebytes.None?
    requires TextOperand(cfg, SizeDescription(s, filename, folder)).Truthy()
    ensures GetSize(cfg, s, filename, folder) == SizeNumber(TextOperand(cfg, SizeDescription(s, filename, folder)))
  {
    NoHintOperands(cfg, s, filename, folder);
    assert FirstTruthyAt(SizeOperands(cfg, s, filename, folder), 4);
  }

  /** The four hint operands of a stream without size hints are all falsy. */
  lemma NoHintOperands(cfg: ParserConfig, s: RawStream, filename: Option<string>, folder: Option<string>)
    requires s.videoSize.None? && s.size.None? && s.sizeBytes.None? && s.sizebytes.None?
    ensures var ops := SizeOperands(cfg, s, filename, folder);
      forall j :: 0 <= j < 4 ==> !ops[j].Truthy()
  {
    var ops := SizeOperands(cfg, s, filename, folder);
    assert ops[0] == Missing && ops[1] == Missing && ops[2] == Missing && ops[3] == Missing;
    forall j | 0 <= j < 4
      ensures !ops[j].Truthy()
    {
      assert j == 0 || j == 1 || j == 2 || j == 3;
    }
  }

  /** A stream whose only size information is "1.5 GB" in its description has size
      1610612736, 1.5 * 1024^3 rounded. */
  lemma SizeFromDescriptionExample(env: Environment, s: RawStream)
    requires s.description == Some("1.5 GB") && s.name.None?
    requires s.videoSize.None? && s.size.None? && s.sizeBytes.None? && s.sizebytes.None?
    ensures GetSize(DefaultConfig(env), s, None, None) == Finite(1610612736)
  {
    SizeUnitExample(DefaultConfig(env));
    assert 1.5 * 1073741824.0 == 1610612736.0;
    SizeFromDescriptionOnly(DefaultConfig(env), s, None, None);
    assert JsRound(1610612736.0) == 1610612736;
  }

  // ---------------------------------------------------------------------------
  // Indexer: the captured text keeps the blank before the next emoji

  lemma IndexerEmojiAtStart()
    ensures EmojiLengthAt("\U{1F310} SomeIndexer \U{1F464} 120", 0, IndexerEmojis) == Some(1)
  {
    var d := "\U{1F310} SomeIndexer \U{1F464} 120";
    assert d[0..1] == IndexerEmojis[0];
  }

  lemma IndexerBlankAfterEmoji()
    ensures SpaceRun("\U{1F310} SomeIndexer \U{1F464} 120", 1) == 1
  {
    var d := "\U{1F310} SomeIndexer \U{1F464} 120";
    assert d[1] == ' ' && d[2] == 'S';
    assert SpaceRun(d, 2) == 0;
  }

  lemma IndexerNameChars()
    ensures var d := "\U{1F310} SomeIndexer \U{1F464} 120";
      forall j :: 2 <= j < 14 ==> IsAsciiLetter(d[j]) || d[j] == ' '
  {
    var d := "\U{1F310} SomeIndexer \U{1F464} 120";
    var t := "SomeIndexer ";
    assert d == "\U{1F310} " + t + "\U{1F464} 120";
    assert forall j :: 0 <= j < |t| ==> IsAsciiLetter(t[j]) || t[j] == ' ';
  }

  lemma {:induction false} PlainRunUpTo(s: string, i: nat, k: nat, ep: char -> bool)
    requires i <= k <= |s|
    requires forall j :: i <= j < k ==> !ep(s[j]) && s[j] != '\n'
    requires k == |s| || ep(s[k])
    ensures PlainRun(s, i, ep) == k - i
    decreases k - i
  {
    if i < k {
      PlainRunUpTo(s, i + 1, k, ep);
    }
  }

  /** The indexer after the globe emoji runs up to the next emoji, the blank
      before that emoji included. */
  lemma IndexerKeepsTrailingBlank(ep: char -> bool)
    requires ep('\U{1F464}')
    requires forall c :: IsAsciiLetter(c) || c == ' ' ==> !ep(c)
    ensures TextAfterEmojis("\U{1F310} SomeIndexer \U{1F464} 120", IndexerEmojis, ep) == Some("SomeIndexer ")
  {
    var d := "\U{1F310} SomeIndexer \U{1F464} 120";
    IndexerTextAtStart(ep);
    FirstWhereAtStart(|d|, (j: nat) => TextAfterEmojisAt(d, IndexerEmojis, ep, j).Some?);
  }

  lemma IndexerTextAtStart(ep: char -> bool)
    requires ep('\U{1F464}')
    requires forall c :: IsAsciiLetter(c) || c == ' ' ==> !ep(c)
    ensures TextAfterEmojisAt("\U{1F310} SomeIndexer \U{1F464} 120", IndexerEmojis, ep, 0) == Some("SomeIndexer ")
  {
    var d := "\U{1F310} SomeIndexer \U{1F464} 120";
    IndexerEmojiAtStart();
    IndexerBlankAfterEmoji();
    IndexerNameChars();
    assert d[14] == '\U{1F464}';
    PlainRunUpTo(d, 2, 14, ep);
    IndexerSlice();
  }

  lemma IndexerSlice()
    ensures "\U{1F310} SomeIndexer \U{1F464} 120"[2..14] == "SomeIndexer "
  {
    var d := "\U{1F310} SomeIndexer \U{1F464} 120";
    assert d == "\U{1F310} " + "SomeIndexer " + "\U{1F464} 120";
  }

  // ---------------------------------------------------------------------------
  // Seeders and duration

  lemma DigitValue120()
    ensures DigitsValue("120") == 120
  {
    assert "120"[..2] == "12" && "12"[..1] == "1" && "1"[..0] == "";
  }

  lemma SeedersRegex120()
    ensures DefaultSeedersRegex("\U{1F464} 120") == Some("120")
  {
    var d := "\U{1F464} 120";
    assert d[0] == '\U{1F464}' && d[1] == ' ' && d[2] == '1' && d[3] == '2' && d[4] == '0';
    assert SpaceRun(d, 2) == 0;
    assert SpaceRun(d, 1) == 1;
    assert DigitRun(d, 5) == 0;
    assert DigitRun(d, 4) == 1;
    assert DigitRun(d, 3) == 2;
    assert DigitRun(d, 2) == 3;
    assert d[2..5] == "120";
    assert SeedersAt(d, 0) == Some("120");
  }

  /** "👤 120" gives 120 seeders. */
  lemma SeedersExample(env: Environment, s: RawStream)
    requires s.description == Some("\U{1F464} 120")
    ensures SeedersOf(DefaultConfig(env), s) == Finite(120)
  {
    SeedersRegex120();
    DigitValue120();
    ParseIntOfDigits("120");
  }

  lemma DigitValue30()
    ensures DigitsValue("30") == 30
  {
    assert "30"[..1] == "3" && "3"[..0] == "";
  }

  /** "1h 30m" is an hour and a half: 5400000 milliseconds. */
  lemma DurationExample()
    ensures DurationMs("1h 30m") == 5400000
  {
    var d := "1h 30m";
    assert d[0] == '1' && d[1] == 'h' && d[2] == ' ' && d[3] == '3' && d[4] == '0' && d[5] == 'm';
    assert DigitRun(d, 1) == 0;
    assert DigitRun(d, 0) == 1;
    assert DigitRun(d, 5) == 0;
    assert DigitRun(d, 3) == 2;
    assert d[0..1] == "1" && d[3..5] == "30";
    SmallDigitValues();
    DigitValue30();
    assert NumberWithUnit(d, 0, 'h') == Some((1, 2));
    assert Gap(d, 2) == 3;
    assert NumberWithUnit(d, 3, 'm') == Some((30, 6));
    assert DurationAt(d, 0) == Some(Duration(1, 30, 0));
  }

  // ---------------------------------------------------------------------------
  // Cached detection

  /** A text lacks `t` when it lacks one of `t`'s characters. */
  lemma MissingCharNotContained(s: string, t: string, k: nat)
    requires k < |t| && t[k] !in s
    ensures !Contains(s, t)
  {
    ContainsIff(s, t);
  }

  /** The uncached markers are compared case-sensitively, so a lower-case
      "uncached" reads as cached through the "cached" marker. */
  lemma LowerCaseUncachedReadsCached()
    ensures CachedFlag("RD uncached")
  {
    var s := "RD uncached";
    assert !ContainsAny(s, UncachedSymbols) by {
      forall k | 0 <= k < |UncachedSymbols| ensures !Contains(s, UncachedSymbols[k]) {
        if k == 1 {
          MissingCharNotContained(s, UncachedSymbols[k], 2);
        } else {
          MissingCharNotContained(s, UncachedSymbols[k], 0);
        }
      }
    }
    assert Contains(s, CachedSymbols[3]) by {
      assert s[5..11] == CachedSymbols[3];
      ContainsIff(s, CachedSymbols[3]);
    }
  }
}
