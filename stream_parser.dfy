/** The base stream parser: one raw upstream stream record becomes a structured
    `ParsedStream`, or the parse fails with an error message.  Addon-specific
    parsers differ only in the hooks of `ParserConfig`; `DefaultConfig` is the
    behaviour of the base class. */
module StreamParsing {
  import opened Wrappers
  import opened JsText
  import opened Types

  // ---------------------------------------------------------------------------
  // Input records and the parser's environment

  /** A size hint as an upstream record carries it: a number or a numeric text. */
  datatype SizeHint = NumberHint(n: real) | TextHint(t: string)

  /** The fields of an upstream stream record that the parser reads. */
  datatype RawStream = RawStream(
    url: Option<string>,
    externalUrl: Option<string>,
    ytId: Option<string>,
    infoHash: Option<string>,
    fileIdx: Option<int>,
    sources: Option<seq<string>>,
    name: Option<string>,
    title: Option<string>,
    description: Option<string>,
    /** `behaviorHints.filename` */
    filenameHint: Option<string>,
    /** `behaviorHints.videoSize` */
    videoSize: Option<SizeHint>,
    /** the historically named size fields `size`, `sizeBytes` and `sizebytes` */
    size: Option<SizeHint>,
    sizeBytes: Option<SizeHint>,
    sizebytes: Option<SizeHint>,
    notWebReady: Option<bool>,
    videoHash: Option<string>)

  /** One entry of the language table. */
  datatype LanguageEntry = LanguageEntry(
    flag: string,
    flagPriority: bool,
    internalEnglishName: Option<string>,
    englishName: Option<string>)

  /** What the parser takes from the rest of the system: the filename parser, the
      service and language tables, and the Unicode properties its regular
      expressions test. */
  datatype Environment = Environment(
    parseFile: string -> ParsedFile,
    services: seq<ServiceDetail>,
    easynewsServiceId: string,
    languageMapping: seq<LanguageEntry>,
    languages: seq<string>,
    isEmojiPresentation: char -> bool,
    isLetterOrNumber: char -> bool)

  /** An error pattern and the message thrown when it matches. */
  datatype ErrorRule = ErrorRule(pattern: string -> bool, message: string)

  /** Groups 1 and 3 of a size regex match: the number and the unit. */
  datatype SizeMatch = SizeMatch(number: string, unit: string)

  type SizeBase = k: nat | k == 1000 || k == 1024 witness 1024

  /** The overridable hooks of a parser.  A regex hook returns group 1 of its first
      match, or `None` when it does not match; a match whose group 1 is undefined
      is taken as no match. An error reported by `getError` is any `Some`, the
      empty text included. */
  datatype ParserConfig = ParserConfig(
    errorRegexes: Option<seq<ErrorRule>>,
    filenameRegex: Option<string -> Option<string>>,
    folderNameRegex: Option<string -> Option<string>>,
    sizeRegex: Option<string -> Option<SizeMatch>>,
    sizeK: SizeBase,
    seedersRegex: Option<string -> Option<string>>,
    indexerRegex: Option<string -> Option<string>>,
    ageRegex: Option<string -> Option<string>>,
    applyUrlModifications: Option<string> -> Option<string>,
    getError: RawStream -> Option<string>,
    getMessage: RawStream -> Option<string>,
    getFolderSize: RawStream -> JsNumber)

  const InvalidCredentialsMessage := "Invalid account or apikey or token"
  const MissingPropertyMessage := "Invalid stream, missing a required stream property"

  /** The emojis that introduce an indexer name: globe, gear, link, the two
      magnifying glasses and cloud (gear and cloud with variation selector 16). */
  const IndexerEmojis: seq<string> :=
    ["\U{1F310}", "\U{2699}\U{FE0F}", "\U{1F517}", "\U{1F50E}", "\U{1F50D}", "\U{2601}\U{FE0F}"]

  /** The behaviour of the base parser. */
  function DefaultConfig(env: Environment): (c: ParserConfig)
    ensures c.sizeK == 1024 && c.errorRegexes.Some? && |c.errorRegexes.value| == 1
    ensures c.filenameRegex.None? && c.folderNameRegex.None? && c.ageRegex.None?
    ensures forall u :: c.applyUrlModifications(u) == u
    ensures c.sizeRegex.Some? && forall s :: c.sizeRegex.value(s) == DefaultSizeRegex(s)
    ensures c.seedersRegex.Some? && forall s :: c.seedersRegex.value(s) == DefaultSeedersRegex(s)
    ensures c.indexerRegex.Some?
    ensures forall s :: c.indexerRegex.value(s) == TextAfterEmojis(s, IndexerEmojis, env.isEmojiPresentation)
  {
    ParserConfig(
      Some([ErrorRule(s => InvalidCredentials(s), InvalidCredentialsMessage)]),
      None,
      None,
      Some(s => DefaultSizeRegex(s)),
      1024,
      Some(s => DefaultSeedersRegex(s)),
      Some(s => TextAfterEmojis(s, IndexerEmojis, env.isEmojiPresentation)),
      None,
      u => u,
      s => None,
      s => None,
      s => Undefined)
  }

  // ---------------------------------------------------------------------------
  // The base parser's regular expressions

  /** `/invalid\s+\w+\s+(account|apikey|token)/i` matching at `i`. */
  predicate InvalidCredentialsAt(s: string, i: nat) {
    MatchesAtIgnoreCase(s, i, "invalid") &&
    var a := i + 7;
    var w1 := SpaceRun(s, a);
    w1 > 0 &&
    var b := a + w1;
    var w2 := WordRun(s, b);
    w2 > 0 &&
    var c := b + w2;
    var w3 := SpaceRun(s, c);
    w3 > 0 &&
    var d := c + w3;
    (MatchesAtIgnoreCase(s, d, "account") || MatchesAtIgnoreCase(s, d, "apikey")
     || MatchesAtIgnoreCase(s, d, "token"))
  }

  predicate InvalidCredentials(s: string) {
    exists i :: 0 <= i <= |s| && InvalidCredentialsAt(s, i)
  }

  predicate IsSizeUnit(u: string) { u == "KB" || u == "MB" || u == "GB" || u == "TB" }

  /** `/(\d+(\.\d+)?)\s?(KB|MB|GB|TB)/i` matching at `i`. */
  function SizeAt(s: string, i: nat): (r: Option<SizeMatch>)
    ensures r.Some? ==> IsSizeUnit(Upper(r.value.unit)) && |r.value.number| > 0
  {
    if i > |s| then None
    else
      var d := DigitRun(s, i);
      if d == 0 then None
      else
        var j := i + d;
        var f := if j + 1 < |s| && s[j] == '.' && IsDigit(s[j + 1]) then 1 + DigitRun(s, j + 1) else 0;
        var k := j + f;
        var u := if k < |s| && IsSpace(s[k]) then k + 1 else k;
        if u + 2 <= |s| && IsSizeUnit(Upper(s[u..u + 2])) then Some(SizeMatch(s[i..k], s[u..u + 2]))
        else None
  }

  /** The size pattern matches first at `i`. */
  predicate FirstSizeAt(s: string, i: nat) {
    i <= |s| && SizeAt(s, i).Some? && forall j :: 0 <= j < i ==> SizeAt(s, j).None?
  }

  /** `s.match(sizeRegex)`: the leftmost match. */
  function DefaultSizeRegex(s: string): (r: Option<SizeMatch>)
    ensures forall i: nat :: FirstSizeAt(s, i) ==> r == SizeAt(s, i)
    ensures (forall i :: 0 <= i <= |s| ==> SizeAt(s, i).None?) ==> r.None?
  {
    var p := (j: nat) => SizeAt(s, j).Some?;
    match FirstWhere(|s|, p, 0)
    case None =>
      assert forall i :: 0 <= i <= |s| ==> SizeAt(s, i).None? by {
        forall i | 0 <= i <= |s| ensures SizeAt(s, i).None? { assert !p(i); }
      }
      None
    case Some(j) =>
      assert forall i: nat :: FirstSizeAt(s, i) ==> i == j by {
        forall i: nat | FirstSizeAt(s, i) ensures i == j { assert p(i); }
      }
      SizeAt(s, j)
  }

  /** `/[👥👤]\s*(\d+)/u` matching at `i`. */
  function SeedersAt(s: string, i: nat): (r: Option<string>)
    ensures r.Some? ==> |r.value| > 0 && AllDigits(r.value)
  {
    if i >= |s| || !(s[i] == '\U{1F465}' || s[i] == '\U{1F464}') then None
    else
      var j := i + 1 + SpaceRun(s, i + 1);
      var d := DigitRun(s, j);
      if d == 0 then None else Some(s[j..j + d])
  }

  /** The seeders pattern matches first at `i`. */
  predicate FirstSeedersAt(s: string, i: nat) {
    i <= |s| && SeedersAt(s, i).Some? && forall j :: 0 <= j < i ==> SeedersAt(s, j).None?
  }

  /** Group 1 of the leftmost match of the seeders pattern. */
  function DefaultSeedersRegex(s: string): (r: Option<string>)
    ensures forall i: nat :: FirstSeedersAt(s, i) ==> r == SeedersAt(s, i)
    ensures (forall i :: 0 <= i <= |s| ==> SeedersAt(s, i).None?) ==> r.None?
  {
    var p := (j: nat) => SeedersAt(s, j).Some?;
    match FirstWhere(|s|, p, 0)
    case None =>
      assert forall i :: 0 <= i <= |s| ==> SeedersAt(s, i).None? by {
        forall i | 0 <= i <= |s| ensures SeedersAt(s, i).None? { assert !p(i); }
      }
      None
    case Some(j) =>
      assert forall i: nat :: FirstSeedersAt(s, i) ==> i == j by {
        forall i: nat | FirstSeedersAt(s, i) ensures i == j { assert p(i); }
      }
      SeedersAt(s, j)
  }

  /** Length of the first emoji of the list that occurs at `i`. */
  function EmojiLengthAt(s: string, i: nat, emojis: seq<string>): (r: Option<nat>)
    ensures r.Some? ==> i + r.value <= |s|
  {
    if |emojis| == 0 then None
    else if MatchesAt(s, i, emojis[0]) then Some(|emojis[0]|)
    else EmojiLengthAt(s, i, emojis[1..])
  }

  /** Length of the run at `i` of characters that are neither Emoji_Presentation nor `\n`. */
  function PlainRun(s: string, i: nat, ep: char -> bool): (n: nat)
    requires i <= |s|
    ensures i + n <= |s|
    ensures forall k :: i <= k < i + n ==> !ep(s[k]) && s[k] != '\n'
    ensures i + n < |s| ==> ep(s[i + n]) || s[i + n] == '\n'
    decreases |s| - i
  {
    if i < |s| && !ep(s[i]) && s[i] != '\n' then 1 + PlainRun(s, i + 1, ep) else 0
  }

  /** The regex "one of the emojis, blanks, then the shortest text up to the next
      Emoji_Presentation character, line feed or the end" matching at `i`. */
  function TextAfterEmojisAt(s: string, emojis: seq<string>, ep: char -> bool, i: nat): Option<string> {
    if i > |s| then None
    else
      match EmojiLengthAt(s, i, emojis)
      case None => None
      case Some(e) =>
        var j := i + e + SpaceRun(s, i + e);
        Some(s[j..j + PlainRun(s, j, ep)])
  }

  function TextAfterEmojis(s: string, emojis: seq<string>, ep: char -> bool): Option<string> {
    match FirstWhere(|s|, (j: nat) => TextAfterEmojisAt(s, emojis, ep, j).Some?, 0)
    case None => None
    case Some(j) => TextAfterEmojisAt(s, emojis, ep, j)
  }

  // ---------------------------------------------------------------------------
  // Duration

  datatype Duration = Duration(hours: nat, minutes: nat, seconds: nat)

  /** `(\d+)` followed by the unit letter (either case) at `i`: the value and the end. */
  function NumberWithUnit(s: string, i: nat, unit: char): (r: Option<(nat, nat)>)
    ensures r.Some? ==> i < r.value.1 <= |s|
  {
    if i > |s| then None
    else
      var d := DigitRun(s, i);
      if d > 0 && i + d < |s| && CharEqIgnoreCase(s[i + d], unit) then
        assert AllDigits(s[i..i + d]);
        Some((DigitsValue(s[i..i + d]), i + d + 1))
      else None
  }

  /** The optional `[:\s]` between two components. */
  function Gap(s: string, j: nat): nat {
    if j < |s| && (s[j] == ':' || IsSpace(s[j])) then j + 1 else j
  }

  predicate DurationAfter(s: string, j: nat) {
    j == |s| || (j < |s| && (IsSpace(s[j]) || s[j] in ")]_.-,"))
  }

  predicate DurationBefore(s: string, i: nat) {
    i == 0 || (i <= |s| && (IsSpace(s[i - 1]) || s[i - 1] in "[(_-,."))
  }

  /** The duration regex at `i`; its alternatives are tried in the order
      hours-minutes-seconds, hours-minutes, hours, minutes, seconds. */
  function DurationAt(s: string, i: nat): Option<Duration> {
    if !DurationBefore(s, i) || i > |s| then None
    else
      var h := NumberWithUnit(s, i, 'h');
      var hm := if h.Some? then NumberWithUnit(s, Gap(s, h.value.1), 'm') else None;
      var hms := if hm.Some? then NumberWithUnit(s, Gap(s, hm.value.1), 's') else None;
      var m := NumberWithUnit(s, i, 'm');
      var sec := NumberWithUnit(s, i, 's');
      if hms.Some? && DurationAfter(s, hms.value.1) then Some(Duration(h.value.0, hm.value.0, hms.value.0))
      else if hm.Some? && DurationAfter(s, hm.value.1) then Some(Duration(h.value.0, hm.value.0, 0))
      else if h.Some? && DurationAfter(s, h.value.1) then Some(Duration(h.value.0, 0, 0))
      else if m.Some? && DurationAfter(s, m.value.1) then Some(Duration(0, m.value.0, 0))
      else if sec.Some? && DurationAfter(s, sec.value.1) then Some(Duration(0, 0, sec.value.0))
      else None
  }

  function Milliseconds(d: Duration): nat {
    (d.hours * 3600 + d.minutes * 60 + d.seconds) * 1000
  }

  /** The duration regex matches first at `i`. */
  predicate FirstDurationAt(text: string, i: nat) {
    i <= |text| && DurationAt(text, i).Some? && forall j :: 0 <= j < i ==> DurationAt(text, j).None?
  }

  /** `getDuration`: the first duration in the text in milliseconds, 0 when there is none. */
  function DurationMs(text: string): (r: nat)
    ensures (forall i :: 0 <= i <= |text| ==> DurationAt(text, i).None?) ==> r == 0
    ensures forall i :: FirstDurationAt(text, i) ==> r == Milliseconds(DurationAt(text, i).value)
    ensures r != 0 ==> (exists i :: 0 <= i <= |text| && DurationAt(text, i).Some?
                          && r == Milliseconds(DurationAt(text, i).value))
  {
    var p := (j: nat) => DurationAt(text, j).Some?;
    match FirstWhere(|text|, p, 0)
    case None =>
      assert forall i :: 0 <= i <= |text| ==> DurationAt(text, i).None? by {
        forall i | 0 <= i <= |text| ensures DurationAt(text, i).None? { assert !p(i); }
      }
      0
    case Some(j) =>
      assert forall i :: FirstDurationAt(text, i) ==> i == j by {
        forall i | FirstDurationAt(text, i) ensures i == j { assert p(i); }
      }
      Milliseconds(DurationAt(text, j).value)
  }

  // ---------------------------------------------------------------------------
  // Info hash, country flags and languages

  /** A 40-digit hexadecimal run preceded by one of `-/[(;:&` and followed by one of `-])/:;&`. */
  function InfoHashAt(s: string, i: nat): (r: Option<string>)
    ensures r.Some? ==> |r.value| == 40 && AllRadixDigits(r.value, 16)
    ensures r.Some? ==> 0 < i && i + 40 < |s| && r.value == s[i..i + 40]
  {
    if i == 0 || i + 40 >= |s| then None
    else if s[i - 1] in "-/[(;:&" && AllRadixDigits(s[i..i + 40], 16) && s[i + 40] in "-])/:;&"
    then Some(s[i..i + 40])
    else None
  }

  /** The info-hash regex matches first at `i`. */
  predicate FirstInfoHashAt(s: string, i: nat) {
    i <= |s| && InfoHashAt(s, i).Some? && forall j :: 0 <= j < i ==> InfoHashAt(s, j).None?
  }

  /** `getInfoHash`: the first such run in the URL. */
  function InfoHashInUrl(url: Option<string>): (r: Option<string>)
    ensures r.Some? ==> |r.value| == 40 && AllRadixDigits(r.value, 16)
    ensures !Present(url) ==> r.None?
    ensures Present(url) ==> forall i :: FirstInfoHashAt(url.value, i) ==> r == InfoHashAt(url.value, i)
    ensures Present(url) && (forall i :: 0 <= i <= |url.value| ==> InfoHashAt(url.value, i).None?) ==> r.None?
  {
    if !Present(url) then None
    else
      var p := (j: nat) => InfoHashAt(url.value, j).Some?;
      match FirstWhere(|url.value|, p, 0)
      case None =>
        assert forall i :: 0 <= i <= |url.value| ==> InfoHashAt(url.value, i).None? by {
          forall i | 0 <= i <= |url.value| ensures InfoHashAt(url.value, i).None? { assert !p(i); }
        }
        None
      case Some(j) =>
        assert forall i :: FirstInfoHashAt(url.value, i) ==> i == j by {
          forall i | FirstInfoHashAt(url.value, i) ensures i == j { assert p(i); }
        }
        InfoHashAt(url.value, j)
  }

  predicate IsRegionalIndicator(c: char) { '\U{1F1E6}' <= c <= '\U{1F1FF}' }

  /** All non-overlapping pairs of regional indicator symbols at or after `i`, left to right. */
  function CountryFlags(s: string, i: nat): (r: seq<string>)
    ensures forall k :: 0 <= k < |r| ==>
      |r[k]| == 2 && IsRegionalIndicator(r[k][0]) && IsRegionalIndicator(r[k][1])
    decreases |s| - i
  {
    if i + 1 >= |s| then []
    else if IsRegionalIndicator(s[i]) && IsRegionalIndicator(s[i + 1]) then [s[i..i + 2]] + CountryFlags(s, i + 2)
    else CountryFlags(s, i + 1)
  }

  /** The table entries for a flag, in table order. */
  function EntriesForFlag(mapping: seq<LanguageEntry>, flag: string): (r: seq<LanguageEntry>)
    ensures forall e :: e in r <==> e in mapping && e.flag == flag
    ensures |r| <= |mapping|
  {
    if |mapping| == 0 then []
    else if mapping[0].flag == flag then [mapping[0]] + EntriesForFlag(mapping[1..], flag)
    else EntriesForFlag(mapping[1..], flag)
  }

  /** Adding an entry at the end of the table adds it at the end of the entries
      for its flag, and nothing for any other flag. */
  lemma {:induction false} EntriesForFlagSnoc(mapping: seq<LanguageEntry>, e: LanguageEntry, flag: string)
    ensures EntriesForFlag(mapping + [e], flag)
         == EntriesForFlag(mapping, flag) + (if e.flag == flag then [e] else [])
    decreases |mapping|
  {
    if |mapping| == 0 {
      assert mapping + [e] == [e];
    } else {
      assert (mapping + [e])[1..] == mapping[1..] + [e];
      EntriesForFlagSnoc(mapping[1..], e, flag);
    }
  }

  /** `possible.find(l => l.flag_priority)`, as a position. */
  function FirstPriority(entries: seq<LanguageEntry>): (r: Option<nat>)
    ensures r.Some? ==> r.value < |entries| && entries[r.value].flagPriority
    ensures r.Some? ==> forall k :: 0 <= k < r.value ==> !entries[k].flagPriority
    ensures r.None? ==> forall k :: 0 <= k < |entries| ==> !entries[k].flagPriority
  {
    if |entries| == 0 then None
    else if entries[0].flagPriority then Some(0)
    else
      match FirstPriority(entries[1..])
      case Some(k) => Some(k + 1)
      case None => None
  }

  /** An entry's internal English name, else its English name, up to the first `(`
      and trimmed; empty when the entry has neither. */
  function EntryLanguage(e: LanguageEntry): string {
    var t := if Present(e.internalEnglishName) then e.internalEnglishName else e.englishName;
    if t.None? then "" else Trim(Split(t.value, '(')[0])
  }

  /** `languageName && LANGUAGES.includes(languageName)`. */
  function Supported(env: Environment, name: string): (r: Option<string>)
    ensures r.Some? <==> name != "" && name in env.languages
    ensures r.Some? ==> r.value == name
  {
    if name != "" && name in env.languages then Some(name) else None
  }

  /** The language a flag stands for: the language of the first prioritised table
      entry for the flag, else of its first entry, when it is a supported language. */
  function LanguageForFlag(env: Environment, flag: string): (r: Option<string>)
    ensures r.Some? ==> r.value != "" && r.value in env.languages
    ensures EntriesForFlag(env.languageMapping, flag) == [] ==> r.None?
    ensures var possible := EntriesForFlag(env.languageMapping, flag);
      FirstPriority(possible).Some? ==> r == Supported(env, EntryLanguage(possible[FirstPriority(possible).value]))
    ensures var possible := EntriesForFlag(env.languageMapping, flag);
      FirstPriority(possible).None? && |possible| > 0 ==> r == Supported(env, EntryLanguage(possible[0]))
  {
    var possible := EntriesForFlag(env.languageMapping, flag);
    var entry := match FirstPriority(possible)
      case Some(k) => Some(possible[k])
      case None => if |possible| > 0 then Some(possible[0]) else None;
    if entry.None? then None else Supported(env, EntryLanguage(entry.value))
  }

  /** The supported languages of the flags, in flag order; a flag without one
      contributes nothing. */
  function FlagLanguages(env: Environment, flags: seq<string>): (r: seq<string>)
    ensures forall k :: 0 <= k < |r| ==> r[k] in env.languages
    ensures forall l :: l in r <==> exists k :: 0 <= k < |flags| && LanguageForFlag(env, flags[k]) == Some(l)
    ensures |r| <= |flags|
  {
    if |flags| == 0 then []
    else
      var rest := FlagLanguages(env, flags[1..]);
      var r := FlagHead(env, flags[0]) + rest;
      assert forall l :: l in r <==> exists k :: 0 <= k < |flags| && LanguageForFlag(env, flags[k]) == Some(l) by {
        forall l
          ensures l in r <==> exists k :: 0 <= k < |flags| && LanguageForFlag(env, flags[k]) == Some(l)
        {
          if l in r {
            if l !in rest {
              assert LanguageForFlag(env, flags[0]) == Some(l);
            } else {
              var k :| 0 <= k < |flags| - 1 && LanguageForFlag(env, flags[1..][k]) == Some(l);
              assert flags[k + 1] == flags[1..][k];
            }
          }
          if exists k :: 0 <= k < |flags| && LanguageForFlag(env, flags[k]) == Some(l) {
            var k :| 0 <= k < |flags| && LanguageForFlag(env, flags[k]) == Some(l);
            if k > 0 {
              assert flags[1..][k - 1] == flags[k];
            }
          }
        }
      }
      r
  }

  /** What one flag contributes: its language, if it has one. */
  function FlagHead(env: Environment, flag: string): seq<string> {
    match LanguageForFlag(env, flag) case Some(l) => [l] case None => []
  }

  lemma FlagLanguagesUnfold(env: Environment, flags: seq<string>)
    requires |flags| > 0
    ensures FlagLanguages(env, flags) == FlagHead(env, flags[0]) + FlagLanguages(env, flags[1..])
  {
  }

  lemma {:induction false} FlagLanguagesAppend(env: Environment, a: seq<string>, b: seq<string>)
    ensures FlagLanguages(env, a + b) == FlagLanguages(env, a) + FlagLanguages(env, b)
    decreases |a|
  {
    if |a| == 0 {
      assert a + b == b;
    } else {
      var t := a + b;
      assert t[0] == a[0] && t[1..] == a[1..] + b;
      FlagLanguagesAppend(env, a[1..], b);
      FlagLanguagesUnfold(env, t);
      FlagLanguagesUnfold(env, a);
      AppendAssoc(FlagHead(env, a[0]), FlagLanguages(env, a[1..]), FlagLanguages(env, b));
    }
  }

  /** The distinct flags of an optional text, in order of first occurrence. */
  function TextFlags(t: Option<string>): (r: seq<string>)
    ensures Distinct(r)
    ensures forall f :: f in r <==> t.Some? && f in CountryFlags(t.value, 0)
  {
    if t.Some? then DedupDistinct(CountryFlags(t.value, 0)); Dedup(CountryFlags(t.value, 0)) else []
  }

  /** `getLanguages`: the languages of the distinct flags of the description, then
      those of the distinct flags of the name. */
  function GetLanguages(env: Environment, s: RawStream): (r: seq<string>)
    ensures r == FlagLanguages(env, TextFlags(s.description)) + FlagLanguages(env, TextFlags(s.name))
    ensures forall l :: l in r ==> l in env.languages
    ensures forall l :: l in r <==>
      exists f :: (LanguageForFlag(env, f) == Some(l)
                   && ((s.description.Some? && f in CountryFlags(s.description.value, 0))
                       || (s.name.Some? && f in CountryFlags(s.name.value, 0))))
  {
    FlagLanguagesAppend(env, TextFlags(s.description), TextFlags(s.name));
    FlagLanguages(env, TextFlags(s.description) + TextFlags(s.name))
  }

  // ---------------------------------------------------------------------------
  // Service detection

  const UncachedSymbols: seq<string> := ["\U{23F3}", "download", "UNCACHED"]
  const CachedSymbols: seq<string> := ["+", "\U{26A1}", "\U{1F680}", "cached"]

  predicate ContainsAny(s: string, symbols: seq<string>) {
    exists k :: 0 <= k < |symbols| && Contains(s, symbols[k])
  }

  /** An uncached marker wins over a cached one; with neither the stream is uncached. */
  function CachedFlag(s: string): (r: bool)
    ensures r <==> !ContainsAny(s, UncachedSymbols) && ContainsAny(s, CachedSymbols)
  {
    if ContainsAny(s, UncachedSymbols) then false
    else if ContainsAny(s, CachedSymbols) then true
    else false
  }

  /** Length of a case-insensitive `web-?dl` at `i`. */
  function WebDlAt(s: string, i: nat): (r: Option<nat>)
    ensures r.Some? ==> i + r.value <= |s|
  {
    if MatchesAtIgnoreCase(s, i, "web-dl") then Some(6)
    else if MatchesAtIgnoreCase(s, i, "webdl") then Some(5)
    else None
  }

  /** `replace(/web-?dl/i, '')`: the first occurrence is removed. */
  function StripWebDl(s: string): string {
    match FirstWhere(|s|, (j: nat) => WebDlAt(s, j).Some?, 0)
    case None => s
    case Some(j) => s[..j] + s[j + WebDlAt(s, j).value..]
  }

  const ServiceFollowers := " \U{2B07}\U{FE0F}\U{23F3}\U{26A1}+/|)]_.-"

  /** The per-service regex: a known name (compared case-insensitively) that starts
      the text or a line, or follows one of ` |[(_/-.`, and that is followed by the
      end, a line end, or one of ` ⬇ FE0F ⏳ ⚡ + / | ) ] _ . -`. */
  predicate ServiceNameAt(s: string, i: nat, name: string) {
    i <= |s|
    && (i == 0 || IsLineTerminator(s[i - 1]) || s[i - 1] in " |[(_/-.")
    && MatchesAtIgnoreCase(s, i, name)
    && var e := i + |name|; (e == |s| || IsLineTerminator(s[e]) || s[e] in ServiceFollowers)
  }

  predicate ServiceMatches(s: string, names: seq<string>) {
    exists i, k :: 0 <= i <= |s| && 0 <= k < |names| && ServiceNameAt(s, i, names[k])
  }

  /** The last service among the first `n` whose names occur in the text. */
  function LastMatchingService(services: seq<ServiceDetail>, clean: string, n: nat): (r: Option<nat>)
    requires n <= |services|
    ensures r.Some? ==> r.value < n && ServiceMatches(clean, services[r.value].knownNames)
    ensures r.Some? ==> forall k :: r.value < k < n ==> !ServiceMatches(clean, services[k].knownNames)
    ensures r.None? ==> forall k :: 0 <= k < n ==> !ServiceMatches(clean, services[k].knownNames)
  {
    if n == 0 then None
    else if ServiceMatches(clean, services[n - 1].knownNames) then Some(n - 1)
    else LastMatchingService(services, clean, n - 1)
  }

  function ServiceAt(env: Environment, name: string, found: Option<nat>): Option<ServiceInfo>
    requires found.Some? ==> found.value < |env.services|
  {
    match found
    case None => None
    case Some(k) => Some(ServiceInfo(env.services[k].id, CachedFlag(name)))
  }

  /** Service `k` matches the cleaned text and no later one does. */
  predicate LastServiceAt(services: seq<ServiceDetail>, clean: string, k: nat) {
    k < |services| && ServiceMatches(clean, services[k].knownNames)
    && forall j :: k < j < |services| ==> !ServiceMatches(clean, services[j].knownNames)
  }

  /** `parseServiceData`: every service is checked in table order, so the last
      matching service wins; its cached flag comes from the uncleaned text. */
  function ServiceData(env: Environment, name: string): (r: Option<ServiceInfo>)
    ensures forall k: nat :: LastServiceAt(env.services, StripWebDl(name), k) ==>
              r == Some(ServiceInfo(env.services[k].id, CachedFlag(name)))
    ensures r.Some? ==> r.value.cached == CachedFlag(name)
    ensures r.Some? ==> (exists k :: 0 <= k < |env.services| && env.services[k].id == r.value.id
                           && ServiceMatches(StripWebDl(name), env.services[k].knownNames))
    ensures r.None? <==> forall k :: 0 <= k < |env.services| ==>
              !ServiceMatches(StripWebDl(name), env.services[k].knownNames)
  {
    ServiceAt(env, name, LastMatchingService(env.services, StripWebDl(name), |env.services|))
  }

  method ParseServiceData(env: Environment, name: string) returns (service: Option<ServiceInfo>)
    ensures service == ServiceData(env, name)
  {
    var clean := StripWebDl(name);
    service := None;
    for k := 0 to |env.services|
      invariant service == ServiceAt(env, name, LastMatchingService(env.services, clean, k))
    {
      if ServiceMatches(clean, env.services[k].knownNames) {
        service := Some(ServiceInfo(env.services[k].id, CachedFlag(name)));
      }
    }
  }

  // ---------------------------------------------------------------------------
  // Errors

  /** The message of the first rule whose pattern matches. */
  function FirstError(rules: seq<ErrorRule>, text: string): (r: Option<string>)
    ensures r.Some? ==> (exists k :: 0 <= k < |rules| && rules[k].pattern(text) && rules[k].message == r.value
                           && forall j :: 0 <= j < k ==> !rules[j].pattern(text))
    ensures r.None? <==> forall k :: 0 <= k < |rules| ==> !rules[k].pattern(text)
  {
    if |rules| == 0 then None
    else if rules[0].pattern(text) then Some(rules[0].message)
    else
      var r := FirstError(rules[1..], text);
      assert r.Some? ==> (exists k :: 1 <= k < |rules| && rules[k].pattern(text) && rules[k].message == r.value
                            && forall j :: 0 <= j < k ==> !rules[j].pattern(text)) by {
        if r.Some? {
          var k :| 0 <= k < |rules[1..]| && rules[1..][k].pattern(text) && rules[1..][k].message == r.value
                   && forall j :: 0 <= j < k ==> !rules[1..][j].pattern(text);
          assert forall j :: 0 <= j < k + 1 ==> !rules[j].pattern(text) by {
            forall j | 0 <= j < k + 1 ensures !rules[j].pattern(text) {
              if j > 0 { assert rules[j] == rules[1..][j - 1]; }
            }
          }
        }
      }
      r
  }

  /** `raiseErrorIfNecessary`: the message to throw, if any. */
  function RaiseErrorIfNecessary(cfg: ParserConfig, text: string): (r: Option<string>)
    ensures cfg.errorRegexes.None? ==> r.None?
    ensures cfg.errorRegexes.Some? ==> r == FirstError(cfg.errorRegexes.value, text)
  {
    match cfg.errorRegexes
    case None => None
    case Some(rules) => FirstError(rules, text)
  }

  // ---------------------------------------------------------------------------
  // Text fields

  /** `stream.description || stream.title`. */
  function DescriptionOrTitle(s: RawStream): (r: Option<string>)
    ensures Present(s.description) ==> r == s.description
    ensures !Present(s.description) ==> r == s.title
  {
    if Present(s.description) then s.description else s.title
  }

  /** The record after `stream.description = stream.description || stream.title`. */
  function Normalise(s: RawStream): RawStream {
    s.(description := DescriptionOrTitle(s))
  }

  /** `stream.description || stream.title || ''`. */
  function SearchText(s: RawStream): string {
    if Present(s.description) then s.description.value
    else if Present(s.title) then s.title.value
    else ""
  }

  /** A regex hook applied to a field that may be absent. */
  function Capture(re: Option<string -> Option<string>>, text: Option<string>): Option<string> {
    if re.None? || text.None? then None else re.value(text.value)
  }

  // ---------------------------------------------------------------------------
  // Filename and folder

  predicate NonZero(n: Option<int>) { n.Some? && n.value != 0 }

  /** A line the filename parser finds a year or an episode in. */
  predicate Informative(p: ParsedFile) {
    Present(p.year) || (NonZero(p.season) && NonZero(p.episode)) || NonZero(p.episode)
  }

  /** `lines.filter(line => line.trim() !== '')`. */
  function NonBlankLines(lines: seq<string>): (r: seq<string>)
    ensures forall l :: l in r <==> l in lines && !IsBlank(l)
    ensures |r| <= |lines|
  {
    if |lines| == 0 then []
    else if IsBlank(lines[0]) then NonBlankLines(lines[1..])
    else [lines[0]] + NonBlankLines(lines[1..])
  }

  /** A line added at the end is kept at the end exactly when it is not blank. */
  lemma {:induction false} NonBlankLinesSnoc(lines: seq<string>, l: string)
    ensures NonBlankLines(lines + [l]) == NonBlankLines(lines) + (if IsBlank(l) then [] else [l])
    decreases |lines|
  {
    if |lines| == 0 {
      assert lines + [l] == [l];
    } else {
      assert (lines + [l])[1..] == lines[1..] + [l];
      NonBlankLinesSnoc(lines[1..], l);
    }
  }

  /** Line `k` is the first line whose parse shows a year or an episode. */
  predicate FirstInformativeAt(env: Environment, lines: seq<string>, k: nat) {
    k < |lines| && Informative(env.parseFile(lines[k]))
    && forall j :: 0 <= j < k ==> !Informative(env.parseFile(lines[j]))
  }

  function FirstInformative(env: Environment, lines: seq<string>): (r: Option<string>)
    ensures r.Some? ==> r.value in lines && Informative(env.parseFile(r.value))
    ensures r.None? <==> forall k :: 0 <= k < |lines| ==> !Informative(env.parseFile(lines[k]))
    ensures forall k: nat :: FirstInformativeAt(env, lines, k) ==> r == Some(lines[k])
  {
    if |lines| == 0 then None
    else if Informative(env.parseFile(lines[0])) then Some(lines[0])
    else
      var r := FirstInformative(env, lines[1..]);
      assert forall k: nat :: FirstInformativeAt(env, lines, k) ==> k > 0 && FirstInformativeAt(env, lines[1..], k - 1) by {
        forall k: nat | FirstInformativeAt(env, lines, k) ensures k > 0 && FirstInformativeAt(env, lines[1..], k - 1) {
          assert k > 0;
          forall j | 0 <= j < k - 1 ensures !Informative(env.parseFile(lines[1..][j])) {
            assert lines[1..][j] == lines[j + 1];
          }
        }
      }
      r
  }

  /** Length of the run of Emoji_Presentation characters at `i`. */
  function EmojiRun(s: string, i: nat, ep: char -> bool): (n: nat)
    requires i <= |s|
    ensures i + n <= |s|
    ensures forall k :: i <= k < i + n ==> ep(s[k])
    decreases |s| - i
  {
    if i < |s| && ep(s[i]) then 1 + EmojiRun(s, i + 1, ep) else 0
  }

  /** Trimmed, without leading Emoji_Presentation characters, and without a leading
      `label:` (text before the first colon) and the blanks after it. */
  function CleanFilename(env: Environment, line: string): string {
    var t := Trim(line);
    var u := t[EmojiRun(t, 0, env.isEmojiPresentation)..];
    match IndexOf(u, ":")
    case Some(c) => if c > 0 then u[c + 1 + SpaceRun(u, c + 1)..] else u
    case None => u
  }

  /** The lines the filename is looked for in: the first five non-blank lines. */
  function FilenameCandidates(d: string): (r: seq<string>)
    ensures |r| <= 5 && |r| <= |NonBlankLines(Split(d, '\n'))| && r == NonBlankLines(Split(d, '\n'))[..|r|]
    ensures |NonBlankLines(Split(d, '\n'))| >= 5 ==> |r| == 5
    ensures |NonBlankLines(Split(d, '\n'))| < 5 ==> r == NonBlankLines(Split(d, '\n'))
  {
    Take(NonBlankLines(Split(d, '\n')), 5)
  }

  /** The line the filename comes from: the first candidate whose parse shows a
      year or an episode, else the description's first line. */
  function FilenameLine(env: Environment, d: string): (r: string)
    ensures forall k: nat :: FirstInformativeAt(env, FilenameCandidates(d), k) ==> r == FilenameCandidates(d)[k]
    ensures (forall k :: 0 <= k < |FilenameCandidates(d)| ==> !Informative(env.parseFile(FilenameCandidates(d)[k])))
              ==> r == Split(d, '\n')[0]
  {
    match FirstInformative(env, FilenameCandidates(d))
    case Some(l) => l
    case None => Split(d, '\n')[0]
  }

  /** `getFilename`: the filename hint; else group 1 of the filename regex on the
      description; else the filename line, cleaned. */
  function FilenameOf(cfg: ParserConfig, env: Environment, s: RawStream): (r: Option<string>)
    ensures Present(s.filenameHint) ==> r == s.filenameHint
    ensures !Present(s.filenameHint) && !Present(s.description) ==> r.None?
    ensures !Present(s.filenameHint) && Present(s.description) ==>
      var d := s.description.value;
      (cfg.filenameRegex.Some? && cfg.filenameRegex.value(d).Some? ==> r == cfg.filenameRegex.value(d))
      && (cfg.filenameRegex.None? || cfg.filenameRegex.value(d).None? ==> r == Some(CleanFilename(env, FilenameLine(env, d))))
  {
    if Present(s.filenameHint) then s.filenameHint
    else if !Present(s.description) then None
    else
      var d := s.description.value;
      if cfg.filenameRegex.Some? && cfg.filenameRegex.value(d).Some? then cfg.filenameRegex.value(d)
      else Some(CleanFilename(env, FilenameLine(env, d)))
  }

  method GetFilename(cfg: ParserConfig, env: Environment, s: RawStream) returns (filename: Option<string>)
    ensures filename == FilenameOf(cfg, env, s)
  {
    filename := s.filenameHint;
    if Present(filename) {
      return;
    }
    var description := s.description;
    if !Present(description) {
      return None;
    }
    if cfg.filenameRegex.Some? {
      var m := cfg.filenameRegex.value(description.value);
      if m.Some? {
        return m;
      }
    }
    var lines := Split(description.value, '\n');
    var potential := FilenameCandidates(description.value);
    var i := 0;
    while i < |potential|
      invariant 0 <= i <= |potential|
      invariant filename == s.filenameHint
      invariant forall j :: 0 <= j < i ==> !Informative(env.parseFile(potential[j]))
    {
      if Informative(env.parseFile(potential[i])) {
        assert FirstInformativeAt(env, potential, i);
        assert potential[i] in NonBlankLines(lines);
        filename := Some(potential[i]);
        break;
      }
      i := i + 1;
    }
    if !Present(filename) {
      filename := Some(lines[0]);
    }
    filename := Some(CleanFilename(env, filename.value));
  }

  /** The folder and filename reduced to what identifies the content: the longest
      trailing video extension removed, everything but letters, numbers and `+`
      dropped, lower-cased. */
  const VideoExtensions: seq<string> :=
    ["mkv", "mp4", "avi", "mov", "wmv", "flv", "webm", "m4v", "mpg", "mpeg", "3gp", "3g2",
     "m2ts", "ts", "vob", "ogv", "ogm", "divx", "xvid", "rm", "rmvb", "asf", "mxf", "mka",
     "mks", "mk3d", "webm", "f4v", "f4p", "f4a", "f4b"]

  /** `replace(/(mkv|...)$/i, '')`: the leftmost, so longest, suffix that is a video
      extension (ignoring case) is removed; the text is unchanged without one. */
  function StripVideoExtension(s: string): (r: string)
    ensures |r| <= |s| && r == s[..|r|]
    ensures |r| < |s| ==> Lower(s[|r|..]) in VideoExtensions
    ensures forall j :: 0 <= j < |r| ==> Lower(s[j..]) !in VideoExtensions
  {
    var p := (j: nat) => j <= |s| && Lower(s[j..]) in VideoExtensions;
    match FirstWhere(|s|, p, 0)
    case None =>
      assert forall j :: 0 <= j < |s| ==> Lower(s[j..]) !in VideoExtensions by {
        forall j | 0 <= j < |s| ensures Lower(s[j..]) !in VideoExtensions { assert !p(j); }
      }
      s
    case Some(j) =>
      assert forall i :: 0 <= i < j ==> Lower(s[i..]) !in VideoExtensions by {
        forall i | 0 <= i < j ensures Lower(s[i..]) !in VideoExtensions { assert !p(i); }
      }
      s[..j]
  }

  /** `replace(/[^\p{L}\p{N}+]/gu, '')`: exactly the letters, numbers and `+` are kept. */
  function KeepLettersAndNumbers(s: string, isLN: char -> bool): (r: string)
    ensures forall c :: c in r <==> c in s && (isLN(c) || c == '+')
    ensures |r| <= |s|
  {
    if |s| == 0 then ""
    else if isLN(s[0]) || s[0] == '+' then [s[0]] + KeepLettersAndNumbers(s[1..], isLN)
    else KeepLettersAndNumbers(s[1..], isLN)
  }

  /** A character added at the end is kept at the end exactly when it is a letter, a
      number or `+`: the kept characters stay in order. */
  lemma {:induction false} KeepLettersAndNumbersSnoc(s: string, c: char, isLN: char -> bool)
    ensures KeepLettersAndNumbers(s + [c], isLN)
         == KeepLettersAndNumbers(s, isLN) + (if isLN(c) || c == '+' then [c] else [])
    decreases |s|
  {
    if |s| == 0 {
      assert s + [c] == [c];
    } else {
      assert (s + [c])[1..] == s[1..] + [c];
      KeepLettersAndNumbersSnoc(s[1..], c, isLN);
    }
  }

  function NormaliseText(env: Environment, text: string): string {
    Trim(Lower(KeepLettersAndNumbers(StripVideoExtension(text), env.isLetterOrNumber)))
  }

  /** A folder with the same normalised text as the filename is dropped. */
  function CollapseFolder(env: Environment, folder: Option<string>, filename: Option<string>): (r: Option<string>)
    ensures r.None? <==> (folder.None? || (Present(folder) && Present(filename)
                          && NormaliseText(env, folder.value) == NormaliseText(env, filename.value)))
    ensures r.Some? ==> r == folder
  {
    if Present(folder) && Present(filename) && NormaliseText(env, folder.value) == NormaliseText(env, filename.value)
    then None
    else folder
  }

  // ---------------------------------------------------------------------------
  // Size

  /** An operand of the size chain as JavaScript sees it. */
  datatype SizeValue = Missing | Num(r: real) | NotNumber | Text(t: string) {
    predicate Truthy() { (Num? && r != 0.0) || (Text? && t != "") }
  }

  /** How many times a size unit multiplies by k, compared case-insensitively; 0
      for any other unit. */
  function UnitExponent(unit: string): nat {
    var u := Upper(unit);
    if u == "TB" then 4
    else if u == "GB" then 3
    else if u == "MB" then 2
    else if u == "KB" then 1
    else 0
  }

  function Power(b: nat, e: nat): nat {
    if e == 0 then 1 else b * Power(b, e - 1)
  }

  /** A parsed size number times its unit's multiplier. */
  function Scale(v: real, factor: real): real { v * factor }

  /** The multiplier of a size unit: k to the unit's exponent, 0 for any other unit. */
  function UnitFactor(unit: string, k: SizeBase): real {
    var e := UnitExponent(unit);
    if e == 0 then 0.0 else Power(k, e) as real
  }

  /** KB, MB, GB and TB multiply by k, k², k³ and k⁴; any other unit by 0. */
  lemma UnitFactorByUnit(unit: string, k: SizeBase)
    ensures Upper(unit) == "KB" ==> UnitFactor(unit, k) == k as real
    ensures Upper(unit) == "MB" ==> UnitFactor(unit, k) == (k * k) as real
    ensures Upper(unit) == "GB" ==> UnitFactor(unit, k) == (k * k * k) as real
    ensures Upper(unit) == "TB" ==> UnitFactor(unit, k) == (k * k * k * k) as real
    ensures !IsSizeUnit(Upper(unit)) ==> UnitFactor(unit, k) == 0.0
  {
    assert Power(k, 1) == k;
    assert Power(k, 2) == k * k;
    assert Power(k, 3) == k * k * k;
    assert Power(k, 4) == k * k * k * k;
  }

  /** `calculateBytesFromSizeString`: the first size in the text in bytes; `Missing`
      without a size regex, 0 when it does not match or the unit is unknown. */
  function CalculateBytes(cfg: ParserConfig, text: string): (r: SizeValue)
    ensures cfg.sizeRegex.None? <==> r.Missing?
    ensures cfg.sizeRegex.Some? && cfg.sizeRegex.value(text).None? ==> r == Num(0.0)
    ensures cfg.sizeRegex.Some? && cfg.sizeRegex.value(text).Some? ==>
      var m := cfg.sizeRegex.value(text).value;
      var factor := UnitFactor(m.unit, cfg.sizeK);
      (factor == 0.0 ==> r == Num(0.0))
      && (factor != 0.0 && ParseFloat(m.number).None? ==> r == NotNumber)
      && (factor != 0.0 && ParseFloat(m.number).Some? ==> r == Num(Scale(ParseFloat(m.number).value, factor)))
    ensures !r.Text?
  {
    match cfg.sizeRegex
    case None => Missing
    case Some(re) =>
      match re(text)
      case None => Num(0.0)
      case Some(m) =>
        var factor := UnitFactor(m.unit, cfg.sizeK);
        if factor == 0.0 then Num(0.0)
        else match ParseFloat(m.number)
          case None => NotNumber
          case Some(v) => Num(Scale(v, factor))
  }

  function HintOperand(h: Option<SizeHint>): SizeValue {
    match h
    case None => Missing
    case Some(NumberHint(n)) => Num(n)
    case Some(TextHint(t)) => Text(t)
  }

  /** `(text && calculateBytesFromSizeString(text))`. */
  function TextOperand(cfg: ParserConfig, text: Option<string>): SizeValue {
    match text
    case None => Missing
    case Some(t) => if t == "" then Text("") else CalculateBytes(cfg, t)
  }

  /** JavaScript `a || b`. */
  function OrElse(a: SizeValue, b: SizeValue): SizeValue {
    if a.Truthy() then a else b
  }

  function JsRound(x: real): int { (x + 0.5).Floor }

  /** The description with the filename's and then the folder's first occurrence removed. */
  function SizeDescription(s: RawStream, filename: Option<string>, folder: Option<string>): Option<string> {
    var d := s.description;
    var d1 := if Present(filename) && Present(d) then Some(ReplaceFirst(d.value, filename.value, "")) else d;
    if Present(folder) && Present(d1) then Some(ReplaceFirst(d1.value, folder.value, "")) else d1
  }

  /** The operands of the size chain, in order: the video-size hint, the three size
      fields, the size in the description and the size in the name. */
  function SizeOperands(cfg: ParserConfig, s: RawStream, filename: Option<string>, folder: Option<string>): (ops: seq<SizeValue>)
    ensures |ops| == 6
  {
    [HintOperand(s.videoSize), HintOperand(s.size), HintOperand(s.sizeBytes), HintOperand(s.sizebytes),
     TextOperand(cfg, SizeDescription(s, filename, folder)), TextOperand(cfg, s.name)]
  }

  /** Operand `k` is the first truthy one. */
  predicate FirstTruthyAt(ops: seq<SizeValue>, k: nat) {
    k < |ops| && ops[k].Truthy() && forall j :: 0 <= j < k ==> !ops[j].Truthy()
  }

  /** The size an operand of the chain gives: a text read with `parseInt`, a number
      rounded, `undefined` kept. */
  function SizeNumber(v: SizeValue): JsNumber {
    match v
    case Missing => Undefined
    case NotNumber => NaN
    case Num(r) => Finite(JsRound(r))
    case Text(t) => match ParseInt(t) case None => NaN case Some(n) => Finite(n)
  }

  /** `ops[0] || ops[1] || … || ops[n - 1]`: the first truthy operand, else the last. */
  function Chain(ops: seq<SizeValue>): SizeValue
    requires |ops| > 0
  {
    if |ops| == 1 then ops[0] else OrElse(ops[0], Chain(ops[1..]))
  }

  lemma {:induction false} ChainFirstTruthy(ops: seq<SizeValue>, k: nat)
    requires FirstTruthyAt(ops, k)
    ensures Chain(ops) == ops[k]
    decreases |ops|
  {
    if k > 0 {
      assert !ops[0].Truthy();
      assert FirstTruthyAt(ops[1..], k - 1) by {
        forall j | 0 <= j < k - 1 ensures !ops[1..][j].Truthy() {
          assert ops[1..][j] == ops[j + 1];
        }
      }
      ChainFirstTruthy(ops[1..], k - 1);
    }
  }

  lemma {:induction false} ChainNoneTruthy(ops: seq<SizeValue>)
    requires |ops| > 0 && forall k :: 0 <= k < |ops| ==> !ops[k].Truthy()
    ensures Chain(ops) == ops[|ops| - 1]
    decreases |ops|
  {
    if |ops| > 1 {
      assert !ops[0].Truthy();
      assert forall k :: 0 <= k < |ops| - 1 ==> ops[1..][k] == ops[k + 1];
      ChainNoneTruthy(ops[1..]);
    }
  }

  /** The chain is its first truthy operand, or its last operand when none is truthy. */
  lemma ChainSpec(ops: seq<SizeValue>)
    requires |ops| > 0
    ensures forall k: nat :: FirstTruthyAt(ops, k) ==> Chain(ops) == ops[k]
    ensures (forall k :: 0 <= k < |ops| ==> !ops[k].Truthy()) ==> Chain(ops) == ops[|ops| - 1]
  {
    forall k: nat | FirstTruthyAt(ops, k) ensures Chain(ops) == ops[k] {
      ChainFirstTruthy(ops, k);
    }
    if forall k :: 0 <= k < |ops| ==> !ops[k].Truthy() {
      ChainNoneTruthy(ops);
    }
  }

  /** `getSize`: the first truthy operand of the chain, or the last operand when none
      is truthy, as a number. */
  function GetSize(cfg: ParserConfig, s: RawStream, filename: Option<string>, folder: Option<string>): (r: JsNumber)
    ensures var ops := SizeOperands(cfg, s, filename, folder);
      forall k: nat :: FirstTruthyAt(ops, k) ==> r == SizeNumber(ops[k])
    ensures var ops := SizeOperands(cfg, s, filename, folder);
      (forall k :: 0 <= k < 6 ==> !ops[k].Truthy()) ==> r == SizeNumber(ops[5])
    ensures s.videoSize.Some? && s.videoSize.value.NumberHint? && s.videoSize.value.n != 0.0 ==>
      r == Finite(JsRound(s.videoSize.value.n))
  {
    var ops := SizeOperands(cfg, s, filename, folder);
    ChainSpec(ops);
    assert s.videoSize.Some? && s.videoSize.value.NumberHint? && s.videoSize.value.n != 0.0 ==> FirstTruthyAt(ops, 0);
    SizeNumber(Chain(ops))
  }

  /** With no hint and no size in the description, the last operand decides: an empty
      name makes the size `NaN` (`parseInt("")`), an absent one leaves it undefined. */
  lemma SizeOfLastOperand(cfg: ParserConfig, s: RawStream, filename: Option<string>, folder: Option<string>)
    requires s.videoSize.None? && s.size.None? && s.sizeBytes.None? && s.sizebytes.None?
    requires SizeDescription(s, filename, folder).None?
    ensures s.name == Some("") ==> GetSize(cfg, s, filename, folder) == NaN
    ensures s.name.None? ==> GetSize(cfg, s, filename, folder) == Undefined
  {
    var ops := SizeOperands(cfg, s, filename, folder);
    assert forall k :: 0 <= k < 5 ==> ops[k] == Missing;
    assert ParseInt("") == None;
  }

  /** `getSeeders`: group 1 of the seeders regex on the description, read with
      `parseInt`; `undefined` without a regex, a description or a match. */
  function SeedersOf(cfg: ParserConfig, s: RawStream): (r: JsNumber)
    ensures Capture(cfg.seedersRegex, s.description).None? ==> r == Undefined
    ensures Capture(cfg.seedersRegex, s.description).Some? ==>
      var g := Capture(cfg.seedersRegex, s.description).value;
      (ParseInt(g).Some? ==> r == Finite(ParseInt(g).value)) && (ParseInt(g).None? ==> r == NaN)
  {
    match Capture(cfg.seedersRegex, s.description)
    case None => Undefined
    case Some(g) => match ParseInt(g) case None => NaN case Some(n) => Finite(n)
  }

  /** With the base parser's pattern, the seeders are the digits after the first
      seeders emoji in the description; `undefined` when there is none. */
  lemma DefaultSeeders(env: Environment, s: RawStream)
    ensures s.description.None? ==> SeedersOf(DefaultConfig(env), s) == Undefined
    ensures s.description.Some? ==> forall i: nat :: FirstSeedersAt(s.description.value, i) ==>
      SeedersOf(DefaultConfig(env), s) == Finite(DigitsValue(SeedersAt(s.description.value, i).value))
    ensures s.description.Some? && (forall i :: 0 <= i <= |s.description.value| ==> SeedersAt(s.description.value, i).None?)
      ==> SeedersOf(DefaultConfig(env), s) == Undefined
  {
    if s.description.Some? {
      var d := s.description.value;
      forall i: nat | FirstSeedersAt(d, i)
        ensures SeedersOf(DefaultConfig(env), s) == Finite(DigitsValue(SeedersAt(d, i).value))
      {
        ParseIntOfDigits(SeedersAt(d, i).value);
      }
    }
  }

  // ---------------------------------------------------------------------------
  // Type, merged file metadata and the whole parse

  /** `getStreamType`: `None` is the "missing a required stream property" error. */
  function StreamTypeOf(env: Environment, s: RawStream, service: Option<ServiceInfo>): Option<StreamType> {
    if Present(s.infoHash) then Some(P2P)
    else if s.url.Some? && EndsWith(s.url.value, ".m3u8") then Some(Live)
    else if service.Some? && service.value.id == env.easynewsServiceId then Some(Usenet)
    else if service.Some? then Some(Debrid)
    else if Present(s.url) then Some(Http)
    else if Present(s.externalUrl) then Some(External)
    else if Present(s.ytId) then Some(YouTube)
    else None
  }

  const NoParsedFile := ParsedFile(None, None, None, None, None, None, None, None, None, None, [], [], [], [])

  function OrText(a: Option<string>, b: Option<string>): Option<string> { if Present(a) then a else b }
  function OrNumber(a: Option<int>, b: Option<int>): Option<int> { if NonZero(a) then a else b }
  function OrList<T>(a: Option<seq<T>>, b: Option<seq<T>>): Option<seq<T>> { if a.Some? then a else b }

  /** The folder's title wins; every other scalar comes from the file first; the tag
      and language lists are unions that keep the folder's entries first. */
  function MergeParsedFile(folder: ParsedFile, file: ParsedFile, flagLanguages: seq<string>): ParsedFile {
    ParsedFile(
      OrText(folder.title, file.title),
      OrText(file.year, folder.year),
      OrNumber(file.season, folder.season),
      OrNumber(file.episode, folder.episode),
      OrList(file.seasons, folder.seasons),
      OrText(file.resolution, folder.resolution),
      OrText(file.quality, folder.quality),
      OrText(file.encode, folder.encode),
      OrText(file.releaseGroup, folder.releaseGroup),
      OrList(file.seasonEpisode, folder.seasonEpisode),
      Dedup(folder.visualTags + file.visualTags),
      Dedup(folder.audioTags + file.audioTags),
      Dedup(folder.audioChannels + file.audioChannels),
      Dedup(folder.languages + file.languages + flagLanguages))
  }

  /** `getParsedFile`. */
  function ParsedFileOf(env: Environment, s: RawStream, filename: Option<string>, folder: Option<string>): ParsedFile {
    var folderParsed := if Present(folder) then env.parseFile(folder.value) else NoParsedFile;
    var fileParsed := if Present(filename) then env.parseFile(filename.value) else NoParsedFile;
    MergeParsedFile(folderParsed, fileParsed, GetLanguages(env, s))
  }

  /** The record before any extraction: identity, links and the original texts. */
  function InitialStream(cfg: ParserConfig, addon: Addon, id: string, raw: RawStream): ParsedStream {
    ParsedStream(id, addon, Http, cfg.applyUrlModifications(raw.url), raw.externalUrl, raw.ytId,
      raw.notWebReady, raw.videoHash, raw.name, DescriptionOrTitle(raw), None, None, None,
      Undefined, Undefined, None, None, None, None, None, None, None, None, None, None)
  }

  /** The fields drawn from the texts: filename, folder (dropped when it names the
      same content as the filename), size, folder size and indexer. */
  function WithTexts(cfg: ParserConfig, env: Environment, p: ParsedStream, s: RawStream): ParsedStream {
    var filename := FilenameOf(cfg, env, s);
    var folder := CollapseFolder(env, Capture(cfg.folderNameRegex, s.description), filename);
    p.(filename := filename,
       folderName := folder,
       size := GetSize(cfg, s, filename, folder),
       folderSize := cfg.getFolderSize(s),
       indexer := Capture(cfg.indexerRegex, s.description))
  }

  /** The fields set once the service and the type are known. */
  function Completed(cfg: ParserConfig, env: Environment, p: ParsedStream, s: RawStream,
                     service: Option<ServiceInfo>, t: StreamType): ParsedStream {
    p.(service := service,
       duration := Some(DurationMs(SearchText(s))),
       streamType := t,
       library := Some(p.addon.library.GetOr(false)),
       age := Capture(cfg.ageRegex, s.description),
       message := cfg.getMessage(s),
       parsedFile := Some(ParsedFileOf(env, s, p.filename, p.folderName)),
       torrent := Some(Torrent(
         if t == P2P then s.infoHash else InfoHashInUrl(s.url),
         SeedersOf(cfg, s), s.sources, s.fileIdx)))
  }

  /** `stream.name || ''`, the text services are recognised in. */
  function NameText(s: RawStream): string {
    if Present(s.name) then s.name.value else ""
  }

  /** What `parse` returns for a stream given the id it draws: `Failure` is a thrown error. */
  function ParseOutcome(cfg: ParserConfig, env: Environment, addon: Addon, id: string, raw: RawStream): Result<ParsedStream, string> {
    var base := InitialStream(cfg, addon, id, raw);
    var s := Normalise(raw);
    match RaiseErrorIfNecessary(cfg, SearchText(s))
    case Some(msg) => Failure(msg)
    case None =>
      var err := cfg.getError(s);
      if err.Some? then Success(base.(error := err, streamType := ErrorType))
      else
        var service := ServiceData(env, NameText(s));
        match StreamTypeOf(env, s, service)
        case None => Failure(MissingPropertyMessage)
        case Some(t) => Success(Completed(cfg, env, WithTexts(cfg, env, base, s), s, service, t))
  }

  /** `${instanceId}-${n}`: the id of the `n`-th stream an addon instance parses. */
  function StreamId(instanceId: string, n: nat): string {
    instanceId + "-" + NatToString(n)
  }

  /** A parser bound to one addon instance.  It numbers the streams it parses. */
  class StreamParser {
    const addon: Addon
    const cfg: ParserConfig
    const env: Environment
    var count: nat

    constructor(addon: Addon, cfg: ParserConfig, env: Environment)
      ensures this.addon == addon && this.cfg == cfg && this.env == env && count == 0
    {
      this.addon := addon;
      this.cfg := cfg;
      this.env := env;
      count := 0;
    }

    /** The id of the stream drawn when the counter is at `n`. */
    function IdFor(n: nat): string {
      StreamId(addon.instanceId, n)
    }

    method GetRandomId() returns (id: string)
      modifies this
      ensures id == IdFor(old(count)) && count == old(count) + 1
    {
      id := IdFor(count);
      count := count + 1;
    }

    /** Filename, folder, size, folder size and indexer, set one after the other. */
    method ExtractTexts(parsed: ParsedStream, stream: RawStream) returns (p: ParsedStream)
      ensures p == WithTexts(cfg, env, parsed, stream)
    {
      p := parsed;
      var filename := GetFilename(cfg, env, stream);
      p := p.(filename := filename);
      p := p.(folderName := Capture(cfg.folderNameRegex, stream.description));
      if Present(p.folderName) && Present(p.filename)
         && NormaliseText(env, p.folderName.value) == NormaliseText(env, p.filename.value) {
        p := p.(folderName := None);
      }
      p := p.(size := GetSize(cfg, stream, p.filename, p.folderName));
      p := p.(folderSize := cfg.getFolderSize(stream));
      p := p.(indexer := Capture(cfg.indexerRegex, stream.description));
    }

    /** The fields that follow the type, set one after the other. */
    method Complete(parsed: ParsedStream, stream: RawStream, service: Option<ServiceInfo>, t: StreamType)
      returns (p: ParsedStream)
      ensures p == Completed(cfg, env, parsed, stream, service, t)
    {
      p := parsed.(service := service);
      p := p.(duration := Some(DurationMs(SearchText(stream))));
      p := p.(streamType := t);
      p := p.(library := Some(p.addon.library.GetOr(false)));
      p := p.(age := Capture(cfg.ageRegex, stream.description));
      p := p.(message := cfg.getMessage(stream));
      p := p.(parsedFile := Some(ParsedFileOf(env, stream, p.filename, p.folderName)));
      p := p.(torrent := Some(Torrent(
        if p.streamType == P2P then stream.infoHash else InfoHashInUrl(stream.url),
        SeedersOf(cfg, stream), stream.sources, stream.fileIdx)));
    }

    /** `parse`: the counter advances even when the parse then fails. */
    method Parse(raw: RawStream) returns (r: Result<ParsedStream, string>)
      modifies this
      ensures count == old(count) + 1
      ensures r == ParseOutcome(cfg, env, addon, IdFor(old(count)), raw)
    {
      var id := GetRandomId();
      var parsed := InitialStream(cfg, addon, id, raw);
      var stream := Normalise(raw);
      var thrown := RaiseErrorIfNecessary(cfg, SearchText(stream));
      if thrown.Some? {
        return Failure(thrown.value);
      }
      parsed := parsed.(error := cfg.getError(stream));
      if parsed.error.Some? {
        parsed := parsed.(streamType := ErrorType);
        return Success(parsed);
      }
      parsed := ExtractTexts(parsed, stream);
      var service := ParseServiceData(env, NameText(stream));
      var t := StreamTypeOf(env, stream, service);
      if t.None? {
        return Failure(MissingPropertyMessage);
      }
      parsed := Complete(parsed, stream, service, t.value);
      return Success(parsed);
    }
  }

  // ---------------------------------------------------------------------------
  // Properties of the parse

  /** Two streams of one addon instance drawn at different counter values get
      different ids. */
  lemma {:induction false} StreamIdsDistinct(instanceId: string, a: nat, b: nat)
    requires a != b
    ensures StreamId(instanceId, a) != StreamId(instanceId, b)
  {
    if StreamId(instanceId, a) == StreamId(instanceId, b) {
      var n := |instanceId| + 1;
      assert StreamId(instanceId, a)[n..] == NatToString(a);
      assert StreamId(instanceId, b)[n..] == NatToString(b);
      NatToStringInjective(a, b);
    }
  }

  /** The base parser throws on an "invalid ... account/apikey/token" text before it
      extracts anything. */
  lemma DefaultRejectsInvalidCredentials(env: Environment, addon: Addon, id: string, raw: RawStream)
    requires InvalidCredentials(SearchText(Normalise(raw)))
    ensures ParseOutcome(DefaultConfig(env), env, addon, id, raw) == Failure(InvalidCredentialsMessage)
  {
  }

  /** The error hook turns the stream into an error stream that keeps only its
      identity, links and original texts. */
  lemma ErrorHookGivesErrorStream(cfg: ParserConfig, env: Environment, addon: Addon, id: string, raw: RawStream)
    requires RaiseErrorIfNecessary(cfg, SearchText(Normalise(raw))).None?
    requires cfg.getError(Normalise(raw)).Some?
    ensures ParseOutcome(cfg, env, addon, id, raw).Success?
    ensures var p := ParseOutcome(cfg, env, addon, id, raw).value;
      p.streamType == ErrorType && p.error == cfg.getError(Normalise(raw))
      && p.filename.None? && p.service.None? && p.parsedFile.None? && p.torrent.None?
  {
  }

  /** Every parsed stream keeps the drawn id, its addon and the original texts. */
  lemma ParseKeepsIdentity(cfg: ParserConfig, env: Environment, addon: Addon, id: string, raw: RawStream)
    requires ParseOutcome(cfg, env, addon, id, raw).Success?
    ensures var p := ParseOutcome(cfg, env, addon, id, raw).value;
      p.id == id && p.addon == addon && p.originalName == raw.name
      && p.originalDescription == DescriptionOrTitle(raw)
      && p.url == cfg.applyUrlModifications(raw.url)
      && (p.streamType == ErrorType <==> cfg.getError(Normalise(raw)).Some?)
  {
    var s := Normalise(raw);
    if cfg.getError(s).None? {
      var service := ServiceData(env, NameText(s));
      var t := StreamTypeOf(env, s, service);
      assert t.Some?;
      StreamTypeNotError(env, s, service);
    }
  }

  /** No stream is given the error type by the type tests. */
  lemma StreamTypeNotError(env: Environment, s: RawStream, service: Option<ServiceInfo>)
    ensures StreamTypeOf(env, s, service) != Some(ErrorType)
  {
  }

  /** A stream with an info hash is peer-to-peer and keeps its hash. */
  lemma InfoHashMeansP2P(cfg: ParserConfig, env: Environment, addon: Addon, id: string, raw: RawStream)
    requires Present(raw.infoHash)
    requires RaiseErrorIfNecessary(cfg, SearchText(Normalise(raw))).None?
    requires cfg.getError(Normalise(raw)).None?
    ensures ParseOutcome(cfg, env, addon, id, raw).Success?
    ensures var p := ParseOutcome(cfg, env, addon, id, raw).value;
      p.streamType == P2P && p.torrent.Some? && p.torrent.value.infoHash == raw.infoHash
  {
  }

  /** The type follows a fixed precedence: info hash, then an `.m3u8` url, then
      the Easynews service, any other service, a url, an external url and a
      YouTube id; each type is chosen exactly when its test is the first to hold. */
  lemma StreamTypePrecedence(env: Environment, s: RawStream, service: Option<ServiceInfo>)
    ensures var t := StreamTypeOf(env, s, service);
      var live := s.url.Some? && EndsWith(s.url.value, ".m3u8");
      && (t == Some(P2P) <==> Present(s.infoHash))
      && (t == Some(Live) <==> !Present(s.infoHash) && live)
      && (t == Some(Usenet) <==> !Present(s.infoHash) && !live && service.Some? && service.value.id == env.easynewsServiceId)
      && (t == Some(Debrid) <==> !Present(s.infoHash) && !live && service.Some? && service.value.id != env.easynewsServiceId)
      && (t == Some(Http) <==> !Present(s.infoHash) && !live && service.None? && Present(s.url))
      && (t == Some(External) <==> !Present(s.infoHash) && !live && service.None? && !Present(s.url) && Present(s.externalUrl))
      && (t == Some(YouTube) <==> !Present(s.infoHash) && !live && service.None? && !Present(s.url)
                                  && !Present(s.externalUrl) && Present(s.ytId))
      && t != Some(ErrorType)
  {
  }

  /** Without an info hash, a URL, an external URL, a YouTube id or a recognised
      service the parse fails with the missing-property error, and only then. */
  lemma MissingPropertyIff(cfg: ParserConfig, env: Environment, addon: Addon, id: string, raw: RawStream)
    requires RaiseErrorIfNecessary(cfg, SearchText(Normalise(raw))).None?
    requires cfg.getError(Normalise(raw)).None?
    ensures ParseOutcome(cfg, env, addon, id, raw) == Failure(MissingPropertyMessage)
      <==> !Present(raw.infoHash) && !Present(raw.url) && !Present(raw.externalUrl) && !Present(raw.ytId)
           && ServiceData(env, NameText(Normalise(raw))).None?
  {
  }

  /** The merged metadata. Each list is a duplicate-free union of the folder's and
      the file's entries (and, for languages, the flag languages) that starts with the
      folder's own entries, de-duplicated. The title comes from the folder first, every
      other scalar from the file first; a text falls back when it is absent or empty,
      a number when it is absent or 0, a list only when it is absent. */
  lemma {:induction false} MergeParsedFileProperties(folder: ParsedFile, file: ParsedFile, flagLanguages: seq<string>)
    ensures var m := MergeParsedFile(folder, file, flagLanguages);
      Distinct(m.visualTags) && Distinct(m.audioTags) && Distinct(m.audioChannels) && Distinct(m.languages)
      && (forall t :: t in m.visualTags <==> t in folder.visualTags || t in file.visualTags)
      && (forall t :: t in m.audioTags <==> t in folder.audioTags || t in file.audioTags)
      && (forall t :: t in m.audioChannels <==> t in folder.audioChannels || t in file.audioChannels)
      && (forall t :: t in m.languages <==> t in folder.languages || t in file.languages || t in flagLanguages)
      && |Dedup(folder.visualTags)| <= |m.visualTags|
      && m.visualTags[..|Dedup(folder.visualTags)|] == Dedup(folder.visualTags)
      && |Dedup(folder.audioTags)| <= |m.audioTags|
      && m.audioTags[..|Dedup(folder.audioTags)|] == Dedup(folder.audioTags)
      && |Dedup(folder.audioChannels)| <= |m.audioChannels|
      && m.audioChannels[..|Dedup(folder.audioChannels)|] == Dedup(folder.audioChannels)
      && |Dedup(folder.languages)| <= |m.languages|
      && m.languages[..|Dedup(folder.languages)|] == Dedup(folder.languages)
      && m.title == (if Present(folder.title) then folder.title else file.title)
      && m.year == (if Present(file.year) then file.year else folder.year)
      && m.season == (if NonZero(file.season) then file.season else folder.season)
      && m.episode == (if NonZero(file.episode) then file.episode else folder.episode)
      && m.seasons == (if file.seasons.Some? then file.seasons else folder.seasons)
      && m.resolution == (if Present(file.resolution) then file.resolution else folder.resolution)
      && m.quality == (if Present(file.quality) then file.quality else folder.quality)
      && m.encode == (if Present(file.encode) then file.encode else folder.encode)
      && m.releaseGroup == (if Present(file.releaseGroup) then file.releaseGroup else folder.releaseGroup)
      && m.seasonEpisode == (if file.seasonEpisode.Some? then file.seasonEpisode else folder.seasonEpisode)
  {
    DedupDistinct(folder.visualTags + file.visualTags);
    DedupDistinct(folder.audioTags + file.audioTags);
    DedupDistinct(folder.audioChannels + file.audioChannels);
    DedupDistinct(folder.languages + file.languages + flagLanguages);
    DedupPrefix(folder.visualTags, file.visualTags);
    DedupPrefix(folder.audioTags, file.audioTags);
    DedupPrefix(folder.audioChannels, file.audioChannels);
    assert folder.languages + file.languages + flagLanguages == folder.languages + (file.languages + flagLanguages);
    DedupPrefix(folder.languages, file.languages + flagLanguages);
  }

  /** The season test in the filename heuristic is subsumed by the episode test. */
  lemma InformativeIsYearOrEpisode(p: ParsedFile)
    ensures Informative(p) <==> Present(p.year) || NonZero(p.episode)
  {
  }
}
