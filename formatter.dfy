/** The template formatter: a parsed stream becomes a flat record of values, and
    the placeholders `{type.prop}`, `{type.prop::mod}` and
    `{type.prop::mod["yes"||"no"]}` of a name or description template are
    replaced by those values, transformed by modifiers or chosen between two
    sub-templates. */
module Formatter {
  import opened Wrappers
  import opened JsText
  import opened Types

  // ---------------------------------------------------------------------------
  // The value record

  /** A value of the record: an array (number arrays appear as their decimal
      texts), a string, an integer, a boolean, or `null`. */
  datatype Value = VArr(items: seq<string>) | VStr(s: string) | VNum(n: int) | VBool(b: bool) | VNull

  /** One group of the record; a property missing from the map is `undefined`. */
  type Group = map<string, Value>

  datatype ParseValue = ParseValue(config: Group, stream: Group, service: Group, addon: Group)

  // ---------------------------------------------------------------------------
  // Placeholders

  /** One match of the placeholder pattern: its span `[start, end)`, the `type`
      and `prop` groups, the modifier, the time-zone locale, and the two quoted
      check literals (quotes included). */
  datatype Placeholder = Placeholder(
    start: nat,
    end: nat,
    kind: string,
    prop: string,
    mod: Option<string>,
    tzlocale: Option<string>,
    checkTrue: Option<string>,
    checkFalse: Option<string>)

  /** The group names the pattern accepts, compared without regard to case. */
  const TypeNames: seq<string> := ["stream", "service", "addon", "config", "debug"]

  /** What the placeholder pattern guarantees about a match found at or after
      `from`: a braced span inside the string, a non-empty modifier, and the
      check literals present together and never beside a time-zone locale. */
  predicate WellFormed(s: string, from: nat, m: Placeholder) {
    from <= m.start < m.end <= |s|
    && s[m.start] == '{' && s[m.end - 1] == '}'
    && (m.mod.Some? ==> m.mod.value != "")
    && (m.checkTrue.Some? <==> m.checkFalse.Some?)
    && !(m.tzlocale.Some? && m.checkTrue.Some?)
  }

  /** The placeholder search `re.exec(str)` with `lastIndex = from`: the first
      match at or after `from`, if any. */
  type Scanner = f: (string, nat) -> Option<Placeholder>
    | forall s: string, from: nat :: f(s, from).Some? ==> WellFormed(s, from, f(s, from).value)
    witness (s: string, from: nat) => None

  /** The helpers the formatter calls and the table it consults. */
  datatype FormatterEnv = FormatterEnv(
    scan: Scanner,
    /** `Env.ADDON_NAME` or the name given to the formatter */
    addonName: string,
    /** `SERVICE_DETAILS` */
    services: seq<ServiceDetail>,
    /** `JSON.stringify` of the record, compact and indented */
    stringify: ParseValue -> (string, string),
    formatBytes: (int, nat) -> string,
    formatDuration: int -> string,
    toLocaleString: int -> string,
    /** `btoa`, taken as total: its throw on a character above U+00FF is not modelled */
    btoa: string -> string,
    languageToEmoji: string -> Option<string>,
    /** the index `Math.floor(Math.random() * n)` picks, taken modulo `n` */
    randomIndex: nat -> nat)

  // ---------------------------------------------------------------------------
  // convertStreamToParseValue

  /** `x || null` on an optional text. */
  function TextOrNull(s: Option<string>): (v: Value)
    ensures v.VStr? <==> Present(s)
  {
    if Present(s) then VStr(s.value) else VNull
  }

  /** `x || null` on a number: `undefined`, `NaN` and `0` become `null`. */
  function NumberOrNull(n: JsNumber): (v: Value)
    ensures v.VNum? <==> n.Truthy()
  {
    if n.Truthy() then VNum(n.n) else VNull
  }

  function IntOrNull(n: Option<int>): (v: Value)
    ensures v.VNum? <==> (n.Some? && n.value != 0)
  {
    if n.Some? && n.value != 0 then VNum(n.value) else VNull
  }

  /** `x !== undefined ? x : null` on a flag. */
  function BoolOrNull(b: Option<bool>): (v: Value)
    ensures v.VBool? <==> b.Some?
  {
    if b.Some? then VBool(b.value) else VNull
  }

  function ArrayOrNull(xs: Option<seq<string>>): (v: Value)
    ensures v.VArr? <==> xs.Some?
  {
    if xs.Some? then VArr(xs.value) else VNull
  }

  function DecimalTexts(xs: seq<int>): (r: seq<string>)
    ensures |r| == |xs| && forall k :: 0 <= k < |xs| ==> r[k] == IntToString(xs[k])
  {
    if |xs| == 0 then [] else [IntToString(xs[0])] + DecimalTexts(xs[1..])
  }

  /** `languageToEmoji(lang) || lang` for each language, in order. */
  function LanguageEmojis(fenv: FormatterEnv, langs: seq<string>): (r: seq<string>)
    ensures |r| == |langs|
    ensures forall k :: 0 <= k < |langs| ==>
      r[k] == (if Present(fenv.languageToEmoji(langs[k])) then fenv.languageToEmoji(langs[k]).value else langs[k])
  {
    if |langs| == 0 then []
    else
      var e := fenv.languageToEmoji(langs[0]);
      [if Present(e) then e.value else langs[0]] + LanguageEmojis(fenv, langs[1..])
  }

  const BritishFlag: string := "\U{1F1EC}\U{1F1E7}"
  const AmericanFlagAndEagle: string := "\U{1F1FA}\U{1F1F8}\U{1F985}"

  function Americanise(xs: seq<string>): (r: seq<string>)
    ensures |r| == |xs| && forall k :: 0 <= k < |xs| ==> r[k] == ReplaceFirst(xs[k], BritishFlag, AmericanFlagAndEagle)
  {
    if |xs| == 0 then [] else [ReplaceFirst(xs[0], BritishFlag, AmericanFlagAndEagle)] + Americanise(xs[1..])
  }

  /** The distinct emojis of the languages, the British flag replaced by the
      American one and an eagle in the `americanised` variant; `null` without
      filename metadata. */
  function EmojiValue(fenv: FormatterEnv, pf: Option<ParsedFile>, americanised: bool): (v: Value)
    ensures v.VArr? <==> pf.Some?
    ensures v.VArr? ==> Distinct(v.items)
    ensures pf.Some? ==>
      var x := EmojiSource(fenv, pf.value.languages, americanised);
      && (forall e :: e in v.items <==> e in x)
      && (forall i, j :: 0 <= i < j < |v.items| ==> FirstIndex(x, v.items[i]) < FirstIndex(x, v.items[j]))
  {
    if pf.Some? then
      var x := EmojiSource(fenv, pf.value.languages, americanised);
      DedupDistinct(x);
      DedupOrder(x);
      VArr(Dedup(x))
    else VNull
  }

  /** The emojis before duplicates are dropped: one per language, americanised in the
      `wedontknowwhatakilometeris` variant. */
  function EmojiSource(fenv: FormatterEnv, langs: seq<string>, americanised: bool): seq<string> {
    var e := LanguageEmojis(fenv, langs);
    if americanised then Americanise(e) else e
  }

  /** Entry `k` is the first service-table entry with the given id. */
  predicate FirstServiceAt(services: seq<ServiceDetail>, id: string, k: nat) {
    k < |services| && services[k].id == id && forall j :: 0 <= j < k ==> services[j].id != id
  }

  /** The `find` over the service table: the index of the first entry with the id. */
  function FindService(services: seq<ServiceDetail>, id: string): (r: Option<nat>)
    ensures r.Some? ==> FirstServiceAt(services, id, r.value)
    ensures r.None? <==> forall k :: 0 <= k < |services| ==> services[k].id != id
  {
    if |services| == 0 then None
    else if services[0].id == id then Some(0)
    else
      match FindService(services[1..], id)
      case None =>
        assert forall k :: 1 <= k < |services| ==> services[k].id == services[1..][k - 1].id;
        None
      case Some(k) =>
        assert services[k + 1] == services[1..][k];
        assert forall j :: 1 <= j < k + 1 ==> services[j] == services[1..][j - 1];
        Some(k + 1)
  }

  /** The `stream` group, one entry per field (a map, so the order of the entries
      carries no meaning). */
  function StreamGroup(fenv: FormatterEnv, s: ParsedStream): Group {
    var pf := s.parsedFile;
    var langs := if pf.Some? then Some(pf.value.languages) else None;
    var emojis := EmojiValue(fenv, pf, false);
    var americanEmojis := EmojiValue(fenv, pf, true);
    map[
      "filename" := TextOrNull(s.filename),
      "folderName" := TextOrNull(s.folderName),
      "quality" := TextOrNull(if pf.Some? then pf.value.quality else None),
      "resolution" := TextOrNull(if pf.Some? then pf.value.resolution else None),
      "languages" := ArrayOrNull(langs),
      "visualTags" := ArrayOrNull(if pf.Some? then Some(pf.value.visualTags) else None),
      "audioTags" := ArrayOrNull(if pf.Some? then Some(pf.value.audioTags) else None),
      "releaseGroup" := TextOrNull(if pf.Some? then pf.value.releaseGroup else None),
      "regexMatched" := TextOrNull(s.regexMatched),
      "encode" := TextOrNull(if pf.Some? then pf.value.encode else None),
      "audioChannels" := ArrayOrNull(if pf.Some? then Some(pf.value.audioChannels) else None),
      "indexer" := TextOrNull(s.indexer),
      "year" := TextOrNull(if pf.Some? then pf.value.year else None),
      "type" := VStr(StreamTypeName(s.streamType)),
      "title" := TextOrNull(if pf.Some? then pf.value.title else None),
      "seasons" := if pf.Some? && pf.value.seasons.Some? then VArr(DecimalTexts(pf.value.seasons.value)) else VNull,
      "seasonEpisode" := ArrayOrNull(if pf.Some? then pf.value.seasonEpisode else None),
      "infoHash" := TextOrNull(if s.torrent.Some? then s.torrent.value.infoHash else None),
      "age" := TextOrNull(s.age),
      "message" := TextOrNull(s.message),
      "library" := BoolOrNull(s.library),
      "proxied" := BoolOrNull(s.proxied),
      "size" := NumberOrNull(s.size),
      "seeders" := if s.torrent.Some? && s.torrent.value.seeders.Finite? then VNum(s.torrent.value.seeders.n) else VNull,
      "folderSize" := NumberOrNull(s.folderSize),
      "duration" := IntOrNull(s.duration),
      "season" := IntOrNull(if pf.Some? then pf.value.season else None),
      "episode" := IntOrNull(if pf.Some? then pf.value.episode else None),
      "languageEmojis" := emojis,
      "wedontknowwhatakilometeris" := americanEmojis
    ]
  }

  function ServiceGroup(fenv: FormatterEnv, s: ParsedStream): Group {
    var id := if s.service.Some? then Some(s.service.value.id) else None;
    var entry := if Present(id) then FindService(fenv.services, id.value) else None;
    map[
      "id" := TextOrNull(id),
      "shortName" := TextOrNull(if entry.Some? then Some(fenv.services[entry.value].shortName) else None),
      "name" := TextOrNull(if entry.Some? then Some(fenv.services[entry.value].name) else None),
      "cached" := if s.service.Some? then VBool(s.service.value.cached) else VNull
    ]
  }

  /** `convertStreamToParseValue`. */
  function ConvertStreamToParseValue(fenv: FormatterEnv, s: ParsedStream): (pv: ParseValue)
    ensures pv.config == map["addonName" := VStr(fenv.addonName)]
    ensures pv.addon == map["name" := VStr(s.addon.name), "presetId" := VStr(s.addon.presetType),
                            "manifestUrl" := VStr(s.addon.manifestUrl)]
    ensures pv.service.Keys == {"id", "shortName", "name", "cached"}
    ensures s.service.None? ==> pv.service == map["id" := VNull, "shortName" := VNull, "name" := VNull, "cached" := VNull]
    ensures s.service.Some? ==>
      && pv.service["id"] == (if s.service.value.id != "" then VStr(s.service.value.id) else VNull)
      && pv.service["cached"] == VBool(s.service.value.cached)
    ensures s.service.Some? && (s.service.value.id == "" || forall k :: 0 <= k < |fenv.services| ==> fenv.services[k].id != s.service.value.id)
      ==> pv.service["shortName"] == VNull && pv.service["name"] == VNull
    ensures forall k: nat :: s.service.Some? && s.service.value.id != "" && FirstServiceAt(fenv.services, s.service.value.id, k) ==>
      && pv.service["shortName"] == TextOrNull(Some(fenv.services[k].shortName))
      && pv.service["name"] == TextOrNull(Some(fenv.services[k].name))
  {
    ParseValue(
      map["addonName" := VStr(fenv.addonName)],
      StreamGroup(fenv, s),
      ServiceGroup(fenv, s),
      map["name" := VStr(s.addon.name), "presetId" := VStr(s.addon.presetType), "manifestUrl" := VStr(s.addon.manifestUrl)])
  }

  // ---------------------------------------------------------------------------
  // Helpers of the modifiers

  /** A value inserted into the template without a modifier, as JavaScript's
      string concatenation renders it. */
  function ValueText(v: Value): string {
    match v
    case VArr(xs) => Join(xs, ",")
    case VStr(s) => s
    case VNum(n) => IntToString(n)
    case VBool(b) => if b then "true" else "false"
    case VNull => "null"
  }

  /** `lit.slice(1, -1)`: the check literal without its quotes. */
  function Unquote(lit: string): (r: string)
    ensures |lit| >= 2 ==> lit == [lit[0]] + r + [lit[|lit| - 1]]
  {
    if |lit| >= 2 then lit[1..|lit| - 1] else ""
  }

  predicate IsQuote(c: char) { c == '\'' || c == '"' }

  /** `t.replace(/^['"]|['"]$/g, '')`: one leading and one trailing quote removed. */
  function StripQuotes(t: string): string {
    var a := if |t| > 0 && IsQuote(t[0]) then 1 else 0;
    if |t| > a && IsQuote(t[|t| - 1]) then t[a..|t| - 1] else t[a..]
  }

  /** `word.charAt(0).toUpperCase() + word.slice(1)` after lower-casing. */
  function TitleWord(w: string): string {
    var l := Lower(w);
    if |l| == 0 then "" else [UpperChar(l[0])] + l[1..]
  }

  function TitleWords(ws: seq<string>): (r: seq<string>)
    ensures |r| == |ws| && forall k :: 0 <= k < |ws| ==> r[k] == TitleWord(ws[k])
  {
    if |ws| == 0 then [] else [TitleWord(ws[0])] + TitleWords(ws[1..])
  }

  /** The `title` modifier. */
  function TitleCase(s: string): string {
    Join(TitleWords(Split(s, ' ')), " ")
  }

  predicate AnyContains(xs: seq<string>, check: string) {
    exists k :: 0 <= k < |xs| && Contains(Lower(xs[k]), check)
  }

  function UnknownOf(kind: string, mod: string): string {
    "{unknown_" + kind + "_modifier(" + mod + ")}"
  }

  /** The comparison operators of the number modifiers, in the order they are tried. */
  const NumberOperators: seq<string> := [">=", ">", "=", "<=", "<"]

  predicate Compare(op: string, a: real, b: real) {
    if op == ">=" then a >= b
    else if op == ">" then a > b
    else if op == "=" then a == b
    else if op == "<=" then a <= b
    else a < b
  }

  /** The first operator the lower-cased modifier starts with. */
  function OperatorOf(mod: string): (r: Option<string>)
    ensures r.Some? ==> r.value in NumberOperators && StartsWith(mod, r.value)
    ensures r.None? ==> forall k :: 0 <= k < |NumberOperators| ==> !StartsWith(mod, NumberOperators[k])
  {
    if StartsWith(mod, ">=") then Some(">=")
    else if StartsWith(mod, ">") then Some(">")
    else if StartsWith(mod, "=") then Some("=")
    else if StartsWith(mod, "<=") then Some("<=")
    else if StartsWith(mod, "<") then Some("<")
    else None
  }

  /** The modifiers that make a `null` value fall back to the false literal. */
  predicate ConditionalModifier(mod: string) {
    StartsWith(mod, ">") || StartsWith(mod, ">=") || StartsWith(mod, "=") || StartsWith(mod, "<=")
    || StartsWith(mod, "<") || StartsWith(mod, "~") || StartsWith(mod, "$") || StartsWith(mod, "^")
    || mod == "istrue" || mod == "exists" || mod == "isfalse"
  }

  /** `str.slice(0, start) + replace + str.slice(end)`. */
  function ReplaceChars(s: string, rep: string, start: nat, end: nat): (r: string)
    requires start <= end <= |s|
    ensures |r| == |s| - (end - start) + |rep|
    ensures r[..start] == s[..start] && r[start..start + |rep|] == rep && r[start + |rep|..] == s[end..]
  {
    s[..start] + rep + s[end..]
  }

  // ---------------------------------------------------------------------------
  // Post-processing of a rendered template

  /** A line survives when it is not blank and does not ask for its removal. */
  predicate KeepLine(line: string) {
    Trim(line) != "" && !Contains(line, "{tools.removeLine}")
  }

  function KeptLines(lines: seq<string>): (r: seq<string>)
    ensures |r| <= |lines|
    ensures forall k :: 0 <= k < |r| ==> KeepLine(r[k]) && r[k] in lines
    ensures forall k :: 0 <= k < |lines| ==> KeepLine(lines[k]) ==> lines[k] in r
  {
    if |lines| == 0 then []
    else if KeepLine(lines[0]) then [lines[0]] + KeptLines(lines[1..])
    else KeptLines(lines[1..])
  }

  /** The filter keeps the order of the lines: one more line at the end adds at most
      that line at the end. */
  lemma {:induction false} KeptLinesSnoc(lines: seq<string>, l: string)
    ensures KeptLines(lines + [l]) == KeptLines(lines) + (if KeepLine(l) then [l] else [])
    decreases |lines|
  {
    if |lines| == 0 {
      assert lines + [l] == [l];
    } else {
      assert (lines + [l])[1..] == lines[1..] + [l];
      KeptLinesSnoc(lines[1..], l);
    }
  }

  /** `{tools` and `newLine}` around any one character but a line terminator. */
  predicate NewLineTokenAt(s: string, i: nat) {
    MatchesAt(s, i, "{tools") && i + 6 < |s| && !IsLineTerminator(s[i + 6]) && MatchesAt(s, i + 7, "newLine}")
  }

  /** `s.replace(/\{tools.newLine\}/g, '\n')`. */
  function ExpandNewLines(s: string): string
    decreases |s|
  {
    if |s| == 0 then ""
    else if NewLineTokenAt(s, 0) then "\n" + ExpandNewLines(s[15..])
    else [s[0]] + ExpandNewLines(s[1..])
  }

  /** The escape `\n` becomes a line break; blank and removed lines are dropped;
      the newline tokens are expanded last. */
  function PostProcess(s: string): string {
    ExpandNewLines(Join(KeptLines(Split(ReplaceAll(s, "\\n", "\n"), '\n')), "\n"))
  }

  // ---------------------------------------------------------------------------
  // parseString and modifier
  //
  // The source repeats the search from the start of each substitution until no
  // placeholder is left; `fuel` bounds the number of substitutions, and once it
  // is spent the text is left as it stands.

  /** `parseString`: `None` is `null` (an empty template). */
  function ParseStr(fuel: nat, fenv: FormatterEnv, pv: ParseValue, s: string): Option<string>
    decreases fuel, 1
  {
    if s == "" then None else Some(PostProcess(ScanFrom(fuel, fenv, pv, s, 0)))
  }

  /** The substitution loop, searching from `from`. */
  function ScanFrom(fuel: nat, fenv: FormatterEnv, pv: ParseValue, s: string, from: nat): string
    decreases fuel, 0
  {
    if fuel == 0 then s
    else
      match fenv.scan(s, from)
      case None => s
      case Some(m) =>
        assert WellFormed(s, from, m);
        ScanFrom(fuel - 1, fenv, pv, ReplaceChars(s, Replacement(fuel - 1, fenv, pv, m), m.start, m.end), m.start)
  }

  /** `value[type]`, with the debug group computed from the other four. */
  function GroupOf(fenv: FormatterEnv, pv: ParseValue, kind: string): (r: Option<Group>)
    ensures r.Some? <==> kind in TypeNames
  {
    if kind == "stream" then Some(pv.stream)
    else if kind == "service" then Some(pv.service)
    else if kind == "addon" then Some(pv.addon)
    else if kind == "config" then Some(pv.config)
    else if kind == "debug" then
      var j := fenv.stringify(pv);
      Some(map["json" := VStr(j.0), "jsonf" := VStr(j.1)])
    else None
  }

  /** The text that replaces one placeholder. */
  function Replacement(fuel: nat, fenv: FormatterEnv, pv: ParseValue, m: Placeholder): string
    decreases fuel, 7
  {
    match GroupOf(fenv, pv, m.kind)
    case None => "{unknown_type}"
    case Some(g) =>
      if m.prop !in g then "{unknown_value}"
      else if m.mod.Some? && m.mod.value != "" then
        Modifier(fuel, fenv, pv, m.mod.value, g[m.prop], m.checkTrue, m.checkFalse)
      else ValueText(g[m.prop])
  }

  /** `modifier`: the modifier is lower-cased and the check literals lose their quotes. */
  function Modifier(fuel: nat, fenv: FormatterEnv, pv: ParseValue, mod: string, v: Value,
                    checkTrue: Option<string>, checkFalse: Option<string>): string
    decreases fuel, 6
  {
    var m := Lower(mod);
    var ct := if checkTrue.Some? then Some(Unquote(checkTrue.value)) else None;
    var cf := if checkFalse.Some? then Some(Unquote(checkFalse.value)) else None;
    match v
    case VArr(xs) => ArrayModifier(fuel, fenv, pv, m, xs, ct, cf)
    case VStr(s) => StringModifier(fuel, fenv, pv, m, s, ct, cf)
    case VNum(n) => NumberModifier(fuel, fenv, pv, m, n, ct, cf)
    case VBool(b) => BoolModifier(fuel, fenv, pv, m, b, ct, cf)
    case VNull =>
      if cf.Some? && ConditionalModifier(m) then Resolve(fuel, fenv, pv, cf.value)
      else "{unknown_modifier(" + m + ")}"
  }

  function ArrayModifier(fuel: nat, fenv: FormatterEnv, pv: ParseValue, mod: string, xs: seq<string>,
                         ct: Option<string>, cf: Option<string>): string
    decreases fuel, 5
  {
    if mod == "join" then Join(xs, ", ")
    else if StartsWith(mod, "join(") && EndsWith(mod, ")") then
      assert mod[4] == '(';
      Join(xs, StripQuotes(mod[5..|mod| - 1]))
    else if mod == "length" then NatToString(|xs|)
    else if mod == "first" then (if |xs| > 0 then xs[0] else "")
    else if mod == "last" then (if |xs| > 0 then xs[|xs| - 1] else "")
    else if mod == "random" then (if |xs| > 0 then xs[fenv.randomIndex(|xs|) % |xs|] else "")
    else if mod == "sort" then Join(SortStrings(xs), ", ")
    else if mod == "reverse" then Join(Reversed(xs), ", ")
    else if StartsWith(mod, "~") then
      if ct.None? || cf.None? then UnknownOf("array", mod)
      else
        var check := ReplaceFirst(ReplaceFirst(mod, "~", ""), "_", " ");
        Choose(fuel, fenv, pv, AnyContains(xs, check), ct.value, cf.value)
    else if mod == "exists" then
      if ct.None? || cf.None? then UnknownOf("array", mod)
      else Choose(fuel, fenv, pv, |xs| > 0, ct.value, cf.value)
    else UnknownOf("array", mod)
  }

  /** The string tests `=`, `$`, `^` and `~` against the lower-cased value. */
  predicate StringTest(op: char, value: string, check: string) {
    var l := Lower(value);
    if op == '=' then l == check
    else if op == '$' then StartsWith(l, check)
    else if op == '^' then EndsWith(l, check)
    else Contains(l, check)
  }

  function StringModifier(fuel: nat, fenv: FormatterEnv, pv: ParseValue, mod: string, s: string,
                          ct: Option<string>, cf: Option<string>): string
    decreases fuel, 5
  {
    if mod == "upper" then Upper(s)
    else if mod == "lower" then Lower(s)
    else if mod == "title" then TitleCase(s)
    else if mod == "length" then NatToString(|s|)
    else if mod == "reverse" then Reversed(s)
    else if mod == "base64" then fenv.btoa(s)
    else if mod == "string" then s
    else if mod == "exists" then
      if ct.None? || cf.None? then UnknownOf("str", mod)
      else Choose(fuel, fenv, pv, s != "null" && s != "", ct.value, cf.value)
    else if |mod| > 0 && (mod[0] == '=' || mod[0] == '$' || mod[0] == '^' || mod[0] == '~') then
      if ct.None? || cf.None? then UnknownOf("str", mod)
      else
        var check := ReplaceFirst(mod, [mod[0]], "");
        if check == "" then UnknownOf("str", mod)
        else Choose(fuel, fenv, pv, StringTest(mod[0], s, check), ct.value, cf.value)
    else UnknownOf("str", mod)
  }

  /** The number modifiers that only render the number. */
  function NumberText(fenv: FormatterEnv, mod: string, n: int): Option<string> {
    if mod == "comma" then Some(fenv.toLocaleString(n))
    else if mod == "hex" then Some(IntToRadix(n, 16))
    else if mod == "octal" then Some(IntToRadix(n, 8))
    else if mod == "binary" then Some(IntToRadix(n, 2))
    else if mod == "bytes10" || mod == "bytes" then Some(fenv.formatBytes(n, 1000))
    else if mod == "bytes2" then Some(fenv.formatBytes(n, 1024))
    else if mod == "string" then Some(IntToString(n))
    else if mod == "time" then Some(fenv.formatDuration(n))
    else None
  }

  function NumberModifier(fuel: nat, fenv: FormatterEnv, pv: ParseValue, mod: string, n: int,
                          ct: Option<string>, cf: Option<string>): string
    decreases fuel, 5
  {
    match NumberText(fenv, mod, n)
    case Some(t) => t
    case None =>
      match OperatorOf(mod)
      case None => UnknownOf("int", mod)
      case Some(op) => ComparisonModifier(fuel, fenv, pv, mod, op, n, ct, cf)
  }

  /** A number modifier starting with the comparison operator `op`. */
  function ComparisonModifier(fuel: nat, fenv: FormatterEnv, pv: ParseValue, mod: string, op: string, n: int,
                              ct: Option<string>, cf: Option<string>): string
    decreases fuel, 4
  {
    if ct.None? || cf.None? then UnknownOf("int", mod)
    else
      match StringToNumber(ReplaceFirst(mod, op, ""))
      case None => UnknownOf("int", mod)
      case Some(c) => Choose(fuel, fenv, pv, Compare(op, n as real, c), ct.value, cf.value)
  }

  function BoolModifier(fuel: nat, fenv: FormatterEnv, pv: ParseValue, mod: string, b: bool,
                        ct: Option<string>, cf: Option<string>): string
    decreases fuel, 5
  {
    if mod == "istrue" || mod == "isfalse" then
      if ct.None? || cf.None? then UnknownOf("bool", mod)
      else Choose(fuel, fenv, pv, if mod == "istrue" then b else !b, ct.value, cf.value)
    else UnknownOf("bool", mod)
  }

  /** The rendered true literal when `cond` holds, the rendered false literal otherwise. */
  function Choose(fuel: nat, fenv: FormatterEnv, pv: ParseValue, cond: bool, t: string, f: string): string
    decreases fuel, 3
  {
    if cond then Resolve(fuel, fenv, pv, t) else Resolve(fuel, fenv, pv, f)
  }

  /** `this.parseString(lit, value) || lit`. */
  function Resolve(fuel: nat, fenv: FormatterEnv, pv: ParseValue, lit: string): string
    decreases fuel, 2
  {
    match ParseStr(fuel, fenv, pv, lit)
    case Some(r) => if r == "" then lit else r
    case None => lit
  }

  // ---------------------------------------------------------------------------
  // The formatter

  datatype FormatterConfig = FormatterConfig(name: string, description: string)

  /** `format`: the rendered name and description, `''` for an empty template. */
  function Format(fuel: nat, fenv: FormatterEnv, cfg: FormatterConfig, s: ParsedStream): (r: (string, string))
    ensures cfg.name == "" ==> r.0 == ""
    ensures cfg.description == "" ==> r.1 == ""
    ensures cfg.name != "" ==> r.0 == PostProcess(ScanFrom(fuel, fenv, ConvertStreamToParseValue(fenv, s), cfg.name, 0))
    ensures cfg.description != "" ==>
      r.1 == PostProcess(ScanFrom(fuel, fenv, ConvertStreamToParseValue(fenv, s), cfg.description, 0))
  {
    var pv := ConvertStreamToParseValue(fenv, s);
    (ParseStr(fuel, fenv, pv, cfg.name).GetOr(""), ParseStr(fuel, fenv, pv, cfg.description).GetOr(""))
  }

  /** `parseString` as the source writes it: a loop that substitutes the first
      placeholder at or after the last substitution's start. */
  method ParseString(fuel: nat, fenv: FormatterEnv, pv: ParseValue, str: string) returns (r: Option<string>)
    ensures r == ParseStr(fuel, fenv, pv, str)
  {
    if str == "" {
      return None;
    }
    var s := str;
    var from: nat := 0;
    var f := fuel;
    while f > 0 && fenv.scan(s, from).Some?
      invariant ScanFrom(f, fenv, pv, s, from) == ScanFrom(fuel, fenv, pv, str, 0)
      decreases f
    {
      var m := fenv.scan(s, from).value;
      assert WellFormed(s, from, m);
      var rep := Replacement(f - 1, fenv, pv, m);
      s := ReplaceChars(s, rep, m.start, m.end);
      from := m.start;
      f := f - 1;
    }
    r := Some(PostProcess(s));
  }

  // ---------------------------------------------------------------------------
  // Properties

  /** `a` and `b` agree on their first `n` characters. */
  predicate SamePrefix(a: string, b: string, n: nat) {
    n <= |a| && n <= |b| && a[..n] == b[..n]
  }

  lemma SamePrefixShorter(a: string, b: string, c: string, n: nat, k: nat)
    requires SamePrefix(a, b, n) && SamePrefix(b, c, n) && k <= n
    ensures SamePrefix(a, c, k)
  {
    assert a[..k] == a[..n][..k];
    assert c[..k] == c[..n][..k];
  }

  /** A substitution never touches the text before the position the search
      started from. */
  lemma {:induction false} ScanKeepsPrefix(fuel: nat, fenv: FormatterEnv, pv: ParseValue, s: string, from: nat)
    requires from <= |s|
    ensures SamePrefix(ScanFrom(fuel, fenv, pv, s, from), s, from)
    decreases fuel
  {
    var m := fenv.scan(s, from);
    if fuel > 0 && m.Some? {
      assert WellFormed(s, from, m.value);
      var t := ReplaceChars(s, Replacement(fuel - 1, fenv, pv, m.value), m.value.start, m.value.end);
      ScanKeepsPrefix(fuel - 1, fenv, pv, t, m.value.start);
      assert SamePrefix(t, s, m.value.start);
      SamePrefixShorter(ScanFrom(fuel - 1, fenv, pv, t, m.value.start), t, s, m.value.start, from);
    } else {
      assert SamePrefix(s, s, from);
    }
  }

  /** A value whose text is the very placeholder that inserts it is found again
      at the same place after every substitution: the source's loop never
      settles, and only the fuel ends the model's. */
  lemma {:induction false} SelfInsertionRepeats(fuel: nat, fenv: FormatterEnv, pv: ParseValue, t: string, m: Placeholder)
    requires fenv.scan(t, 0) == Some(m) && m.start == 0 && m.end == |t|
    requires m.mod.None?
    requires GroupOf(fenv, pv, m.kind).Some? && GroupOf(fenv, pv, m.kind).value.Keys >= {m.prop}
    requires GroupOf(fenv, pv, m.kind).value[m.prop] == VStr(t)
    ensures ScanFrom(fuel, fenv, pv, t, 0) == t
    decreases fuel
  {
    if fuel > 0 {
      assert Replacement(fuel - 1, fenv, pv, m) == t;
      assert ReplaceChars(t, t, 0, |t|) == t;
      SelfInsertionRepeats(fuel - 1, fenv, pv, t, m);
    }
  }

  lemma LowerOfLowerLetters(s: string)
    requires forall i :: 0 <= i < |s| ==> 'a' <= s[i] <= 'z'
    ensures Lower(s) == s
  {
  }

  lemma LowerOfTypeNames()
    ensures forall k :: 0 <= k < |TypeNames| ==> Lower(TypeNames[k]) == TypeNames[k]
  {
    forall k | 0 <= k < |TypeNames| ensures Lower(TypeNames[k]) == TypeNames[k] {
      LowerOfLowerLetters(TypeNames[k]);
    }
  }

  /** The pattern accepts the group name in any letter case, but only the all
      lower-case spelling names a group: any other renders `{unknown_type}`. */
  lemma UnknownTypeIffNotLowerCase(fuel: nat, fenv: FormatterEnv, pv: ParseValue, m: Placeholder)
    requires Lower(m.kind) in TypeNames
    ensures GroupOf(fenv, pv, m.kind).None? <==> m.kind != Lower(m.kind)
    ensures m.kind != Lower(m.kind) ==> Replacement(fuel, fenv, pv, m) == "{unknown_type}"
  {
    LowerOfTypeNames();
  }

  /** How one placeholder is rendered before any modifier: an unknown group,
      an unknown property, or the value's own text (`null` for a null value). */
  lemma PlaceholderOutcomes(fuel: nat, fenv: FormatterEnv, pv: ParseValue, m: Placeholder)
    ensures m.kind !in TypeNames ==> Replacement(fuel, fenv, pv, m) == "{unknown_type}"
    ensures m.kind in TypeNames && m.prop !in GroupOf(fenv, pv, m.kind).value ==>
      Replacement(fuel, fenv, pv, m) == "{unknown_value}"
    ensures m.kind in TypeNames && m.prop in GroupOf(fenv, pv, m.kind).value && m.mod.None? ==>
      Replacement(fuel, fenv, pv, m) == ValueText(GroupOf(fenv, pv, m.kind).value[m.prop])
    ensures ValueText(VNull) == "null"
  {
  }

  /** Modifiers are case-insensitive. */
  lemma ModifierIgnoresCase(fuel: nat, fenv: FormatterEnv, pv: ParseValue, mod: string, v: Value,
                            checkTrue: Option<string>, checkFalse: Option<string>)
    ensures Modifier(fuel, fenv, pv, mod, v, checkTrue, checkFalse)
         == Modifier(fuel, fenv, pv, Lower(mod), v, checkTrue, checkFalse)
  {
    LowerIdempotent(mod);
  }

  /** A conditional modifier without its pair of check literals renders the
      unknown-modifier text of the value's kind. */
  lemma MissingChecksAreUnknown(fuel: nat, fenv: FormatterEnv, pv: ParseValue, mod: string, v: Value)
    ensures var m := Lower(mod); var r := Modifier(fuel, fenv, pv, mod, v, None, None);
      && (v.VArr? && (m == "exists" || (StartsWith(m, "~") && m != "~")) ==> r == UnknownOf("array", m))
      && (v.VStr? && (m == "exists" || (|m| > 1 && m[0] in "=$^~")) ==> r == UnknownOf("str", m))
      && (v.VNum? && OperatorOf(m).Some? ==> r == UnknownOf("int", m))
      && (v.VBool? && (m == "istrue" || m == "isfalse") ==> r == UnknownOf("bool", m))
      && (v.VNull? ==> r == "{unknown_modifier(" + m + ")}")
  {
    var m := Lower(mod);
    match v
    case VArr(xs) =>
      ModifierOnArray(fuel, fenv, pv, mod, xs, None, None);
      ArrayWithoutChecks(fuel, fenv, pv, m, xs);
    case VStr(s) =>
      ModifierOnString(fuel, fenv, pv, mod, s, None, None);
      StringWithoutChecks(fuel, fenv, pv, m, s);
    case VNum(n) =>
      ModifierOnNumber(fuel, fenv, pv, mod, n, None, None);
      if OperatorOf(m).Some? {
        NumberModifierOfOperator(fuel, fenv, pv, m, OperatorOf(m).value, n, None, None);
      }
    case VBool(b) =>
    case VNull =>
  }

  lemma ArrayWithoutChecks(fuel: nat, fenv: FormatterEnv, pv: ParseValue, m: string, xs: seq<string>)
    ensures m == "exists" || (StartsWith(m, "~") && m != "~") ==>
      ArrayModifier(fuel, fenv, pv, m, xs, None, None) == UnknownOf("array", m)
  {
    if StartsWith(m, "~") {
      TildeIsNoNamedArrayModifier(m);
    }
  }

  lemma StringWithoutChecks(fuel: nat, fenv: FormatterEnv, pv: ParseValue, m: string, s: string)
    ensures m == "exists" || (|m| > 1 && m[0] in "=$^~") ==>
      StringModifier(fuel, fenv, pv, m, s, None, None) == UnknownOf("str", m)
  {
    if |m| > 1 && m[0] in "=$^~" {
      assert m != "upper" && m != "lower" && m != "title" && m != "length";
      assert m != "reverse" && m != "base64" && m != "string" && m != "exists";
    }
  }

  /** On a number, the modifier is lower-cased and the literals unquoted. */
  lemma ModifierOnNumber(fuel: nat, fenv: FormatterEnv, pv: ParseValue, mod: string, n: int,
                         ct: Option<string>, cf: Option<string>)
    ensures Modifier(fuel, fenv, pv, mod, VNum(n), ct, cf)
         == NumberModifier(fuel, fenv, pv, Lower(mod), n,
                           if ct.Some? then Some(Unquote(ct.value)) else None,
                           if cf.Some? then Some(Unquote(cf.value)) else None)
  {
  }

  /** No rendering number modifier starts with a comparison operator. */
  lemma OperatorsAreNotNumberTexts(fenv: FormatterEnv, m: string, n: int)
    requires OperatorOf(m).Some?
    ensures NumberText(fenv, m, n).None?
  {
    assert m[0] in "<>=";
  }

  /** A lower-cased modifier that starts with a comparison operator compares the
      number with the rest of the modifier read as a number. */
  lemma NumberComparison(fuel: nat, fenv: FormatterEnv, pv: ParseValue, m: string, op: string,
                         n: int, c: real, ct: string, cf: string)
    requires OperatorOf(m) == Some(op)
    requires StringToNumber(ReplaceFirst(m, op, "")) == Some(c)
    ensures NumberModifier(fuel, fenv, pv, m, n, Some(ct), Some(cf))
         == Choose(fuel, fenv, pv, Compare(op, n as real, c), ct, cf)
  {
    NumberModifierOfOperator(fuel, fenv, pv, m, op, n, Some(ct), Some(cf));
    ComparisonOfNumber(fuel, fenv, pv, m, op, n, c, ct, cf);
  }

  lemma NumberModifierOfOperator(fuel: nat, fenv: FormatterEnv, pv: ParseValue, m: string, op: string,
                                 n: int, ct: Option<string>, cf: Option<string>)
    requires OperatorOf(m) == Some(op)
    ensures NumberModifier(fuel, fenv, pv, m, n, ct, cf) == ComparisonModifier(fuel, fenv, pv, m, op, n, ct, cf)
  {
    OperatorsAreNotNumberTexts(fenv, m, n);
  }

  lemma ComparisonOfNumber(fuel: nat, fenv: FormatterEnv, pv: ParseValue, m: string, op: string,
                           n: int, c: real, ct: string, cf: string)
    requires StringToNumber(ReplaceFirst(m, op, "")) == Some(c)
    ensures ComparisonModifier(fuel, fenv, pv, m, op, n, Some(ct), Some(cf))
         == Choose(fuel, fenv, pv, Compare(op, n as real, c), ct, cf)
  {
  }

  lemma LowerOfOperatorText(op: string, t: string)
    requires op == ">=" || op == "<="
    ensures Lower(op + t) == op + Lower(t)
  {
    LowerConcat(op, t);
    assert Lower(op)[0] == op[0] && Lower(op)[1] == op[1];
  }

  lemma OperatorAndOperand(op: string, u: string)
    requires op == ">=" || op == "<="
    ensures OperatorOf(op + u) == Some(op) && ReplaceFirst(op + u, op, "") == u
  {
    var lm := op + u;
    assert lm[0] == op[0] && lm[1] == '=';
    assert MatchesAt(lm, 0, op) by {
      assert lm[..2] == op;
    }
    assert IndexOf(lm, op) == Some(0);
    assert lm[2..] == u;
  }

  /** `>=` is tried before `>` and `<=` before `<`: a modifier `>=t` compares
      with the number `t` (read after lower-casing) and is never read as `>`
      applied to `=t`. */
  lemma TwoCharacterOperatorsFirst(fuel: nat, fenv: FormatterEnv, pv: ParseValue, op: string, t: string,
                                   n: int, c: real, ct: string, cf: string)
    requires op == ">=" || op == "<="
    requires StringToNumber(Lower(t)) == Some(c)
    ensures Modifier(fuel, fenv, pv, op + t, VNum(n), Some(ct), Some(cf))
         == Choose(fuel, fenv, pv, if op == ">=" then n as real >= c else n as real <= c, Unquote(ct), Unquote(cf))
  {
    LowerOfOperatorText(op, t);
    var lm := op + Lower(t);
    OperatorAndOperand(op, Lower(t));
    ModifierOnNumber(fuel, fenv, pv, op + t, n, Some(ct), Some(cf));
    assert Compare(op, n as real, c) == if op == ">=" then n as real >= c else n as real <= c;
    NumberComparison(fuel, fenv, pv, lm, op, n, c, Unquote(ct), Unquote(cf));
  }

  /** A number modifier whose operand is not a number renders `{unknown_int_modifier(..)}`. */
  lemma NonNumericOperandIsUnknown(fuel: nat, fenv: FormatterEnv, pv: ParseValue, mod: string, op: string,
                                   n: int, ct: string, cf: string)
    requires OperatorOf(Lower(mod)) == Some(op)
    requires StringToNumber(ReplaceFirst(Lower(mod), op, "")).None?
    ensures Modifier(fuel, fenv, pv, mod, VNum(n), Some(ct), Some(cf)) == UnknownOf("int", Lower(mod))
  {
    ModifierOnNumber(fuel, fenv, pv, mod, n, Some(ct), Some(cf));
    OperatorsAreNotNumberTexts(fenv, Lower(mod), n);
  }

  lemma ModifierOnString(fuel: nat, fenv: FormatterEnv, pv: ParseValue, mod: string, v: string,
                         ct: Option<string>, cf: Option<string>)
    ensures Modifier(fuel, fenv, pv, mod, VStr(v), ct, cf)
         == StringModifier(fuel, fenv, pv, Lower(mod), v,
                           if ct.Some? then Some(Unquote(ct.value)) else None,
                           if cf.Some? then Some(Unquote(cf.value)) else None)
  {
  }

  lemma ModifierOnArray(fuel: nat, fenv: FormatterEnv, pv: ParseValue, mod: string, xs: seq<string>,
                        ct: Option<string>, cf: Option<string>)
    ensures Modifier(fuel, fenv, pv, mod, VArr(xs), ct, cf)
         == ArrayModifier(fuel, fenv, pv, Lower(mod), xs,
                          if ct.Some? then Some(Unquote(ct.value)) else None,
                          if cf.Some? then Some(Unquote(cf.value)) else None)
  {
  }

  lemma ExistsIsNamedString(m: string)
    requires m == "exists"
    ensures m != "upper" && m != "lower" && m != "title" && m != "length" && m != "reverse"
      && m != "base64" && m != "string"
  {
    assert m[0] == 'e';
  }

  /** `exists` on a string holds exactly when the string is neither empty nor
      the text `null`. */
  lemma StringExistsIff(fuel: nat, fenv: FormatterEnv, pv: ParseValue, mod: string, v: string, ct: string, cf: string)
    requires Lower(mod) == "exists"
    ensures Modifier(fuel, fenv, pv, mod, VStr(v), Some(ct), Some(cf))
         == if v != "" && v != "null" then Resolve(fuel, fenv, pv, Unquote(ct)) else Resolve(fuel, fenv, pv, Unquote(cf))
  {
    ModifierOnString(fuel, fenv, pv, mod, v, Some(ct), Some(cf));
    ExistsIsNamedString(Lower(mod));
  }

  /** A `null` value with a conditional modifier renders the false literal;
      with any other modifier, or without the literals, `{unknown_modifier(..)}`. */
  lemma NullValueFallsBack(fuel: nat, fenv: FormatterEnv, pv: ParseValue, mod: string,
                           checkTrue: Option<string>, checkFalse: Option<string>)
    ensures checkFalse.Some? && ConditionalModifier(Lower(mod)) ==>
      Modifier(fuel, fenv, pv, mod, VNull, checkTrue, checkFalse) == Resolve(fuel, fenv, pv, Unquote(checkFalse.value))
    ensures !(checkFalse.Some? && ConditionalModifier(Lower(mod))) ==>
      Modifier(fuel, fenv, pv, mod, VNull, checkTrue, checkFalse) == "{unknown_modifier(" + Lower(mod) + ")}"
  {
  }

  lemma JoinModifierShape(u: string)
    ensures var m := "join(" + Lower(u) + ")";
      m != "join" && StartsWith(m, "join(") && EndsWith(m, ")") && m[5..|m| - 1] == Lower(u)
  {
    var m := "join(" + Lower(u) + ")";
    assert m[..5] == "join(";
    assert m[|m| - 1..] == ")";
    assert |m| > 4;
  }

  lemma LowerOfJoin(u: string)
    ensures Lower("join(" + u + ")") == "join(" + Lower(u) + ")"
  {
    LowerConcat("join(", u + ")");
    LowerConcat(u, ")");
    LowerOfJoinPrefix();
    assert Lower(")") == ")";
    assert "join(" + u + ")" == "join(" + (u + ")");
  }

  lemma LowerOfJoinPrefix()
    ensures Lower("join(") == "join("
  {
    LowerOfLowerLetters("join");
    LowerConcat("join", "(");
    assert "join(" == "join" + "(";
  }

  /** `join(sep)` joins with the separator between the parentheses, without one
      enclosing quote on each side; the separator is lower-cased with the rest
      of the modifier. */
  lemma JoinSeparatorIsLowerCased(fuel: nat, fenv: FormatterEnv, pv: ParseValue, u: string, xs: seq<string>,
                                  ct: Option<string>, cf: Option<string>)
    ensures Modifier(fuel, fenv, pv, "join(" + u + ")", VArr(xs), ct, cf) == Join(xs, StripQuotes(Lower(u)))
  {
    ModifierOnArray(fuel, fenv, pv, "join(" + u + ")", xs, ct, cf);
    LowerOfJoin(u);
    JoinModifierShape(u);
  }

  /** `~word` on an array holds when some entry, lower-cased, contains the word
      with its first underscore read as a blank. */
  lemma ArrayContainsTest(fuel: nat, fenv: FormatterEnv, pv: ParseValue, mod: string, xs: seq<string>, ct: string, cf: string)
    requires StartsWith(Lower(mod), "~")
    ensures Modifier(fuel, fenv, pv, mod, VArr(xs), Some(ct), Some(cf))
         == Choose(fuel, fenv, pv, AnyContains(xs, ReplaceFirst(Lower(mod)[1..], "_", " ")), Unquote(ct), Unquote(cf))
  {
    ModifierOnArray(fuel, fenv, pv, mod, xs, Some(ct), Some(cf));
    var m := Lower(mod);
    ArrayTildeBranch(fuel, fenv, pv, m, xs, Unquote(ct), Unquote(cf));
    TildeStripped(m);
  }

  lemma ArrayTildeBranch(fuel: nat, fenv: FormatterEnv, pv: ParseValue, m: string, xs: seq<string>, ct: string, cf: string)
    requires StartsWith(m, "~")
    ensures ArrayModifier(fuel, fenv, pv, m, xs, Some(ct), Some(cf))
         == Choose(fuel, fenv, pv, AnyContains(xs, ReplaceFirst(ReplaceFirst(m, "~", ""), "_", " ")), ct, cf)
  {
    TildeIsNoNamedArrayModifier(m);
  }

  /** A modifier starting with `~` is none of the named array modifiers. */
  lemma TildeIsNoNamedArrayModifier(m: string)
    requires StartsWith(m, "~")
    ensures !StartsWith(m, "join(") && m != "join" && m != "length" && m != "first" && m != "last"
    ensures m != "random" && m != "sort" && m != "reverse"
  {
    assert m[0] == '~';
    assert "join("[0] == 'j';
  }

  lemma TildeStripped(m: string)
    requires StartsWith(m, "~")
    ensures ReplaceFirst(m, "~", "") == m[1..]
  {
    assert m[0] == '~';
    assert MatchesAt(m, 0, "~");
    assert IndexOf(m, "~") == Some(0);
  }

  /** After post-processing, the text before the newline tokens are expanded is
      exactly the surviving lines joined by line breaks: none blank, none asking
      for removal, in their original order. */
  lemma PostProcessLines(s: string)
    ensures var kept := KeptLines(Split(ReplaceAll(s, "\\n", "\n"), '\n'));
      && PostProcess(s) == ExpandNewLines(Join(kept, "\n"))
      && (forall k :: 0 <= k < |kept| ==> KeepLine(kept[k]))
      && (|kept| > 0 ==> Split(Join(kept, "\n"), '\n') == kept)
  {
    var lines := Split(ReplaceAll(s, "\\n", "\n"), '\n');
    var kept := KeptLines(lines);
    SplitPiecesNoSep(ReplaceAll(s, "\\n", "\n"), '\n');
    if |kept| > 0 {
      assert forall k :: 0 <= k < |kept| ==> NoChar(kept[k], '\n');
      SplitJoin(kept, '\n');
    }
  }

  /** A line made only of the newline token survives the blank-line filter,
      since the token is expanded after the filter. */
  lemma NewLineTokenLineSurvives()
    ensures KeepLine("{tools.newLine}")
  {
    var l := "{tools.newLine}";
    assert l[0] == '{' && !IsSpace(l[0]);
    assert TrimStart(l) == l;
    assert Trim(l) != "" by {
      assert |TrimEnd(l)| > 0 by {
        assert l[|l| - 1] == '}';
      }
    }
    ContainsIff(l, "{tools.removeLine}");
  }

  /** A size of `0` (or an absent or `NaN` size) is rendered as `null`. */
  lemma SizeZeroIsNull(fenv: FormatterEnv, s: ParsedStream)
    ensures ConvertStreamToParseValue(fenv, s).stream["size"] == VNull <==> !s.size.Truthy()
  {
    assert StreamGroup(fenv, s)["size"] == NumberOrNull(s.size);
  }

  /** `x || null` on the numeric fields: an absent, `NaN` or `0` value becomes `null`. */
  lemma NumbersFalsyToNull(fenv: FormatterEnv, s: ParsedStream)
    ensures var st := ConvertStreamToParseValue(fenv, s).stream;
      && st["folderSize"] == (if s.folderSize.Truthy() then VNum(s.folderSize.n) else VNull)
      && st["duration"] == (if s.duration.Some? && s.duration.value != 0 then VNum(s.duration.value) else VNull)
      && st["season"] == (if s.parsedFile.Some? && s.parsedFile.value.season.Some? && s.parsedFile.value.season.value != 0
                          then VNum(s.parsedFile.value.season.value) else VNull)
      && st["episode"] == (if s.parsedFile.Some? && s.parsedFile.value.episode.Some? && s.parsedFile.value.episode.value != 0
                           then VNum(s.parsedFile.value.episode.value) else VNull)
  {
    var pf := s.parsedFile;
    assert StreamGroup(fenv, s)["folderSize"] == NumberOrNull(s.folderSize);
    assert StreamGroup(fenv, s)["duration"] == IntOrNull(s.duration);
    assert StreamGroup(fenv, s)["season"] == IntOrNull(if pf.Some? then pf.value.season else None);
    assert StreamGroup(fenv, s)["episode"] == IntOrNull(if pf.Some? then pf.value.episode else None);
  }

  /** Both emoji fields are the duplicate-free emojis of the languages, the second one
      americanised. */
  lemma EmojiFields(fenv: FormatterEnv, s: ParsedStream)
    ensures ConvertStreamToParseValue(fenv, s).stream["languageEmojis"] == EmojiValue(fenv, s.parsedFile, false)
    ensures ConvertStreamToParseValue(fenv, s).stream["wedontknowwhatakilometeris"] == EmojiValue(fenv, s.parsedFile, true)
  {
    assert StreamGroup(fenv, s)["languageEmojis"] == EmojiValue(fenv, s.parsedFile, false);
    assert StreamGroup(fenv, s)["wedontknowwhatakilometeris"] == EmojiValue(fenv, s.parsedFile, true);
  }

  /** A seeder count of `0` stays `0`: only a missing count becomes `null`. */
  lemma ZeroSeedersStay(fenv: FormatterEnv, s: ParsedStream)
    requires s.torrent.Some? && s.torrent.value.seeders == Finite(0)
    ensures ConvertStreamToParseValue(fenv, s).stream["seeders"] == VNum(0)
  {
    var t := s.torrent;
    assert StreamGroup(fenv, s)["seeders"] == VNum(t.value.seeders.n);
  }

  /** The flags keep `false`; only a missing flag becomes `null`. */
  lemma FlagsKeepFalse(fenv: FormatterEnv, s: ParsedStream)
    ensures ConvertStreamToParseValue(fenv, s).stream["library"] == BoolOrNull(s.library)
    ensures ConvertStreamToParseValue(fenv, s).stream["proxied"] == BoolOrNull(s.proxied)
    ensures s.library == Some(false) ==> ConvertStreamToParseValue(fenv, s).stream["library"] == VBool(false)
  {
    assert StreamGroup(fenv, s)["library"] == BoolOrNull(s.library);
    assert StreamGroup(fenv, s)["proxied"] == BoolOrNull(s.proxied);
  }

}
