# AIOStreams core, modelled in Dafny

AIOStreams is a Stremio add-on that asks many other add-ons for streams and
merges what they return. It turns their free-text answers into structured stream
records and filters, sorts and limits them. It may route the links through a
proxy, and it renders each stream's name and description from a user template.
On start-up it also combines the add-ons' manifests into one.

This project models the deterministic core of that pipeline and proves its
properties:

- **`StreamParsing`** (`stream_parser.dfy`, with worked examples in
  `parser_examples.dfy`) models the stream parser. A class `StreamParser` numbers
  the streams it parses. It detects error texts and finds the filename and folder,
  size, seeders, indexer, duration, info hash, debrid service and cache state,
  flag languages and stream type. It merges the folder's and the file's parsed
  metadata.
- **`Formatter`** (`formatter.dfy`) models the template formatter. A parsed stream
  becomes a record of values. The `{type.prop::modifier["yes"||"no"]}`
  placeholders are substituted one at a time, and the lines are post-processed.
- **`Proxifier`** (`proxifier.dfy`) decides which streams are proxied. It writes
  the generated URLs back to the eligible streams and drops the eligible streams
  that got no URL.
- **`Orchestrator`** (`orchestrator.dfy`) models the `AIOStreams` class. It
  covers:
  - choosing the add-ons asked for streams;
  - assembling the stream answer, with external-download copies;
  - the gate for pre-caching the next episode;
  - the ordered list of meta candidates and trying them in turn;
  - turning presets into add-ons, and loading manifests;
  - building the combined resources and catalogs;
  - forwarding a catalog request.
- **`Manifests`** (`manifest.dfy`) merges one add-on's resources into the combined
  resource list. It also prefixes catalog ids and tags the meta resource with the
  error prefix.
- **`CatalogModifications`** (`catalog_mods.dfy`) applies the user's catalog
  modifications: the stable reordering, the `enabled === false` filter, renaming,
  type override, `onlyOnDiscover` and `disableSearch`.
- **`Episodes`** (`episodes.dfy`) computes the next episode's id.
- **`CatalogExtrasModel`** (`catalog_extras.dfy`) models the catalog extras string
  `genre=..&search=..&skip=..`. It covers parsing, the class with its getters and
  setters, and serialising.
- **`JsText`** (`jstext.dfy`) gives the JavaScript string and number operations
  the core relies on:
  - `trim`, `split`, `join`, `indexOf`, `replace` (first occurrence);
  - ASCII case mapping and `new Set` de-duplication;
  - `parseInt`, `parseFloat`, `Number(..)` and `toString(radix)`.
- **`Types`** (`types.dfy`) holds the records: add-on, parsed stream, parsed file
  and service. **`Wrappers`** (`wrappers.dfy`) holds `Option` and `Result`.

Components the core calls but whose code is not part of this model are passed in
as parameters:

- the filename parser;
- the service table and the language tables;
- the Unicode property tests `Emoji_Presentation`, `\p{L}` and `\p{N}`;
- the `zod` schemas for extras;
- the fetcher, deduplicator, sorter, limiter, expression filter and proxy URL
  generator;
- manifest loading and meta fetching;
- `formatBytes`, `formatDuration`, `languageToEmoji`, `toLocaleString`, `btoa`;
- the cache, which is a map passed in and returned.

A thrown error is a `Failure` of `Result`, except the `btoa` failure in the
formatter (see "## Left out"). Regular expressions with a fixed
pattern are written out as scanning functions. The formatter's placeholder
pattern is an abstract scanner: its matches are guaranteed to be well-formed
braced spans.

## Model

| member | source | states |
|---|---|---|
| StreamParsing.StreamParser.Parse | packages/core/src/parser/streams.ts:55-130 | Every call advances the counter by one, even when the parse fails. The result is exactly the parse outcome for the id drawn from the old counter value. |
| StreamParsing.StreamParser.GetRandomId | packages/core/src/parser/streams.ts:132-134 | Returns `instanceId-count` for the old counter, then increments the counter. |
| StreamParsing.StreamIdsDistinct | packages/core/src/parser/streams.ts:132-134 | Two counter values give two different ids, so ids from one parser never repeat. |
| StreamParsing.StreamParser.ExtractTexts | packages/core/src/parser/streams.ts:93-105 | The field-by-field assignments of filename, folder (collapsed), size, folder size and indexer equal the specification function `WithTexts`. |
| StreamParsing.StreamParser.Complete | packages/core/src/parser/streams.ts:106-127 | The assignments of service, duration, type, library, age, message, parsed file and torrent equal `Completed`. The torrent takes the stream's info hash for p2p and the one in the url otherwise. |
| StreamParsing.DefaultRejectsInvalidCredentials | packages/core/src/parser/streams.ts:8-15 | With the default rules, a description matching `invalid <word> account/apikey/token` makes the parse fail with the invalid-credentials message, before any field is extracted. |
| StreamParsing.RaiseErrorIfNecessary | packages/core/src/parser/streams.ts:140-152 | Without error rules nothing is raised. Otherwise the result is the first matching rule's message. |
| StreamParsing.FirstError | packages/core/src/parser/streams.ts:147-151 | A raised message belongs to a rule whose pattern matches. Nothing is raised exactly when no pattern matches. |
| StreamParsing.ErrorHookGivesErrorStream | packages/core/src/parser/streams.ts:75-79 | When the error hook reports an error, the result is an error-type stream with no filename, service, parsed file or torrent. |
| StreamParsing.ParseKeepsIdentity | packages/core/src/parser/streams.ts:56-69 | A successful parse keeps the drawn id, the add-on, the original name and description-or-title, and the url after the url hook. Its type is the error type exactly when the error hook fired. |
| StreamParsing.DescriptionOrTitle | packages/core/src/parser/streams.ts:68-71 | The description when it is non-empty, else the title. |
| StreamParsing.StreamTypePrecedence | packages/core/src/parser/streams.ts:348-379 | Each type is chosen exactly when its test is the first to hold, in this order: info hash, then `.m3u8` url, Easynews service, other service, url, external url, YouTube id. The error type is never chosen. |
| StreamParsing.InfoHashMeansP2P | packages/core/src/parser/streams.ts:119-123 | A stream with an info hash parses as p2p and its torrent keeps that hash. |
| StreamParsing.MissingPropertyIff | packages/core/src/parser/streams.ts:380 | The parse fails with the missing-property error exactly when there is no info hash, url, external url, YouTube id or recognised service. |
| StreamParsing.ParseServiceData | packages/core/src/parser/streams.ts:516-549 | The loop over the service table equals `ServiceData`. |
| StreamParsing.ServiceData | packages/core/src/parser/streams.ts:516-549 | The service is built from the LAST table entry whose known names match the name without `web-dl`, with `CachedFlag` of the name as its cached flag. Nothing is detected exactly when no entry matches. |
| StreamParsing.LastMatchingService | packages/core/src/parser/streams.ts:524-547 | The index found matches, and no later index below the bound does. `None` means no index matches. |
| StreamParsing.CachedFlag | packages/core/src/parser/streams.ts:532-540 | True exactly when the name holds no uncached marker and holds some cached marker. An uncached marker overrides a cached one. |
| ParserExamples.LowerCaseUncachedReadsCached | packages/core/src/parser/streams.ts:521-540 | Because `UNCACHED` is matched case-sensitively, `"RD uncached"` is read as cached (its `cached` substring). |
| StreamParsing.StreamParser.constructor | packages/core/src/parser/streams.ts:6-7 | A new parser starts its counter at 0. |
| StreamParsing.DefaultConfig | packages/core/src/parser/streams.ts:8-51 | The base parser uses k = 1024 and one error rule, and has no filename, folder or age pattern. Its url hook is the identity. |
| StreamParsing.GetFilename | packages/core/src/parser/streams.ts:161-204 | The method, with its loop and `break`, equals `FilenameOf`. |
| StreamParsing.NonBlankLines | packages/core/src/parser/streams.ts:184-187 | A line is kept exactly when it is non-blank, and never more lines than given. With `NonBlankLinesSnoc`, the kept lines are the non-blank lines in their original order. |
| StreamParsing.NonBlankLinesSnoc | packages/core/src/parser/streams.ts:184-187 | Filtering the lines plus one more line is filtering the lines, plus that line when it is non-blank. |
| StreamParsing.FirstInformative | packages/core/src/parser/streams.ts:189-195 | The result is the FIRST line whose parse has a year or an episode. `None` means no line has one. |
| StreamParsing.FilenameCandidates | packages/core/src/parser/streams.ts:184-188 | The candidates are the first five non-blank lines, or all of them when there are fewer. |
| StreamParsing.FilenameLine | packages/core/src/parser/streams.ts:189-200 | The filename line is the first informative candidate, otherwise the first line of the description. |
| StreamParsing.FilenameOf | packages/core/src/parser/streams.ts:161-204 | A filename hint wins. Otherwise, with a description, a matching filename pattern wins, else the cleaned filename line. Without a description there is no filename. |
| StreamParsing.InformativeIsYearOrEpisode | packages/core/src/parser/streams.ts:191 | The `season && episode` test is subsumed: a line is chosen exactly when it has a year or a non-zero episode. |
| StreamParsing.CollapseFolder | packages/core/src/parser/streams.ts:81-102 | The folder is dropped exactly when it is absent, or both names are present and normalise to the same text. Otherwise it is kept. |
| StreamParsing.StripVideoExtension | packages/core/src/parser/streams.ts:84-86 | The result is a prefix of the text. What is removed is a video extension, and no longer suffix is one. Nothing is removed when the text ends in none. |
| StreamParsing.KeepLettersAndNumbers | packages/core/src/parser/streams.ts:87 | A character survives exactly when it is a letter, a digit or `+`. With `KeepLettersAndNumbersSnoc`, the survivors keep their order and multiplicity. |
| StreamParsing.KeepLettersAndNumbersSnoc | packages/core/src/parser/streams.ts:87 | Filtering the text plus one character is filtering the text, plus that character when it survives. |
| StreamParsing.CalculateBytes | packages/core/src/parser/streams.ts:488-514 | Without a size pattern the result is undefined, and when the pattern does not match it is 0. On a match, an unknown unit gives 0 and an unparsable number gives `NaN`. Otherwise the result is the number times the unit factor. It is never a string. |
| StreamParsing.UnitFactorByUnit | packages/core/src/parser/streams.ts:499-507 | KB, MB, GB and TB, in any case, are k, k^2, k^3 and k^4 bytes. Any other unit has factor 0. |
| ParserExamples.SizeUnitExample | packages/core/src/parser/streams.ts:499-507 | With the default size pattern and k = 1024, `"1.5 GB"` is 1.5 * 1024^3 bytes, for any parser configuration. |
| ParserExamples.SizeUnitExampleBase1000 | packages/core/src/parser/streams.ts:492-507 | With the default size pattern and k = 1000, the same text is 1.5 * 10^9 bytes. |
| ParserExamples.SizeRegexExample | packages/core/src/parser/streams.ts:23-25 | The default size pattern captures the number `1.5` and the unit `GB`. |
| ParserExamples.SizeFromDescriptionExample | packages/core/src/parser/streams.ts:219-245 | A stream whose only size source is the description `"1.5 GB"` gets size 1610612736. |
| StreamParsing.SizeOfLastOperand | packages/core/src/parser/streams.ts:230-244 | With no hint and no size in the description, an empty name gives `NaN` (`parseInt("")`), and an absent name leaves the size undefined. |
| StreamParsing.GetSize | packages/core/src/parser/streams.ts:219-245 | The size is the first truthy operand of the chain (four hints, then the description, then the name), or the last operand when none is truthy. A non-zero numeric video-size hint is the size, rounded. |
| StreamParsing.ChainSpec | packages/core/src/parser/streams.ts:230-244 | `a || b || ...` is its first truthy operand, or its last operand when none is truthy. |
| StreamParsing.ChainFirstTruthy | packages/core/src/parser/streams.ts:230-244 | The chain is its first truthy operand. |
| StreamParsing.ChainNoneTruthy | packages/core/src/parser/streams.ts:230-244 | With no truthy operand, the chain is its last operand. |
| StreamParsing.SeedersOf | packages/core/src/parser/streams.ts:254-268 | Without a seeders match, the count is undefined. Otherwise it is `parseInt` of the match, or `NaN` when that fails. |
| StreamParsing.DefaultSeeders | packages/core/src/parser/streams.ts:30-32 | With the default pattern, the count is the value of the FIRST seeder match in the description, and is undefined without a description or a match. |
| StreamParsing.DefaultSeedersRegex | packages/core/src/parser/streams.ts:31 | The default seeders pattern returns the FIRST match, and `None` when no position matches. |
| StreamParsing.DefaultSizeRegex | packages/core/src/parser/streams.ts:24 | The default size pattern returns the FIRST match, and `None` when no position matches. |
| StreamParsing.SizeAt | packages/core/src/parser/streams.ts:24 | A match has a non-empty number and one of the units KB, MB, GB or TB, in any case. |
| StreamParsing.SeedersAt | packages/core/src/parser/streams.ts:31 | A seeder match is a non-empty run of digits. |
| ParserExamples.SeedersExample | packages/core/src/parser/streams.ts:254-268 | The description `"👤 120"` gives 120 seeders. |
| ParserExamples.IndexerKeepsTrailingBlank | packages/core/src/parser/streams.ts:46-51 | In `"🌐 SomeIndexer 👤 120"` the indexer is `"SomeIndexer "`. The blank before the next emoji is kept. |
| StreamParsing.PlainRun | packages/core/src/parser/streams.ts:48 | The captured run contains no emoji or newline and stops at one or at the end. |
| StreamParsing.DurationMs | packages/core/src/parser/streams.ts:325-346 | The duration is the FIRST match's (h*3600 + m*60 + s)*1000 ms, and 0 when no position matches. |
| ParserExamples.DurationExample | packages/core/src/parser/streams.ts:338-345 | `"1h 30m"` is 5400000 ms. |
| StreamParsing.InfoHashInUrl | packages/core/src/parser/streams.ts:316-323 | The hash is the FIRST 40-hex-digit match in the url, and `None` when there is no url or no match. |
| StreamParsing.FirstPriority | packages/core/src/parser/streams.ts:456-458 | The index of the FIRST entry flagged as priority. `None` means no entry is. |
| StreamParsing.EntriesForFlag | packages/core/src/parser/streams.ts:452-454 | An entry is kept exactly when it is for this flag. With `EntriesForFlagSnoc`, the kept entries are in mapping order. |
| StreamParsing.LanguageForFlag | packages/core/src/parser/streams.ts:450-468 | The language is that of the first priority entry for the flag, else of the first entry. It is kept only when it is non-empty and supported. A flag without entries gives none. |
| StreamParsing.Supported | packages/core/src/parser/streams.ts:460-467 | A language name is kept exactly when it is non-empty and in the supported list. |
| StreamParsing.FlagLanguages | packages/core/src/parser/streams.ts:450-470 | The flag languages are exactly the languages found for the flags, all supported, and there is at most one per flag. |
| StreamParsing.FlagLanguagesAppend | packages/core/src/parser/streams.ts:446-470 | The languages of two flag lists, concatenated, are the two results concatenated, so the mapping keeps the flags' order. |
| StreamParsing.TextFlags | packages/core/src/parser/streams.ts:443-448 | The flags of a text are its country-flag pairs, without repeats. |
| StreamParsing.GetLanguages | packages/core/src/parser/streams.ts:439-472 | The languages are those of the description's flags, then those of the name's flags. A language is listed exactly when some flag in either text maps to it, and every language is supported. |
| StreamParsing.MergeParsedFileProperties | packages/core/src/parser/streams.ts:383-431 | The title comes from the folder first. Year, resolution, quality, encode, release group, season, episode, seasons and season-episode come from the file first, falling back to the folder when absent (or 0 for season and episode). The four tag and language lists are duplicate-free unions that start with the folder's de-duplicated entries, and the languages also take the flag languages. |
| Formatter.Format | packages/core/src/formatters/base.ts:106-112 | Each of the name and the description renders as `''` when its template is empty. Otherwise it is the post-processed substitution of that template on the stream's record. |
| Formatter.ParseString | packages/core/src/formatters/base.ts:183-273 | The `while` loop that substitutes at the match index and resumes there equals `ParseStr`. |
| Formatter.ScanKeepsPrefix | packages/core/src/formatters/base.ts:206-263 | Substitution never changes the text before the position the search started from. |
| Formatter.SelfInsertionRepeats | packages/core/src/formatters/base.ts:257-262 | A value that is itself the placeholder being replaced is inserted again at the same index. For every bound on the number of steps the text stays the same, so the source loop does not terminate on such input. |
| Formatter.PlaceholderOutcomes | packages/core/src/formatters/base.ts:211-261 | An unknown type renders `{unknown_type}`. A property the group does not hold renders `{unknown_value}`. Without a modifier, the value's text is inserted, with `null` as `"null"`. |
| Formatter.UnknownTypeIffNotLowerCase | packages/core/src/formatters/base.ts:203-213 | The pattern accepts any case, but only the lower-case type names find a group. An upper-case type renders `{unknown_type}`. |
| Formatter.GroupOf | packages/core/src/formatters/base.ts:211 | A group exists exactly for the five type names. |
| Formatter.ReplaceChars | packages/core/src/formatters/base.ts:592-599 | The result keeps the prefix before `start` and the suffix from `end`, with the replacement exactly in between. |
| Formatter.PostProcessLines | packages/core/src/formatters/base.ts:265-272 | Literal `\n` becomes a line break first. Blank lines and lines asking for removal are dropped, the rest are joined, and only then does `{tools.newLine}` expand. The kept lines split back unchanged. |
| Formatter.KeptLines | packages/core/src/formatters/base.ts:268-270 | Exactly the lines that are neither blank nor ask for removal survive. With `KeptLinesSnoc`, they keep their order. |
| Formatter.KeptLinesSnoc | packages/core/src/formatters/base.ts:268-270 | Filtering the lines plus one more line is filtering the lines, plus that line when it is kept. |
| Formatter.NewLineTokenLineSurvives | packages/core/src/formatters/base.ts:268-272 | A line holding only the newline token survives the filter, because the token expands after it. |
| Formatter.ModifierIgnoresCase | packages/core/src/formatters/base.ts:283 | Modifiers are dispatched on their lower-cased name. |
| Formatter.Unquote | packages/core/src/formatters/base.ts:284-285 | A check literal loses exactly its first and last character. |
| Formatter.JoinSeparatorIsLowerCased | packages/core/src/formatters/base.ts:283-298 | `join(sep)` joins with the lower-cased separator, without its quotes. |
| Formatter.ModifierOnArray | packages/core/src/formatters/base.ts:287-344 | On an array, the array dispatch runs with the lower-cased modifier and the unquoted literals. |
| Formatter.ArrayContainsTest | packages/core/src/formatters/base.ts:313-328 | `~text` on an array picks the true branch exactly when some item, lower-cased, contains the text, with the first `_` read as a space. |
| Formatter.ModifierOnString | packages/core/src/formatters/base.ts:345-445 | On a string, the string dispatch runs with the lower-cased modifier and the unquoted literals. |
| Formatter.StringExistsIff | packages/core/src/formatters/base.ts:365-376 | `exists` on a string takes the true branch exactly when the string is non-empty and not the text `null`. |
| Formatter.ModifierOnNumber | packages/core/src/formatters/base.ts:446-546 | On a number, the number dispatch runs with the lower-cased modifier and the unquoted literals. |
| Formatter.OperatorOf | packages/core/src/formatters/base.ts:464-543 | The operator found is one the modifier starts with. It is tried before any later operator in the order `>=`, `>`, `=`, `<=`, `<`. `None` means the modifier starts with none of them. |
| Formatter.NumberComparison | packages/core/src/formatters/base.ts:464-543 | With a numeric operand, the branch is chosen by comparing the value with the operand. |
| Formatter.TwoCharacterOperatorsFirst | packages/core/src/formatters/base.ts:464-495 | `>=x` and `<=x` compare with `>=`/`<=` against x. They are never read as `>` or `<` with operand `=x`. |
| Formatter.NonNumericOperandIsUnknown | packages/core/src/formatters/base.ts:468-470 | A comparison whose operand is not a number renders `{unknown_int_modifier(mod)}`. |
| Formatter.MissingChecksAreUnknown | packages/core/src/formatters/base.ts:314-315 | A conditional modifier without its pair of literals renders the unknown text for the value's kind: array, str, int, bool, or the generic one for `null`. The same holds at lines 366-367, 465-466 and 550-551. |
| Formatter.NullValueFallsBack | packages/core/src/formatters/base.ts:578-589 | On `null`, a comparison, `exists`, `istrue` or `isfalse` modifier with a false literal renders the false branch. Anything else renders `{unknown_modifier(mod)}`. |
| Formatter.ConvertStreamToParseValue | packages/core/src/formatters/base.ts:114-181 | `config` holds the add-on name, and `addon` holds the add-on's name, preset type and manifest url. `service` is all `null` without a service. Otherwise its id is `id || null` and `cached` is the flag. Its short name and name come from the first table entry with that id, and are `null` when there is none. |
| Formatter.NumbersFalsyToNull | packages/core/src/formatters/base.ts:122-150 | `|| null` on folder size, duration, season and episode: 0 or absent becomes `null`, and any other number is kept. |
| Formatter.EmojiFields | packages/core/src/formatters/base.ts:128-138 | `languageEmojis` is the plain emoji list, and `wedontknowwhatakilometeris` the americanised one. |
| Formatter.SizeZeroIsNull | packages/core/src/formatters/base.ts:122 | `size || null`: a size of 0 (or absent, or `NaN`) becomes `null`. |
| Formatter.ZeroSeedersStay | packages/core/src/formatters/base.ts:146 | `seeders ?? null`: 0 seeders stay 0. |
| Formatter.FlagsKeepFalse | packages/core/src/formatters/base.ts:124 | `library` and `proxied` keep `false`. Only a missing flag becomes `null`. |
| Formatter.TextOrNull | packages/core/src/formatters/base.ts:120-121 | A text field is a string exactly when it is non-empty. |
| Formatter.EmojiValue | packages/core/src/formatters/base.ts:128-138 | The emojis exist exactly when there is parsed metadata. They are duplicate-free and hold exactly the languages mapped through `languageToEmoji` (the language itself when it has no emoji), with the British flag replaced in the americanised variant. They are in order of first occurrence. |
| JsText.DedupOrder | packages/core/src/formatters/base.ts:128-138 | `new Set` and `indexOf` de-duplication keeps the elements in the order of their first occurrence. |
| JsText.FirstIndex | packages/core/src/formatters/base.ts:131 | The index of the first occurrence of the element. |
| Formatter.Americanise | packages/core/src/formatters/base.ts:136 | Each item has its first British flag replaced by the American flag and eagle. |
| Formatter.FindService | packages/core/src/formatters/base.ts:167-176 | The index of the FIRST table entry with this id. `None` means there is none. |
| Proxifier.Proxify | packages/core/src/streams/proxifier.ts:35-86 | The three-phase method (collect, write back, drop) equals `Proxified`. |
| Proxifier.DisabledIsIdentity | packages/core/src/streams/proxifier.ts:36-38 | With the proxy disabled, the streams come back unchanged. |
| Proxifier.EligibleIndices | packages/core/src/streams/proxifier.ts:14-33 | The eligible indices are strictly increasing, and each names an eligible stream. Every eligible stream is listed: it has a url, the proxy is enabled, and each allow-list is empty or names its preset instance or its service id (`none` without a service). |
| Proxifier.CollectEligible | packages/core/src/streams/proxifier.ts:40-42 | The collected indices are exactly the eligible ones. |
| Proxifier.UrlGoesToEligibleStream | packages/core/src/streams/proxifier.ts:68-73 | The i-th URL goes to the i-th eligible stream, which is marked proxied. A missing or empty URL removes that stream. |
| Proxifier.EligibleAtRank | packages/core/src/streams/proxifier.ts:68 | An eligible stream's position among the eligible streams is its index into the URL list. |
| Proxifier.IneligibleUntouched | packages/core/src/streams/proxifier.ts:66-85 | A stream that is not eligible passes through unchanged. |
| Proxifier.ProxifiedNeverGrows | packages/core/src/streams/proxifier.ts:78-85 | The output is never longer than the input. |
| Proxifier.AllKept | packages/core/src/streams/proxifier.ts:82 | When every stream has an outcome, the output is the streams' outcomes in the original order. |
| Proxifier.WriteBack | packages/core/src/streams/proxifier.ts:66-76 | After the write-back loop, each eligible stream holds its new url or is marked for removal, and the other streams are unchanged. |
| Proxifier.DropRemoved | packages/core/src/streams/proxifier.ts:78-83 | Filtering out the marked indices gives `Proxified`. |
| Orchestrator.AIOStreams.SelectStreamAddons | packages/core/src/main.ts:135-153 | The loop over the resource table equals `StreamAddons`. |
| Orchestrator.StreamAddonsIff | packages/core/src/main.ts:135-153 | An add-on is asked for streams exactly when some table entry has a `stream` resource for the type with no prefix list or a prefix of the id, and the entry's instance id finds that add-on. |
| Orchestrator.EmptyPrefixListServesNothing | packages/core/src/main.ts:143-145 | An empty (but present) prefix list serves no id. |
| Orchestrator.AIOStreams.GetStreams | packages/core/src/main.ts:122-277 | The answer is `StreamsFor`: the pipeline stages in order, with initialisation errors after the fetch errors. The pre-cache flag is set exactly when the user wants pre-caching, this is not a pre-cache request, and no pre-cache is recorded for the key. |
| Orchestrator.DropHdrDv | packages/core/src/main.ts:189-198 | The `HDR+DV` tag is removed and every other tag kept. Nothing else changes. |
| Orchestrator.AddExternalDownloads | packages/core/src/main.ts:246-263 | The loop equals `WithDownloads`. |
| Orchestrator.WithDownloadsLength | packages/core/src/main.ts:246-263 | The output has one extra stream per stream with a url. |
| Orchestrator.WithDownloadsAt | packages/core/src/main.ts:252-259 | Every stream appears in order, followed immediately by its download copy exactly when it has a url. |
| Orchestrator.PrecacheTarget | packages/core/src/main.ts:1181-1191 | The target is an uncached service stream with a url. When some service stream is cached and `alwaysPrecache` is off, there is no target. When every service stream is uncached or `alwaysPrecache` is on, and the first uncached service stream has a url, that stream is the target. |
| Orchestrator.FirstUncached | packages/core/src/main.ts:1188-1190 | The stream at the first position whose service is marked uncached. `None` means there is none. |
| Orchestrator.AIOStreams.PrecacheNextEpisode | packages/core/src/main.ts:1129-1219 | An id without an episode suffix changes nothing. Otherwise the user data loses its uncached filter and groups, and the cache records the next episode's streams only after a successful ping. A key stops further pre-caching while it is in the cache. The resources are untouched. |
| Episodes.SeasonEpisode | packages/core/src/main.ts:1130-1131 | A match splits the id into title, season digits and episode digits, which give the id back. |
| Episodes.SeasonEpisodeUnique | packages/core/src/main.ts:1130-1136 | `t:S:E` with digit runs S and E is read as title t, season S, episode E. |
| Episodes.NextEpisodeId | packages/core/src/main.ts:1130-1134 | There is no next id exactly when the id has no `:S:E` suffix. |
| Episodes.NextWithinSeason | packages/core/src/main.ts:1154-1167 | Unless the season ends there, the next id is episode E+1 of season S. |
| Episodes.NextAcrossSeasons | packages/core/src/main.ts:1157-1167 | After the season's last episode, when season S+1 exists, the next id is `:(S+1):1`. |
| Episodes.NextIsEpisodeOfSameTitle | packages/core/src/main.ts:1154-1167 | The next id is an episode id of the same title, one episode on or episode 1 of the next season. |
| Orchestrator.MetaCandidatesOrder | packages/core/src/main.ts:443-497 | Prefix-matching candidates come first, then type-only candidates. No instance id appears twice. |
| Orchestrator.PrefixCandidates | packages/core/src/main.ts:449-470 | Prefix candidates are not general, and each comes from the resource table. |
| Orchestrator.GeneralCandidates | packages/core/src/main.ts:472-497 | The earlier candidates are kept as a prefix. Only general candidates are appended, and ids stay distinct. |
| Orchestrator.AIOStreams.SelectMetaCandidates | packages/core/src/main.ts:443-497 | The two loops equal `MetaCandidates`. |
| Orchestrator.AttemptOutcome | packages/core/src/main.ts:514-569 | The request succeeds exactly when some candidate succeeds. It then returns the first success with no errors. When all fail, the errors are those of the prefix candidates only. |
| Orchestrator.AIOStreams.GetMeta | packages/core/src/main.ts:436-570 | The result is `Attempt` over the candidates, starting with no errors. |
| Orchestrator.PresetAddon | packages/core/src/main.ts:701-708 | A generated add-on gets the preset's instance id, and an instance id that starts with it and is at most four characters longer. Nothing else changes. |
| Orchestrator.AllPresetAddons | packages/core/src/main.ts:696-710 | Every add-on comes from an enabled preset. |
| Orchestrator.AIOStreams.ApplyPresets | packages/core/src/main.ts:691-717 | The enabled presets' add-ons are appended. The result fails with the too-many-addons message exactly when presets exist and the count exceeds the maximum. |
| Orchestrator.Loaded | packages/core/src/main.ts:719-740 | The loaded manifests have one entry per instance id. |
| Orchestrator.LoadedCoversAddons | packages/core/src/main.ts:720-739 | Every add-on has an entry, and every entry belongs to an add-on. |
| Orchestrator.LoadFailures | packages/core/src/main.ts:726-733 | Each recorded failure is an add-on whose load failed with that message. |
| Orchestrator.AIOStreams.FetchManifests | packages/core/src/main.ts:719-740 | With skipping on, failures are recorded and their manifests are `null`. With skipping off, the first failure is raised and nothing changes. |
| Manifests.StrictResources | packages/core/src/main.ts:747-756 | A resource given by name takes the manifest's types and prefixes. A full resource is kept. |
| Manifests.Combined | packages/core/src/main.ts:793-813 | Types become the de-duplicated existing types, followed by the new types not already present, in their order. Prefixes are combined the same way only when both sides have some, and are otherwise undefined. |
| Manifests.Fresh | packages/core/src/main.ts:814-830 | A new resource keeps its name and types. An empty prefix list is stored as undefined. |
| Manifests.Merged | packages/core/src/main.ts:781-830 | The named resource becomes `Combined` with its existing entry, or `Fresh` when there is none. Every other name is unchanged and names stay unique. |
| Manifests.MergedKeepsPrefixesNormal | packages/core/src/main.ts:793-830 | No resource ever holds an empty prefix list. |
| Manifests.MergeAll | packages/core/src/main.ts:772-831 | Merging a manifest's resources keeps names unique and prefix lists non-empty. |
| Manifests.MergeAllSkipsExcluded | packages/core/src/main.ts:773-779 | A resource the add-on's `resources` list excludes is never merged. |
| Manifests.MergeAllCoversAdmitted | packages/core/src/main.ts:772-831 | Every admitted resource name is present after the merge. |
| Manifests.Prefixed | packages/core/src/main.ts:840-855 | Each catalog id is prefixed with the instance id and a dot. Nothing else changes. |
| Manifests.TagErrorPrefix | packages/core/src/main.ts:891-900 | The meta resource's prefixes gain `aiostreamserror` at the end when it has prefixes. Everything else is unchanged. |
| Orchestrator.TagErrorPrefixValid | packages/core/src/main.ts:891-900 | Tagging keeps names unique and prefix lists non-empty. |
| Orchestrator.AddManifest | packages/core/src/main.ts:743-763 | A failed manifest or an unknown add-on leaves the state unchanged. |
| Orchestrator.AddManifestsValid | packages/core/src/main.ts:743-859 | Folding in the manifests keeps resource names and instance ids unique, and no prefix list empty. |
| Orchestrator.AIOStreams.MergeResource | packages/core/src/main.ts:781-830 | The resource list becomes `Merged` with the resource. Nothing else changes. |
| Orchestrator.AIOStreams.AddManifestEntry | packages/core/src/main.ts:743-858 | One iteration of the manifest loop is `AddManifest` on the built state. |
| Orchestrator.AIOStreams.FetchResources | packages/core/src/main.ts:742-979 | The built state is `Finish` of folding in every manifest, and validity is kept. |
| Orchestrator.AIOStreams.Initialise | packages/core/src/main.ts:104-112 | A repeat call changes nothing and succeeds. A first call (`FirstInitialisation`) keeps the user data and appends the preset add-ons. It fails with too many add-ons, or, unless failed add-ons are skipped, with the first failed load; the built state is then as it was. Otherwise it records the loaded manifests and the load errors, and builds the resources from them. Success is reported exactly when the object is initialised, and validity is kept. |
| Orchestrator.AIOStreams.InitialiseOnce | packages/core/src/main.ts:104-112 | A first call appends the preset add-ons. It fails with too many add-ons, or, unless failed add-ons are skipped, with the first failed load, leaving the built state as it was. Otherwise it records the loaded manifests and the load errors, and builds the resources from them. |
| Orchestrator.AIOStreams.LoadAddons | packages/core/src/main.ts:109-111 | Loads the manifests, then builds the resources. It fails with the first failed load unless failed add-ons are skipped. Otherwise the built state is `Finish` of the manifests folded in, and the object is initialised. |
| Orchestrator.AIOStreams.constructor | packages/core/src/main.ts:85-98 | The new object is empty and not initialised. |
| Orchestrator.AIOStreams.GetAddon | packages/core/src/main.ts:996-998 | The add-on found has this instance id. `None` means there is none. |
| CatalogModifications.OrderedPermutes | packages/core/src/main.ts:903-926 | The sort is a permutation of the catalogs. |
| CatalogModifications.OrderedSorted | packages/core/src/main.ts:905-926 | Modified catalogs come first, by modification index, and unmodified catalogs come last. |
| CatalogModifications.OrderedStable | packages/core/src/main.ts:913-918 | Catalogs of equal rank keep their original relative order, including the unmodified ones. |
| CatalogModifications.ModIndex | packages/core/src/main.ts:906-911 | The first modification with this catalog's id and type. |
| CatalogModifications.KeptOnly | packages/core/src/main.ts:928-933 | A catalog is dropped exactly when its modification says `enabled === false`. With `KeptOnlyCons`, the kept catalogs keep their order and multiplicity. |
| CatalogModifications.KeptOnlyCons | packages/core/src/main.ts:928-933 | Filtering a catalog followed by more catalogs is that catalog, when kept, followed by the filtered rest. |
| CatalogModifications.ModifiedKeepsExactlyEnabled | packages/core/src/main.ts:903-977 | Every kept catalog appears, rewritten. Every output catalog is a rewritten kept catalog. |
| CatalogModifications.ModifiedOrder | packages/core/src/main.ts:903-977 | The output is the kept catalogs in rank order, with the same per-rank order as the input. |
| CatalogModifications.RequiredGenre | packages/core/src/main.ts:950-957 | The genre extra becomes required. `None` is prepended only when it was not required before. |
| CatalogModifications.OnlyOnDiscover | packages/core/src/main.ts:942-969 | An existing genre extra is made required. Otherwise a required genre extra with the single option `None` is appended. |
| CatalogModifications.OnlyOnDiscoverRequiresGenre | packages/core/src/main.ts:942-969 | After `onlyOnDiscover`, the catalog always has a required genre extra. |
| CatalogModifications.Rewritten | packages/core/src/main.ts:935-976 | The name is replaced by a non-empty modification name, and the type by a given override type. The extras are unchanged unless `onlyOnDiscover` or `disableSearch` is set. `onlyOnDiscover` gives the extras of `OnlyOnDiscover`, and `disableSearch` then applies `NoSearch`. |
| CatalogModifications.NoSearch | packages/core/src/main.ts:973-975 | Exactly the search extras are removed. With `NoSearchSnoc`, the rest keep their order. |
| CatalogModifications.NoSearchSnoc | packages/core/src/main.ts:973-975 | Removing search extras from the extras plus one more is the result for the extras, plus that extra when it is not a search extra. |
| Orchestrator.AIOStreams.PrepareCatalogRequest | packages/core/src/main.ts:279-324 | The request is `CatalogRequestFor` on the object's add-ons and user data. |
| Orchestrator.CatalogRequestAddon | packages/core/src/main.ts:288-306 | The request goes to the add-on named before the first dot, or fails when there is none. The add-on id, a dot and the catalog id give the id back. |
| Orchestrator.OverriddenTypeIsRestored | packages/core/src/main.ts:307-317 | A request made under a modification's non-empty override type is sent under the catalog's own type. |
| Orchestrator.RequestModification | packages/core/src/main.ts:308-313 | The modification found has this id, and either this type or this override type. |
| Orchestrator.NoneGenreIsDropped | packages/core/src/main.ts:320-324 | A `None` genre is not forwarded: the extras sent are the parsed ones without the genre. |
| Orchestrator.CatalogIdSplits | packages/core/src/main.ts:288-306 | The add-on part holds no dot. Add-on part, dot and catalog part rebuild an id that has a dot. |
| CatalogExtrasModel.ParseExtras | packages/core/src/utils/catalogExtras.ts:10-33 | An absent or empty text, or a schema failure, gives `{}`. The keys are unique. |
| CatalogExtrasModel.Component | packages/core/src/utils/catalogExtras.ts:14-17 | The key is the text before the first `=`. A value exists exactly when there is an `=`. |
| CatalogExtrasModel.ComponentKeepsTwoParts | packages/core/src/utils/catalogExtras.ts:15 | Of `k=v=...`, only `k` and `v` are kept. |
| CatalogExtrasModel.Recognised | packages/core/src/utils/catalogExtras.ts:19-24 | A key outside the allowed set maps to undefined. An allowed key keeps its value. |
| CatalogExtrasModel.UnrecognisedKeyIsUndefined | packages/core/src/utils/catalogExtras.ts:18-25 | A key outside the allowed set reads as undefined after parsing. |
| CatalogExtrasModel.LastComponentWins | packages/core/src/utils/catalogExtras.ts:18 | With a repeated key, `Object.fromEntries` keeps the last value. |
| CatalogExtrasModel.CatalogExtras.constructor | packages/core/src/utils/catalogExtras.ts:6-8 | The extras are the parsed text. |
| CatalogExtrasModel.Put | packages/core/src/utils/catalogExtras.ts:39-57 | The key then reads as the new value and every other key is unchanged. Existing entries keep their places, and a new key goes at the end. |
| CatalogExtrasModel.CatalogExtras.SetGenre | packages/core/src/utils/catalogExtras.ts:35-41 | The genre reads back as the new value. No other key changes. |
| CatalogExtrasModel.CatalogExtras.SetSearch | packages/core/src/utils/catalogExtras.ts:43-49 | The search reads back as the new value. No other key changes. |
| CatalogExtrasModel.CatalogExtras.SetSkip | packages/core/src/utils/catalogExtras.ts:51-57 | The skip reads back as the new value. No other key changes. |
| CatalogExtrasModel.Rendered | packages/core/src/utils/catalogExtras.ts:59-64 | `key=value` for exactly the defined entries, in entry order. |
| CatalogExtrasModel.Defined | packages/core/src/utils/catalogExtras.ts:61 | Exactly the entries whose value is not undefined. |
| CatalogExtrasModel.PutUndefinedDropsKey | packages/core/src/utils/catalogExtras.ts:39-41 | Setting a key to undefined removes it from the serialised text. |
| CatalogExtrasModel.SerialiseRoundTrip | packages/core/src/utils/catalogExtras.ts:10-64 | Parsing the serialised text of plain extras (allowed keys, no `&` or `=` in keys or values, schema-valid) gives back the defined entries. |
| JsText.SplitJoin | packages/core/src/utils/catalogExtras.ts:14 | Joining pieces without the separator and splitting again gives the pieces back. |
| JsText.JoinSplit | packages/core/src/main.ts:306 | Splitting a text and joining the pieces gives the text back. |
| JsText.DedupDistinct | packages/core/src/parser/streams.ts:405-429 | `new Set` de-duplication keeps exactly the same elements, without repeats. |
| JsText.DedupPrefix | packages/core/src/parser/streams.ts:405-410 | De-duplicating `a + b` starts with the de-duplicated `a`. |
| JsText.DedupAfter | packages/core/src/main.ts:793-813 | Holds exactly the values of `b` that are not in `a`. |
| JsText.DedupAppend | packages/core/src/main.ts:793-813 | De-duplicating `a + b` is the de-duplicated `a` followed by the values of `b` not in `a`, each once, in first-occurrence order. |
| JsText.NatToStringInjective | packages/core/src/parser/streams.ts:133 | Distinct numbers have distinct decimal texts. |
| JsText.DigitsOfNat | packages/core/src/main.ts:1155-1167 | `Number` of a number's decimal text is that number. |
| JsText.ContainsIff | packages/core/src/parser/streams.ts:534-538 | `includes` holds exactly when the text occurs at some position. |

## Left out

- Network and asynchronous code: `Wrapper` calls, `fetch`, the TMDB metadata lookup (its result is a parameter), `getProxyIp`/`assignPublicIps`/`validateAddon`, `getSubtitles` and `getAddonCatalog`. The `setImmediate` launch of the pre-cache is a `precache` result of `GetStreams`, and the ping of the uncached stream is a parameter.
- Orchestrator.AIOStreams.FetchManifests: with `skipFailedAddons` off, `Promise.all` rejects with whichever load fails first in time. The model raises the first failure in add-on order. With `skipFailedAddons` on, each failure is pushed onto `addonInitialisationErrors` when its load settles, so the source records the errors in completion order. The model records them in add-on order (`LoadFailures`).
- Randomness: the catalog shuffle and its cache, `applyModifications` (randomise and enhance, a parameter of the pipeline), poster enhancement, RPDB posters, deep-link rewriting of catalog items, and the formatter's `random` modifier (an index parameter).
- Floating point and locale: `parseFloat` and `Math.round` are computed on exact reals. `toLocaleString`, `formatBytes`, `formatDuration`, `languageToEmoji` and `btoa` are parameters.
- StreamParsing.StreamParser.Parse: the stages outside the core (deduplicator, sorter, limiter, expression filter, fetcher, proxy URL generator) and the filename parser are parameters. Only their call order is modelled.
- Case-insensitive matching and `toLowerCase`/`toUpperCase` map ASCII letters only. The regex engine itself is not modelled: each fixed pattern is a scanning function, and the formatter's placeholder pattern is an abstract scanner with a well-formedness guarantee.
- Formatter.ParseString: the source loop need not terminate (see `Formatter.SelfInsertionRepeats`), so the model bounds the number of substitutions by a `fuel` count. Once the fuel is spent, the rest of the template is left as it is.
- Formatter.Format: `btoa`, used by the `base64` string modifier (packages/core/src/formatters/base.ts:361-362), throws on a character above U+00FF, and neither `format` nor `parseString` catches it, so such a template throws in the source. The model's `btoa` is a total parameter, so `Format` always returns two texts and never models that throw.
- Formatter.PlaceholderOutcomes: the source reads the property from a plain object (packages/core/src/formatters/base.ts:224-230), so a name inherited from `Object.prototype` (`constructor`, `toString`, `valueOf`, `__proto__`, ...) is defined there, and its function text or `[object Object]` is inserted. The model's groups are maps with only their own keys, so such a name renders `{unknown_value}`.
- StreamParsing.FilenameOf: a `filenameRegex` hook returns `Option<string>`, so a custom pattern that matches with an undefined group 1 falls back to the filename line, where `match[1]` in the source gives no filename. The default parser has no filename pattern.
- StreamParsing.ParseOutcome: any error reported by the `getError` hook makes an error stream, including an empty text, which the source's truthiness test would skip. The default hook reports nothing.
- Orchestrator.AIOStreams.PrecacheNextEpisode: the source stores the cache entry with a lifetime (`PRECACHE_NEXT_EPISODE_MIN_INTERVAL`), so a key blocks pre-caching only until it expires. Expiry is not modelled; the map passed in and returned stands for the live cache.
- CatalogExtrasModel.ParseExtras: when the schema accepts, the parsed extras keep the keys in the order of the text, with unknown keys mapped to undefined. A `zod` object schema may return its keys in schema order and strip unknown keys; that reordering is not modelled, so `toString` after parsing keeps the text's key order.
- Formatter.ConvertStreamToParseValue: the `debug` group's `JSON.stringify` text is a parameter.
- The time-zone/locale part (`::mod_tzlocale`) of a placeholder is parsed but unused, as in the source.
- Orchestrator.AIOStreams.GetStreams: the stages are passed per call. The source builds them once in the constructor from the original user data, so after `setUserData` in `precacheNextEpisode` they still see the old object. That is not modelled, because those classes are not part of this model.
- JavaScript object key order for integer-like keys is ignored: entries keep insertion order.
- The `zod` schemas for extras are a set of allowed keys plus a validity predicate. The numeric coercion of `skip` is not modelled.
- `getResources`, `getCatalogs` and `getAddonCatalogs` only check initialisation and return fields. `checkInitialised` is not modelled.
- `convertISO6392ToLanguage`, `getFolderSize`, `getMessage`, `getAge` and `getError` return constants in the base parser. In the model they are configurable hooks.
- A catalog modification found by `getCatalog` with an empty override type keeps the request type: `if (modification?.overrideType)` is a truthiness test, unlike the `!== undefined` test in `fetchResources`.
- Text is a sequence of code points. The source's strings are UTF-16: the formatter's `length` and `reverse` string modifiers and the array `sort` modifier work on code units, so `"🎬".length` is 2 in the source and 1 in the model, and `reverse` of a surrogate pair differs. Formatter.ModifierOnString and Formatter.ModifierOnArray follow code points.
- Formatter.StreamGroup: `seasons` is a numeric array in the source. The model renders its entries as decimal texts. The other array modifiers print numbers as those texts in the source too, but `~` calls `toLowerCase` on each entry and so throws on `seasons` in the source; in the model it is a text test.
- Formatter.StreamGroup: `seeders` is `stream.torrent?.seeders ?? null`, which keeps a `NaN` seeders count. The model's values have no `NaN`, so a `NaN` count becomes `null`.
- StreamParsing.ServiceNameAt: the source splices each service's known names unescaped into a regular expression. The model matches every name literally (ignoring case), so a name holding a regex metacharacter such as `.` or `+` matches only itself.
