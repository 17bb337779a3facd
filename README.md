# CSV ad-launch ingestion, modelled in Dafny

This project models two pieces of the ad-launch tool:

- **The bulk-launch CSV pipeline** (`lib/csv-parser.ts`). Each record the CSV reader produced goes through three steps:
  - It is normalised. Human-readable headers are renamed to canonical field names through the fixed column table, other headers are kept verbatim, and every cell is trimmed.
  - It is parsed into an ad row: up to five primary-text and five headline variations with gaps dropped, comma-separated video URLs and ad set ids, up to ten carousel cards, and the defaults and coercions for row type, call to action and launch-paused.
  - It is validated. An ordered list of errors and warnings is built, and `isValid` is derived from the errors being empty.

  The batch report then splits the rows into valid and invalid ones and totals their errors and warnings.
- **The copy-template import loop** (`app/api/copy/import/route.ts`). Every data row either becomes a template handed to the store's `create`, or is counted as failed. Failures come from a missing required field, or from `create` failing. A reader error ends the request before any row is looked at.

Modules:

- `Wrappers`: `Option` and `Result`.
- `Sequences`: order-keeping filtering, sums, an index-aware map and two counters. These mirror `push` loops, `filter` and `reduce`.
- `Strings`: JavaScript's `trim`, `split` on one character, the decimal rendering inside a template literal, and an ASCII `toLowerCase`.
  - `IsJsWhitespace` lists the code points `String.prototype.trim` removes: ECMAScript WhiteSpace and LineTerminator.
- `CsvParser`: the ad-row data model, the operations, and the methods that follow the source's loops. Each method is proved equal to a specification function.
  - `NormalizeRow` fills a map entry by entry.
  - `CollectVariations` and `CollectCards` are the slot loops.
  - `CheckRow` is the validation block.
  - `ParseRow` and `ParseRecords` are the remaining two.
- `CsvProperties`: what the pipeline promises, proved about those functions.
- `CopyImport`: the per-row mapping and the counting loop. `ImportTemplates` keeps the source's `continue` and its two counters.
- `CopyImportProperties`: what the import promises.

Modelling choices:

- **Raw records.** A raw record is the sequence of its `(header, cell)` entries, in the order `Object.entries` enumerates them. That order matters: when two headers normalise to the same field (for example `Link` and `link`), the later entry wins. A missing cell (`undefined`) is `None`.
- **Normalised rows.** Normalised rows and copy-import rows are `map<string, string>`.
- **The store.** The outcome of `prisma.copyTemplate.create` is the parameter `createOk: nat -> bool`, indexed by the data row's position. `ImportTemplates` also returns the sequence of templates `create` was called with.

## Model

| member | source | states |
|---|---|---|
| CsvParser.CleanCell | lib/csv-parser.ts:81 | a cell's stored value has no whitespace at either end, and a missing cell is stored as "" |
| CsvParser.NormalizeRow | lib/csv-parser.ts:74-85 | the dictionary the loop builds is the entry-by-entry fold `Normalized` (each entry writes its cleaned cell under its canonical key, later entries overwrite earlier ones), and every stored value is trimmed |
| CsvProperties.NormalizedKeys | lib/csv-parser.ts:79-80 | a key is in the normalised row exactly when some raw header maps to it (through the table, or verbatim when not in the table): nothing dropped, nothing invented |
| CsvProperties.NormalizedLastWins | lib/csv-parser.ts:79-82 | the value under an entry's canonical key is that entry's trimmed cell ("" when missing) when no later entry has the same canonical key |
| CsvProperties.NormalizedTrimmed | lib/csv-parser.ts:81 | trimming any normalised value again changes nothing |
| CsvProperties.ColumnMappingInjective | lib/csv-parser.ts:33-55 | no two headers of the column table share a canonical name |
| CsvProperties.TableHeaderSurvives | lib/csv-parser.ts:33-55 | a table header's trimmed cell is stored under its canonical name unless a later entry repeats that header or is the canonical name itself: two different table headers never overwrite each other |
| CsvProperties.CarouselColumnTen | lib/csv-parser.ts:121 | slot numbers are written in decimal: slot 10's media column is "Carousel 10 Media URL" |
| CsvProperties.CarouselColumnsDistinct | lib/csv-parser.ts:121-125 | different slots read different columns |
| CsvProperties.CarouselColumnsPassThrough | lib/csv-parser.ts:121-125 | the numbered carousel headers are not in the table, so normalisation keeps them verbatim and the card loop finds them |
| CsvParser.SlotTexts | lib/csv-parser.ts:96-97 | the slot texts of slots 1..n: n of them, the k-th being the value of `prefix` followed by the decimal k+1 ("" when absent) |
| CsvParser.CollectVariations | lib/csv-parser.ts:95-106 | the push loop yields exactly `Variations`: the non-empty texts of slots 1..5, filtered in slot order |
| CsvProperties.VariationsShape | lib/csv-parser.ts:95-106 | the variations hold at most five texts, none of them "", and a text is among them exactly when it is the non-empty value of one of the slots 1..5 |
| CsvProperties.VariationsCompactGaps | lib/csv-parser.ts:96-98 | gaps are dropped and slot order kept: with only slots 1 and 3 filled the variations are exactly those two texts in that order |
| CsvParser.TrimAll | lib/csv-parser.ts:110 | every piece is trimmed and none grows; no piece is dropped |
| CsvProperties.SplitListShape | lib/csv-parser.ts:109-116 | a blank or absent list field gives []; every element of a list field is non-empty, trimmed and comma-free |
| CsvProperties.TrimNoNewChars | lib/csv-parser.ts:110 | trimming never introduces a character absent from the input |
| CsvProperties.SplitListOfJoin | lib/csv-parser.ts:114-116 | writing non-empty, trimmed, comma-free ids separated by commas and parsing the field gives back exactly those ids, in order |
| CsvProperties.AdSetIdsExample | lib/csv-parser.ts:114-116 | the field "123, 456,,789" parses to ["123", "456", "789"]: pieces trimmed, the empty piece dropped, order kept |
| CsvParser.SlotCards | lib/csv-parser.ts:120-125 | the candidate cards of slots 1..n: n of them, the k-th read from the five `Carousel k+1 …` columns |
| CsvParser.CollectCards | lib/csv-parser.ts:119-136 | the push loop yields exactly `Cards`: the slots 1..10 whose media URL or title is non-empty, filtered in slot order |
| CsvProperties.CardsShape | lib/csv-parser.ts:119-136 | at most ten cards; a card is among them exactly when it is the card of one of the slots 1..10 and has a non-empty media URL or title |
| CsvParser.CheckRow | lib/csv-parser.ts:138-163 | the sequence of guarded pushes yields exactly `ErrorsOf` and `WarningsOf` |
| CsvProperties.ErrorsOfMembers | lib/csv-parser.ts:139-163 | each of the five messages is in the error list exactly when its condition holds (no primary text; no headline; blank link on a Single row; no ad set id; a Carousel row with fewer than two cards) |
| CsvProperties.ErrorsOfOrdered | lib/csv-parser.ts:139-163 | the error list has at most four entries, every entry is one of the five messages, and they appear in the fixed order of the checks, without repetition |
| CsvProperties.ErrorsExact | lib/csv-parser.ts:139-163 | for a parsed row, every error is there exactly when its condition on the row's own fields holds, and the one warning is there exactly for a Single row without video URLs |
| CsvProperties.ErrorsOrdered | lib/csv-parser.ts:139-163 | the errors of a parsed row are among the five messages, ordered by check without repetition, and number at most four (the link and card checks exclude each other) |
| CsvProperties.RowValidIff | lib/csv-parser.ts:139-165 | a row is valid exactly when it has a primary text, a headline and an ad set id, and is either Single with a link or Carousel with at least two cards |
| CsvParser.ParseRow | lib/csv-parser.ts:87-187 | the row built by the loops and checks is `ParsedRow(row, index)`, carries `rowIndex == index`, and `isValid` holds exactly when `errors` is empty |
| CsvProperties.ParsedRowFields | lib/csv-parser.ts:167-186 | the parsed row's index, the row type (Carousel only for the exact value "Carousel"), the pass-through fields, the call to action and its default, the launch-paused allow-list, and the list and card fields |
| CsvProperties.ParsedRowWellFormed | lib/csv-parser.ts:139-165 | every parsed row has `isValid` iff no errors, at most four errors and at most one warning |
| CsvProperties.CallToActionDefault | lib/csv-parser.ts:177 | the call to action is never blank: the field's value when non-empty, "LEARN_MORE" otherwise |
| CsvProperties.LaunchPausedAllowList | lib/csv-parser.ts:179 | launch-paused holds exactly for the eight spellings of "yes" that differ in letter case, and never for a missing field |
| CsvProperties.LaunchPausedRejects | lib/csv-parser.ts:179 | a missing field, "", "No", "TRUE", "1" and "y" do not launch paused |
| CsvParser.ParseRecords | lib/csv-parser.ts:57-72 | the forEach loop yields `ParsedRecords`: one row per record, each record normalised and parsed at its own position |
| CsvProperties.ParsedRecordsAt | lib/csv-parser.ts:65-69 | the batch has one row per record, row i is record i normalised and parsed, and its `rowIndex` is i |
| CsvProperties.ReportPartition | lib/csv-parser.ts:195-196 | the valid and invalid parts together account for every row: a row is in `valid` iff it is valid, in `invalid` iff it is not, and their lengths add up to the number of rows |
| CsvProperties.ReportAppend | lib/csv-parser.ts:195-196 | the partition of a concatenation is the concatenation of the partitions, so each part keeps the input order |
| CsvProperties.ReportTotals | lib/csv-parser.ts:197-198 | for well-formed rows, totalErrors is 0 iff no row is invalid, lies between the number of invalid rows and four per row, and totalWarnings is at most one per row |
| CsvProperties.ParsedReport | lib/csv-parser.ts:189-201 | the report of any parsed batch partitions it and its totals satisfy those bounds |
| Sequences.FilterPartition | lib/csv-parser.ts:195-196 | filtering by a predicate and by its negation splits a sequence's length between the two results |
| Strings.Trim | lib/csv-parser.ts:81 | neither end of the trimmed string is whitespace, and it is no longer than the input |
| Strings.TrimSlice | lib/csv-parser.ts:81 | the trimmed string is a contiguous slice of the input and everything cut off on either side is whitespace |
| Strings.TrimIdempotent | lib/csv-parser.ts:81 | trimming twice is trimming once |
| Strings.SplitPiecesFree | lib/csv-parser.ts:110 | no piece of `split(sep)` contains the separator |
| Strings.JoinSplit | lib/csv-parser.ts:110 | joining the pieces of a split with the separator gives back the input |
| Strings.SplitJoin | lib/csv-parser.ts:110 | splitting a join of at least one separator-free piece gives back the pieces, empty ones included |
| Strings.NatToString | lib/csv-parser.ts:97 | the decimal rendering of a slot number is non-empty and made of digits |
| Strings.NatToStringLength | lib/csv-parser.ts:97 | the rendering is a single digit exactly for numbers below ten |
| Strings.NatToStringInjective | lib/csv-parser.ts:97 | different numbers render differently |
| Strings.ToLowerAscii | lib/csv-parser.ts:179 | the length is kept, no ASCII capital remains, and every character that is not an ASCII capital is unchanged |
| Strings.ToLowerAsciiIdempotent | lib/csv-parser.ts:179 | lower-casing twice is lower-casing once |
| CopyImport.AcceptedIff | app/api/copy/import/route.ts:72-80 | a row yields a template exactly when Name, Primary Text 1, Headline 1 and Link are all non-blank after trimming |
| CopyImport.MapRow | app/api/copy/import/route.ts:72-101 | the early-return row mapping yields exactly `RowTemplate`: nothing for a row missing a required field, otherwise the template built from the trimmed fields |
| CopyImport.ImportTemplates | app/api/copy/import/route.ts:60-111 | a reader error gives "CSV parsing error: " followed by the first error's message and no create call; otherwise the result is a success with imported + failed equal to the number of data rows, imported the rows that passed validation and whose create succeeded, and the create calls the templates of the accepted rows in row order |
| CopyImportProperties.RejectedIff | app/api/copy/import/route.ts:72-80 | a row is rejected exactly when one of the four required fields is absent or blank after trimming |
| CopyImportProperties.TemplateFields | app/api/copy/import/route.ts:84-101 | the account id; required fields stored trimmed and non-blank; each optional field its trimmed value, or absent when blank or missing; the call to action the trimmed CTA, or "LEARN_MORE" when that is blank |
| CopyImportProperties.CreateCallsComplete | app/api/copy/import/route.ts:77-103 | there are at most as many create calls as rows, and every one carries non-blank required fields |
| CopyImportProperties.CreateCallsCount | app/api/copy/import/route.ts:77-103 | create is called exactly once for each row that passes validation |
| CopyImportProperties.ImportedAtMostCalls | app/api/copy/import/route.ts:82-108 | imported is at most the number of create calls, which is at most the number of rows |
| CopyImportProperties.AllCreatesSucceed | app/api/copy/import/route.ts:82-108 | when every create succeeds, imported equals the number of rows that passed validation, so failed counts only rejected rows |
| CopyImportProperties.RejectedNotImported | app/api/copy/import/route.ts:77-80 | rows that all lack a required field give no create call and nothing imported, whatever the store does |

## Left out

- CSV tokenising is not modelled. `Papa.parse` (lib/csv-parser.ts:58-61, app/api/copy/import/route.ts:55-58) is a foreign library. The model starts from the reader's records and, for the import, from its data rows and error messages. `parseCSV` ignores the reader's errors, so it has no error path here either.
- `generateSampleCSV` is left out. It only passes a constant header list and example rows to `Papa.unparse`.
- The HTTP plumbing of the import route is left out. That covers the session check, the form fields, the account lookup, the 401/400/404 responses and the 500 catch (app/api/copy/import/route.ts:25-54, 112-118). It is I/O, and nothing in it affects the counting loop.
- `prisma.copyTemplate.create` is not modelled as a store. Its outcome is the parameter `createOk`, and the templates it receives are returned as `created`. Nothing is persisted, and `console.error` on a failed create is not modelled.
- Headers that name members of `Object.prototype` (`constructor`, `toString`, `__proto__`, …) are treated like any other unknown header. In JavaScript, `COLUMN_MAPPING[key]` finds the inherited member for such a header, so it would not keep its own name. The model does not reproduce that lookup.
- Raw cells that are not strings are left out. A data row with more fields than the header makes Papa store the surplus fields as an array under `__parsed_extra`. `parseCSV` ignores the reader's errors (lib/csv-parser.ts:58-65), and `value?.trim()` (lib/csv-parser.ts:81) then calls `trim` on that array, which throws a TypeError. That aborts the whole batch: the route that calls `parseCSV` answers 500 "Failed to parse CSV" (app/api/launch/csv/parse/route.ts:21, 33-38). So the real pipeline is total only for records whose cells are all strings or missing, and those are the only records the model takes.
- The order of `Object.entries` is left out. JavaScript enumerates integer-like keys first; the model takes the entry order as given. The order only matters when two headers normalise to the same field.
- Strings.ToLowerAscii: lower-cases only the ASCII capitals, not full Unicode `toLowerCase`. No other character lower-cases to `y`, `e` or `s`, so `LaunchPausedAllowList` holds for full Unicode as well.
- The UI is left out: the React pages and components, the Facebook Graph client and the R2 storage wrappers. They are network and user-interface code outside the ingestion core.
