# FIRMS CSV parser model

A Dafny model of the NASA FIRMS CSV-to-record transform of the
firemap-mexico front end (`frontend_vue_app/src/services/firms.ts`). It has
two parts:

- `safeSplitCSV` is a quote-aware line tokenizer.
  - It scans left to right with an `inQuotes` flag and a `current` field buffer.
  - A `"` only toggles the flag and is dropped, so `""` is two toggles and an unbalanced quote is no error.
  - A comma outside quotes ends a field; every other character is appended.
  - The last buffer is always pushed, and every field is trimmed.
- `parseFirmsCSV` trims the text and cuts it into lines on `\r?\n`.
  - With fewer than two lines it returns no records.
  - Otherwise the first line is the header. It is split on plain commas and trimmed.
  - Each of eleven column names resolves to the first header position whose lower-cased name equals it.
  - Every later line is tokenized with `safeSplitCSV`. It becomes a `FirmsRecord` when both its latitude and its longitude parse to finite numbers; other lines are skipped.

Modules:

- `Wrappers` holds `Option`. `None` plays JavaScript's `undefined` and `findIndex`'s -1.
- `Text` holds the string primitives: `trim`, ASCII `toLowerCase`, `split` on one character, `split(/\r?\n/)` and `join`.
- `CsvTokenizer` holds `safeSplitCSV`:
  - `ScanState` is the loop's variables.
  - `Step` is one turn of the loop.
  - `Scan` is the state after reading a prefix.
  - `Tokenize` is what the function returns.
  - The method `SafeSplitCSV` is the loop. Its invariant ties its variables to `Scan` of the prefix read so far.
- `Firms` holds `parseFirmsCSV`:
  - `FindIndex`, `ResolveColumns` and `HeaderNames` are the header resolution.
  - `RowRecord` is what one data line yields.
  - `Records` and `ParseFirms` are the whole result.
  - The method `ParseFirmsCSV` resolves the header. `ReadRows` is its loop over the data lines, and `ReadRow` is one turn of that loop.
  - The generic filter `Present` and its position map `Kept` show that the result is an order-preserving selection of per-line outcomes.

`parseFloat` followed by `isFinite` is the parameter `parse`. It maps a row
entry to `Some(v)` when the entry parses to the finite number `v` and to
`None` otherwise.

## Definitions

The functions below transcribe the source; the lemmas named beside them
state what they promise.

- `CsvTokenizer.Step` (frontend_vue_app/src/services/firms.ts:63-66) is one turn of the tokenizer loop. `CsvTokenizer.Scan` (firms.ts:59-67) is the loop state after a prefix. Both are specified by `ScanQuoteParity`, `ScanCount`, `ScanQuoteFree`, `ScanChunk` and `ScanAfterComma`.
- `CsvTokenizer.RawFields` (firms.ts:59-68) is the pushed fields plus the last buffer. It is specified by `RawFieldsJoin`, `RawFieldsUnquoted` and `QuotedCommaRawFields`.
- `CsvTokenizer.Tokenize` (firms.ts:58-70) is the result of `safeSplitCSV`. It is specified by `TokenizeFields`, `TokenizeUnquoted` and `QuotedCommaLine`.
- `Text.Trim` with `Text.TrimStart` and `Text.TrimEnd` (firms.ts:18, 20, 69) is `String.prototype.trim`. It is specified by `TrimStartSpec`, `TrimEndSpec`, `TrimTrimmed`, `TrimInfix`, `TrimRemovesWhitespace`, `TrimKeepsOut` and `TrimIdempotent`.
- `Text.TrimAll` (firms.ts:20, 69) is `map((s) => s.trim())`. It is specified by `TrimAllTrimmed`.
- `Text.Lower` with `Text.LowerChar` (firms.ts:21) is `toLowerCase` on ASCII letters. It is specified by `LowerLowers` and `FindIndexIgnoresCase`.
- `Text.Count` (firms.ts:18, 20) counts a separator. It is used by `Split`, `SplitLines`, `UnquotedCommas` and `ParseFirmsLength`.
- `Text.DropCR` (firms.ts:18) is the optional `\r` of `/\r?\n/`. It is used by `SplitLines`.
- `Firms.FindIndex` (firms.ts:21) is `header.findIndex(...)`. It is specified by `FindIndexSpec` and `FindIndexIgnoresCase`.
- `Firms.ResolveColumns` and `Firms.HeaderColumns` (firms.ts:21-32) are the eleven `idx` calls. They are specified by `ResolveIgnoresCase`, and through `FindIndexSpec` for each name.
- `Firms.HeaderNames` (firms.ts:20) is the header split on plain commas and trimmed. It is specified by `SplitJoin`, `SplitPiecesFree` and `TrimAllTrimmed`.
- `Firms.Lookup` (firms.ts:44-52) is `row[i]`, with `undefined` for a missing column or a short row. It is specified by `RowRecordSpec`, `RecordSource` and `AbsentColumnUnset`.
- `Firms.Coordinate` (firms.ts:38-40) is `parseFloat(row[i])` kept only when `isFinite`. A missing entry is `parseFloat(undefined)`, which is NaN, so it gives `None`. It is specified by `RowRecordSpec` and `RecordSource`.
- `Firms.RowRecord` (firms.ts:36-53) is what one data line yields. It is specified by `RowRecordSpec`, and `ReadRow` computes it.
- `Firms.Outcomes` (firms.ts:35-54) is the outcome of every data line in order. `Firms.Present` (firms.ts:34-55) keeps the records among them. They are specified by `Kept`, `PresentLength`, `PresentNone` and `RecordSource`.
- `Firms.Records` (firms.ts:34-55) is the records of the data lines. It is specified by `RecordsSnoc`, `RecordsLength`, `RecordsWithoutCoordinates`, `RecordSource` and `AbsentColumnUnset`, and `ReadRows` computes it.
- `Firms.Lines` (firms.ts:18) is `csv.trim().split(/\r?\n/)`. It is specified by `SplitLines` and `ParseFirmsSingleLine`.
- `Firms.FromLines` and `Firms.ParseFirms` (firms.ts:18-55) are the whole result. They are specified by `FromLinesLength`, `FromLinesWithoutCoordinates`, `ParseFirmsSingleLine`, `ParseFirmsLength` and `ParseFirmsWithoutCoordinates`, and `ParseFirmsCSV` computes them.

## Model

| member | source | states |
|---|---|---|
| CsvTokenizer.SafeSplitCSV | frontend_vue_app/src/services/firms.ts:58-70 | The loop returns `Tokenize(line)`: one field more than the commas met outside quotes, none holding a `"`, each trimmed |
| CsvTokenizer.ScanQuoteParity | frontend_vue_app/src/services/firms.ts:64 | The `inQuotes` flag is up exactly when an odd number of `"` has been read |
| CsvTokenizer.ScanCount | frontend_vue_app/src/services/firms.ts:62-67 | One field is pushed per comma read while the flag is down |
| CsvTokenizer.ScanQuoteFree | frontend_vue_app/src/services/firms.ts:64-66 | Neither the pushed fields nor the buffer ever hold a `"` |
| CsvTokenizer.TokenizeFields | frontend_vue_app/src/services/firms.ts:62-69 | The result has exactly `UnquotedCommas(line) + 1` fields, so it is never empty; no field holds a `"` and every field is trimmed |
| CsvTokenizer.RawFieldsJoin | frontend_vue_app/src/services/firms.ts:62-68 | Joining the untrimmed fields with `,` gives back the line with every `"` removed |
| CsvTokenizer.RawFieldsUnquoted | frontend_vue_app/src/services/firms.ts:62-68 | On a line without `"` the untrimmed fields are exactly `split(',')` |
| CsvTokenizer.TokenizeUnquoted | frontend_vue_app/src/services/firms.ts:62-69 | On a line without `"` the tokenizer equals `split(',')` followed by trimming each piece |
| CsvTokenizer.ScanChunk | frontend_vue_app/src/services/firms.ts:62-66 | Text without `"` read inside quotes, or text without commas, only extends the current field |
| CsvTokenizer.ScanAfterComma | frontend_vue_app/src/services/firms.ts:65 | A comma outside quotes closes the field; what follows is scanned afresh after the fields already pushed |
| CsvTokenizer.QuotedCommaRawFields | frontend_vue_app/src/services/firms.ts:62-68 | The line `"w",x,y` has exactly the raw fields `w`, `x`, `y`, even when `w` contains commas |
| CsvTokenizer.QuotedCommaLine | frontend_vue_app/src/services/firms.ts:62-69 | The line `"w",x,y` tokenizes to the three trimmed fields of `w`, `x` and `y` |
| CsvTokenizer.UnquotedCommas | frontend_vue_app/src/services/firms.ts:65 | There are never more commas outside quotes than commas |
| CsvTokenizer.RemoveQuotes | frontend_vue_app/src/services/firms.ts:64 | Deleting the quotes shortens the line by its number of quotes and leaves none |
| Text.TrimTrimmed | frontend_vue_app/src/services/firms.ts:69 | `trim` leaves no whitespace at either end (ECMAScript WhiteSpace and LineTerminator characters) |
| Text.TrimInfix | frontend_vue_app/src/services/firms.ts:69 | `trim` returns the contiguous part of the string after its leading whitespace |
| Text.TrimRemovesWhitespace | frontend_vue_app/src/services/firms.ts:69 | Every character `trim` removes is whitespace |
| Text.TrimKeepsOut | frontend_vue_app/src/services/firms.ts:69 | `trim` never introduces a character |
| Text.TrimIdempotent | frontend_vue_app/src/services/firms.ts:69 | Trimming an already trimmed field changes nothing, so the fields `safeSplitCSV` returns are fixed points of `trim` |
| Text.TrimStartSpec | frontend_vue_app/src/services/firms.ts:69 | Removing leading whitespace leaves a suffix that starts with a non-whitespace character, and everything before it is whitespace |
| Text.TrimEndSpec | frontend_vue_app/src/services/firms.ts:69 | Removing trailing whitespace leaves a prefix that ends with a non-whitespace character, and everything after it is whitespace |
| Text.TrimAllTrimmed | frontend_vue_app/src/services/firms.ts:69 | Every name or field `map(trim)` returns is trimmed, and mapping `trim` over the result again changes nothing |
| Text.LowerLowers | frontend_vue_app/src/services/firms.ts:21 | `toLowerCase` leaves no ASCII capital, lowering twice is lowering once, and a string is left alone exactly when it has no capital |
| Text.Split | frontend_vue_app/src/services/firms.ts:20 | `split(',')` yields one piece more than there are separators |
| Text.SplitJoin | frontend_vue_app/src/services/firms.ts:20 | Joining the pieces of a split with the separator gives back the string |
| Text.SplitPiecesFree | frontend_vue_app/src/services/firms.ts:20 | No piece of a split contains the separator |
| Text.SplitWithoutSeparator | frontend_vue_app/src/services/firms.ts:20 | A string without the separator splits into itself alone |
| Text.SplitLines | frontend_vue_app/src/services/firms.ts:18 | `split(/\r?\n/)` yields one line more than there are line feeds, and no line contains a line feed |
| Firms.FindIndexSpec | frontend_vue_app/src/services/firms.ts:21 | `findIndex` returns the first position whose lower-cased name equals the target; `None` exactly when no position matches |
| Firms.FindIndexIgnoresCase | frontend_vue_app/src/services/firms.ts:21 | Headers that agree after lower-casing give the same position |
| Firms.ResolveIgnoresCase | frontend_vue_app/src/services/firms.ts:20-32 | The eleven resolved columns do not depend on the case of the header names |
| Firms.RowRecordSpec | frontend_vue_app/src/services/firms.ts:36-53 | A tokenized line is never empty; it yields a record exactly when both coordinates parse, and the record holds those numbers and the looked-up entries |
| Firms.Kept | frontend_vue_app/src/services/firms.ts:34-55 | The records sit at strictly increasing line positions, each is the outcome at its position, and every line that yields a record is kept |
| Firms.PresentLength | frontend_vue_app/src/services/firms.ts:34-55 | A filter never yields more values than it was given |
| Firms.PresentNone | frontend_vue_app/src/services/firms.ts:40 | Without any present value the filter yields nothing |
| Firms.RecordsSnoc | frontend_vue_app/src/services/firms.ts:35-54 | One more data line appends the record it yields, if any |
| Firms.RecordsLength | frontend_vue_app/src/services/firms.ts:34-55 | There are never more records than data lines |
| Firms.RecordsWithoutCoordinates | frontend_vue_app/src/services/firms.ts:38-40 | Without a latitude or a longitude column no line yields a record |
| Firms.RecordSource | frontend_vue_app/src/services/firms.ts:36-53 | Each record comes from its own data line: its coordinates are the finite parses of that line's entries and its optional fields are that line's entries |
| Firms.AbsentColumnUnset | frontend_vue_app/src/services/firms.ts:44-52 | A column missing from the header is unset in every record |
| Firms.FromLinesLength | frontend_vue_app/src/services/firms.ts:18-55 | There are at most `lines.length - 1` records |
| Firms.FromLinesWithoutCoordinates | frontend_vue_app/src/services/firms.ts:22-23 | A header without `latitude` or `longitude` gives no records |
| Firms.ParseFirmsSingleLine | frontend_vue_app/src/services/firms.ts:18-19 | Text that keeps no line break after trimming has fewer than two lines and gives no records |
| Firms.ParseFirmsLength | frontend_vue_app/src/services/firms.ts:18-55 | There are at most as many records as line breaks in the trimmed text |
| Firms.ParseFirmsWithoutCoordinates | frontend_vue_app/src/services/firms.ts:20-23 | A header line without `latitude` or `longitude` gives no records |
| Firms.ReadRow | frontend_vue_app/src/services/firms.ts:36-53 | One turn of the row loop returns exactly the outcome `RowRecord` of that line |
| Firms.ReadRows | frontend_vue_app/src/services/firms.ts:34-55 | The row loop returns `Records` of the data lines |
| Firms.ParseFirmsCSV | frontend_vue_app/src/services/firms.ts:16-56 | The function returns `ParseFirms(csv)`, with at most one record per line break of the trimmed text |

## Left out

- `parseFloat` and `isFinite` are the parameter `parse`. Their IEEE-754 and prefix-parsing behaviour (`"34abc"` is 34) is not modelled. A lookup that misses is treated as `parseFloat(undefined)`, which is NaN and gives no coordinate.
- `toLowerCase` lowers ASCII letters only. For the eleven fixed names this is exact: only the Kelvin sign lowers to an ASCII letter (`k`), and no name contains `k`.
- Text is a sequence of Unicode scalar values, not of UTF-16 code units. A surrogate pair is one character here and two in JavaScript; this changes neither quoting, commas nor trimming.
- The regular-expression engine behind `split(/\r?\n/)` is replaced by an equivalent definition: split on line feeds, then drop one carriage return from the end of every piece a line feed ends.
- The numbers in records are mathematical reals, not IEEE-754 doubles.
- Lines 44-47 index the row without the `>= 0` guard that lines 48-52 use. Under `Option` both forms are the same lookup, so the model has one `Lookup`.
- `frontend_vue_app/env.d.ts` only declares types for the map library and has no logic. Fetching the CSV and rendering markers are not part of this model.
