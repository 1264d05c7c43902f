# IMOB import pipeline, modelled in Dafny

This project models the IMOB uploader in `app.js`. An operator pastes a
tab-separated export of stock movements and picks an Empresa and a Produto.
The uploader then:

1. parses the text into records keyed by the eleven COLUMN_MAP columns;
2. asks the `imob` table which `SEQMOVIMENTAÇÃO` keys it already holds, and
   keeps only the new rows;
3. joins each new row with table `lojas` ("PROCV"), using the numeric
   prefix of its `ID - Fornecedor` cell;
4. adds the derived columns (`Emp`, `Produto`, `ID`, `fornecedor`, `ano`,
   `Coluna1`, `Coluna2`, `loja`, `Segmento`);
5. converts the COLUMN_TYPES columns to bigints and ISO timestamps;
6. holds the result in the pending buffer `globalRowsToInsert` until the
   operator confirms the insert.

The modules follow that structure:

- `JsText` (js_text.dfy): the JavaScript string built-ins the code relies on. These are `trim`, `includes`, `indexOf`, `split` with a string separator, and `join`. They are functions on `seq<char>`; `Split` requires a non-empty separator, as every call in the code passes one.
- `JsNumber` (js_number.dfy): `parseInt(s, 10)` and `String(n)` for integers.
- `ImobSchema` (imob_schema.dfy): the column set, COLUMN_MAP, COLUMN_TYPES, and the cell values (null, string, number).
- `ImobParser` (imob_parser.dfy): `parsePastedData`.
- `BrlDate` (brl_date.dfy): `formatBRLDateToISO`, including its regular expression, written out as a leftmost-match search.
- `ImobPipeline` (imob_pipeline.dfy): the body of `handleProcessData`, from the duplicate filter through the per-row formulas and the conversion loop.
  - The `forEach` loops that fill `idFornecedorSet` and `lojaLookup` are methods with loop invariants.
  - So is the `map` callback that updates each row object step by step, together with its `for (const key in row)` loop.
  - Each method is proved equal to a function, and the properties are proved about those functions.
- `ImobImporter` (imob_importer.dfy): the two click handlers.
  - The class `Importer` holds the pending buffer.
  - `ProcessData` and `InsertData` are its methods.
  - The functions `Process` and `Insert` say what the methods do.

The remote store is not called. Its answers are parameters:

- the stored keys the existence query returns, or its error message;
- the `lojas` rows the lookup query returns, or its error message;
- the error, if any, of the insert.

`new Date().getFullYear()` is a parameter too (`Context.currentYear`).

Behaviour of the code worth knowing:

- **One call each.** The code makes one existence query, one `lojas` query and one `insert` call (app.js:185-188, 213-216, 309). A failed insert leaves the whole buffer in place (`Insert`, `InsertRetry`).
- **A null key counts as new.** A row whose `SEQMOVIMENTAÇÃO` is null keeps the key "null" (`String(null)`), which is truthy. Such a row is kept as new (`NullKeyIsNew`). Only the empty-string key is excluded (`StoredKeyIsDuplicate`).
- **Empty lines are records.** Every `\n`-separated line of the trimmed text becomes a record, empty lines inside the text included (`ParsedRecordCount`).
  - Text made only of white space passes the "Nenhum dado colado." check.
  - It then parses into one record with an empty key, and the run stops with "Nenhum 'SEQMOVIMENTAÇÃO' válido encontrado." (`BlankInputHasNoKeys`).
- **The supplier id need not be numeric.** The id is any trimmed, non-empty text before the first " - ". `parseInt` is applied only to build the `lojas` query. The lookup map is probed with the id's own text, so an id written "07" is queried as 7 but never matched (`ZeroPaddedIdMisses`).
- **A time without seconds is dropped.** `DD/MM/YYYY HH:MM` does not match the optional time group, so it is stored at midnight (`MinutesOnlyIsMidnight`).
- **Calendar validity is not claimed.** Whether 30/02 is accepted is decided by `new Date`, which the model does not claim to reproduce (see Left out).

## Model

| member | source | states |
|---|---|---|
| JsText.TrimSpec | app.js:331 | `text.trim()` is a slice of the text, it neither starts nor ends with white space, and only white space was cut off at either end |
| JsText.FindFromSpec | app.js:202 | the search finds an occurrence of the separator with none before it; no result means the separator does not occur |
| JsText.JoinSplit | app.js:234-237 | joining the pieces of `split(sep)` with `sep` gives back the original string |
| JsText.JoinTail | app.js:234-237 | after `split(sep)`, piece 0 is the text before the first `sep`, and the remaining pieces re-joined are the text after it |
| JsText.SplitCount | app.js:331 | splitting on one character yields one more piece than the string has of that character |
| JsText.SplitJoin | app.js:331-332 | splitting a join of pieces that hold no separator gives back the pieces |
| JsText.FirstOccurrence | app.js:202 | an occurrence of the separator with none before it is where `indexOf` points |
| JsText.Includes | app.js:202 | `includes(sep)`: true exactly when `indexOf` finds the separator; FindFromSpec gives where |
| JsNumber.ParseInt | app.js:268 | `parseInt(s, 10)` is NaN exactly when no decimal digit follows the leading white space and the optional sign |
| JsNumber.DigitPrefixSpec | app.js:268 | the run of digits `parseInt` reads is all digits and stops at a non-digit or at the end of the string |
| JsNumber.ParseIntLeadingDigits | app.js:268 | `parseInt` of digits followed by a non-digit reads exactly those digits |
| JsNumber.ParseIntOfString | app.js:268 | `parseInt(String(n), 10)` is `n` for every integer `n` |
| JsNumber.IntToStringInjective | app.js:220 | distinct ids never share a `String(id)` spelling |
| JsNumber.NoLeadingZero | app.js:220 | `String(n)` never starts with "0" unless it is "0" |
| ImobSchema.Truthy | app.js:178 | JavaScript truthiness of a cell: null, "" and 0 are falsy; SeqList and ToBigInt state what each test keeps |
| ImobSchema.ToJsString | app.js:194 | `String(v)`: "null" for null, the string itself, or IntToString of a number; NullKeyIsNew and ExistingKeySet use it |
| ImobSchema.Position | app.js:21-24 | each COLUMN_MAP column sits at its own field index |
| ImobSchema.PositionOfColumnMap | app.js:21-24 | field index and COLUMN_MAP entry are inverse to each other |
| ImobSchema.TypeIndexOfTypedColumns | app.js:26-36 | the list of typed columns holds each COLUMN_TYPES entry once, in order |
| ImobParser.ParseLineShape | app.js:332-339 | every record has exactly the eleven COLUMN_MAP keys and no numbers; column i holds field i, or null when field i is missing or is the text "null" |
| ImobParser.ParsedRecordCount | app.js:330-331 | there is one record per `\n`-separated line of the trimmed text, so at least one, and internal empty lines count |
| ImobParser.ParsedRecords | app.js:330-340 | record j is line j parsed, and every record is a raw record |
| ImobParser.ParseJoinedFields | app.js:332-337 | a line of tab-joined fields yields those fields, position by position |
| ImobParser.ExtraFieldsDropped | app.js:334-337 | fields after the eleventh never reach the record |
| BrlDate.FindDate | app.js:345 | the regular expression's match is at the leftmost position where `DD/MM/YYYY` occurs, and no match means none occurs |
| BrlDate.Groups | app.js:345-347 | the six groups are two-digit strings (the year four digits); day, month and year are the matched digits; hour, minute and second are the matched time digits when `[ T]HH:MM:SS` follows the date, and 00:00:00 otherwise |
| BrlDate.FormatBrlDateToIso | app.js:343-354 | the result is null exactly for the empty string, for text without `DD/MM/YYYY`, or for a match that is not a valid date-time |
| BrlDate.FormatAtMatch | app.js:345-348 | wherever the leftmost date sits in the text, a non-null result is its year, month and day rearranged, then the time that follows it or `00:00:00` |
| BrlDate.MinutesOnlyIsMidnight | app.js:345-348 | a date followed by `HH:MM` without seconds comes out at midnight: the time group does not match |
| BrlDate.IsoOf | app.js:348 | the ISO template string; FormatAtMatch and the round-trip lemmas give its value |
| BrlDate.FormatIsIso | app.js:348-353 | every non-null result has the shape `YYYY-MM-DDTHH:MM:SS` |
| BrlDate.NoDateIsNull | app.js:346 | text holding no `DD/MM/YYYY` anywhere gives null |
| BrlDate.BrlRoundTrip | app.js:343-354 | a valid `DD/MM/YYYY HH:MM:SS` comes out as its ISO form |
| BrlDate.BrlSeparatedGroups | app.js:345-347 | with a space or a `T` before the time, the match is at the start and its groups are the date and time written |
| BrlDate.BrlTRoundTrip | app.js:343-354 | a valid `DD/MM/YYYYTHH:MM:SS` comes out as its ISO form |
| BrlDate.BrlDateOnlyMidnight | app.js:347-348 | a valid `DD/MM/YYYY` alone comes out at `T00:00:00` |
| BrlDate.BadMonthIsNull | app.js:351 | a well-formed date with a month above 12 gives null |
| BrlDate.BrlYearPiece | app.js:245 | `DD/MM/YYYY HH:MM:SS` splits on "/" into three pieces, and `parseInt` of the third is the year |
| BrlDate.BrlDateOnlyYearPiece | app.js:245 | `DD/MM/YYYY` splits on "/" into three pieces, and the third is the year |
| ImobPipeline.ExistingKeySet | app.js:190 | the set holds exactly the decimal spellings of the stored keys |
| ImobPipeline.FilterNew | app.js:193-196 | the new rows are an order-preserving subsequence of the parsed rows; a row is kept exactly when its `String(key)` is non-empty and not stored; the number left out is the count of rows failing that test |
| ImobPipeline.NullKeyIsNew | app.js:194-195 | a row with a null key is kept whatever is stored |
| ImobPipeline.StoredKeyIsDuplicate | app.js:194-195 | a row whose key is stored, or is empty, is left out |
| ImobPipeline.SeqList | app.js:178 | the key list is empty exactly when no parsed row has a truthy key |
| ImobPipeline.DedupSpec | app.js:199-206 | a `Set` fed in order lists each value once, and exactly the values offered to it |
| ImobPipeline.IdStringsSpec | app.js:199-206 | the lookup ids are each listed once and are exactly the non-empty trimmed texts before the first " - " of the new rows' supplier cells |
| ImobPipeline.UniqueIds | app.js:208 | the query ids are exactly the values `parseInt` reads from the lookup ids; ids that give NaN are dropped |
| ImobPipeline.LastWinsKeys | app.js:219-221 | the map's keys are exactly the keys set |
| ImobPipeline.LastWinsValues | app.js:219-221 | each key maps to the value of its last `set` |
| ImobPipeline.LookupOfSpec | app.js:219-221 | the lookup keys are the spellings of the returned ids, and each maps to the last returned row with that id |
| ImobPipeline.SupplierAsWritten | app.js:233-237 | cutting at the first " - " is what `split(' - ')[0].trim()` and `parts.slice(1).join(' - ').trim()` compute |
| ImobPipeline.StepsEnriched | app.js:225-261 | the in-place steps, in source order with each reading what the previous wrote, build the row the formulas' values describe |
| ImobPipeline.ToBigInt | app.js:267-269 | a falsy cell becomes null; a truthy cell becomes the number `parseInt` reads from `String(cell)`, and null exactly when `parseInt` gives NaN |
| ImobPipeline.ToBigIntOfString | app.js:267-269 | a cell holding the decimal spelling of a number becomes that number |
| ImobPipeline.ToBigIntNaN | app.js:269 | a non-empty cell that `parseInt` reads as NaN becomes null |
| ImobPipeline.ToTimestamp | app.js:270-271 | a string cell becomes exactly the string `formatBRLDateToISO` returns, and null when it returns null; a null cell stays null |
| ImobPipeline.CoerceRow | app.js:265-273 | the conversion loop turns every cell into what its COLUMN_TYPES entry calls for and leaves untyped cells as they are |
| ImobPipeline.SetSupplier | app.js:231-241 | the `ID` / `fornecedor` block writes the supplier formula, and `idFornecedor` is the `ID` it wrote |
| ImobPipeline.SetYear | app.js:243-248 | the `ano` block writes the year formula |
| ImobPipeline.SetProcv | app.js:253-261 | the PROCV block writes the lookup entry, or the fallback |
| ImobPipeline.TransformRow | app.js:225-275 | the row callback, updating the row object step by step, yields the transformed row |
| ImobPipeline.TransformRows | app.js:225-275 | `newRows.map` yields one transformed row per new row, in order |
| ImobPipeline.CollectIds | app.js:199-206 | the `forEach` fills the set with exactly the lookup ids, each once, in first-seen order |
| ImobPipeline.BuildLookup | app.js:219-221 | the `forEach` builds the lookup map over the returned rows' ids |
| ImobPipeline.TransformedKeys | app.js:225-274 | the transform keeps the row's columns and adds the nine derived ones |
| ImobPipeline.TransformedHasAllColumns | app.js:225-274 | a parsed record comes out with all twenty columns |
| ImobPipeline.TransformedTypes | app.js:265-273 | every bigint column holds a number or null; every timestamp column holds null or a `YYYY-MM-DDTHH:MM:SS` string |
| ImobPipeline.TransformedUntypedParsed | app.js:265-273 | TIPO, LOCAL, OPERAÇÃO, ID - Fornecedor and usuario pass through unchanged |
| ImobPipeline.TransformedTypedParsed | app.js:265-269 | the bigint parsed columns are their parsed cells converted |
| ImobPipeline.TransformedTimestampParsed | app.js:270-271 | each timestamp column, DATA or data2, is its parsed cell through `formatBRLDateToISO`, null when it gives null |
| ImobPipeline.TransformedEmp | app.js:227 | `Emp` is the selected Empresa read as a bigint |
| ImobPipeline.TransformedProdutoAndPlaceholders | app.js:228-251 | `Produto` is the selected Produto, and `Coluna1` and `Coluna2` are null |
| ImobPipeline.TransformedAno | app.js:243-248 | `ano` is the year formula's value read as a bigint |
| ImobPipeline.TransformedYearCurrent | app.js:246-247 | without a "/" in DATA, `ano` is the current year |
| ImobPipeline.TransformedYearOfDate | app.js:244-245 | for DATA `DD/MM/YYYY`, with or without a time, `ano` is its year |
| ImobPipeline.TransformedDate | app.js:270-271 | a valid DATA `DD/MM/YYYY HH:MM:SS` is stored as its ISO timestamp |
| ImobPipeline.TransformedId | app.js:233-239 | `ID` is the text before the first " - ", read as a bigint |
| ImobPipeline.TransformedFornecedor | app.js:233-241 | `fornecedor` is the text after the first " - ", or the whole cell |
| ImobPipeline.TransformedLoja | app.js:254-259 | `loja` is the PROCV name for the supplier cell's split |
| ImobPipeline.TransformedSegmento | app.js:254-260 | `Segmento` is the PROCV segment for the supplier cell's split |
| ImobPipeline.ProcvHit | app.js:254-257 | an id spelled as a returned id takes the last such row's name and segment |
| ImobPipeline.ProcvMiss | app.js:258-260 | an id no returned row carries falls back to `fornecedor` and a null segment |
| ImobPipeline.ZeroPaddedIdMisses | app.js:254 | an id written with a leading zero never resolves |
| ImobPipeline.ProcvFindsLoja | app.js:231-257 | end to end: a matching supplier cell gets the returned row's `loja` and `Segmento` |
| ImobPipeline.ProcvFallback | app.js:231-260 | end to end: an unmatched supplier cell gets its trimmed name as `loja` and a null `Segmento` |
| ImobPipeline.TransformedUnseparated | app.js:238-241 | a supplier cell without " - " gives a null `ID` and `Segmento`, and is itself `fornecedor` and `loja` |
| JsText.Trim | app.js:331 | `trim()`; its contract is TrimSpec |
| JsText.IndexOf | app.js:202 | `indexOf(sep)`; its contract is FindFromSpec and FirstOccurrence |
| JsText.Split | app.js:331-332 | `split(sep)`: at least one piece; JoinSplit, JoinTail, SplitCount and SplitJoin relate it to Join |
| JsText.Join | app.js:237 | `join(sep)`; JoinSplit and SplitJoin make it the inverse of Split |
| JsNumber.IntToString | app.js:220 | `String(n)`: non-empty, a sign or a digit first; ParseIntOfString, IntToStringInjective and NoLeadingZero give its value |
| ImobParser.Cell | app.js:334-337 | one field, or null when it is missing or is "null"; stated by ParseLineShape |
| ImobParser.Record | app.js:333-338 | the eleven COLUMN_MAP cells of a line's fields; stated by ParseLineShape and ParseJoinedFields |
| ImobParser.ParseLine | app.js:332-339 | one line split on tabs into a record; stated by ParseLineShape |
| ImobParser.ParsePastedData | app.js:330-341 | `parsePastedData`; stated by ParsedRecordCount and ParsedRecords |
| ImobPipeline.KeyOf | app.js:194 | `String(row['SEQMOVIMENTAÇÃO'])`; used by FilterNew, NullKeyIsNew and StoredKeyIsDuplicate |
| ImobPipeline.IsNew | app.js:194-195 | the filter test, a non-empty key not stored; FilterNew keeps exactly the rows passing it |
| ImobPipeline.IdPrefix | app.js:201-203 | the trimmed text before the first " - " of a non-empty supplier cell; stated by IdStringsSpec |
| ImobPipeline.RowId | app.js:201-204 | the id a row adds to the set; stated by IdStringsSpec |
| ImobPipeline.SplitSupplier | app.js:231-241 | the `ID` and `fornecedor` formulas; SupplierAsWritten, TransformedId, TransformedFornecedor and TransformedUnseparated state them |
| ImobPipeline.YearOf | app.js:243-248 | the `ano` formula; TransformedYearCurrent and TransformedYearOfDate state it |
| ImobPipeline.Procv | app.js:253-261 | the PROCV formula; ProcvHit and ProcvMiss state it |
| ImobPipeline.LookupOf | app.js:219-221 | `lojaLookup`; LookupOfSpec states it |
| ImobPipeline.CoerceCell | app.js:266-272 | one turn of the conversion loop; stated by ToBigInt and ToTimestamp |
| ImobPipeline.Coerced | app.js:265-273 | the whole conversion loop; CoerceRow computes it |
| ImobPipeline.Transformed | app.js:225-274 | the row callback; TransformRow computes it, and the Transformed* lemmas state it column by column |
| ImobImporter.DuplicateCount | app.js:364 | `totalParsed - rows.length`; DuplicateCountSpec states it |
| ImobImporter.LookupFor | app.js:209-222 | the empty map when no id survives `parseInt`, or the `lojas` lookup; used by ReadyRows and LojasUnusedWithoutIds |
| ImobImporter.TransformAll | app.js:225-275 | one transformed row per new row, each with all twenty columns |
| ImobImporter.Process | app.js:159-225 | "no data" exactly for empty text; "missing filters" exactly for non-empty text with an empty selector; a ready run follows a successful existence query and holds at most as many rows as were parsed |
| ImobImporter.Validate | app.js:177-196 | no truthy key fails with "Nenhum 'SEQMOVIMENTAÇÃO' válido encontrado." before any query; a failed existence query fails with its message; with a successful query and some key, the outcome is the `lojas` join over the rows the filter kept, counted against every parsed row |
| ImobImporter.ProcessReady | app.js:176-225 | a ready run is the `lojas` join over the parsed rows whose keys the existence query did not report |
| ImobImporter.JoinLojas | app.js:199-225 | the run fails exactly when some id survives `parseInt` and the `lojas` query fails, with the message "Erro ao buscar 'lojas': " plus the store's; otherwise it is ready with one row per new row |
| ImobImporter.DuplicateCountSpec | app.js:364 | `duplicateCount = totalParsed - rows.length` is the number of parsed rows the filter left out, so it is never negative |
| ImobImporter.ReadyRows | app.js:208-225 | a ready run holds each new row transformed, in order, with all columns; the lookup is empty when no id survived `parseInt` |
| ImobImporter.LojasUnusedWithoutIds | app.js:209-211 | without a parseable id the `lojas` answer, failure included, does not change the run |
| ImobImporter.BlankInputHasNoKeys | app.js:178-181 | white-space-only text fails with the "no valid key" message |
| ImobImporter.Insert | app.js:298-320 | an empty buffer sends nothing; a success reports the row count and empties the buffer; a failure reports the message and keeps every row |
| ImobImporter.InsertAfterSuccess | app.js:298-314 | after a successful insert, a second insert finds nothing to send |
| ImobImporter.InsertRetry | app.js:309-320 | after a failed insert, a retry sends the very same rows |
| ImobImporter.JoinAndTransform | app.js:199-225 | the `forEach` loops, the conditional `lojas` query and `newRows.map` compute what JoinLojas says |
| ImobImporter.Importer.constructor | app.js:18 | the buffer starts empty |
| ImobImporter.Importer.ProcessData | app.js:152-289 | the handler's outcome is Process's; only a ready run replaces the buffer, and every early return or error leaves it as it was |
| ImobImporter.Importer.InsertData | app.js:294-326 | the handler does what Insert says to the buffer |

## Left out

- DOM and UI work: reading the form, the preview table and its column flags, button states, spinners and icons (app.js:39-89, app.js:356-386). Only the duplicate count of the preview (app.js:364) is modelled. The status texts appear as the outcome constructors and their messages.
- Supabase (app.js:97-133, app.js:185-188, app.js:213-216, app.js:309): network I/O to a library outside this code. The queries' answers and the insert's error are parameters. The model does not require the store to return only the keys or ids it was asked for.
- `async`/`await` sequencing, and the single-flight discipline of the disabled buttons. Each handler is one sequential step.
- `new Date().getFullYear()` (app.js:247): the current year is a parameter.
- ValidDateTime: the `isNaN(new Date(iso).getTime())` test (app.js:351) is modelled by element ranges only: month 01-12, day 01-31, hour, minute and second in range, and 24:00:00. Whether a day past the end of its month is rejected or rolled over depends on the engine.
- JsNumber.ParseInt: a JavaScript number is modelled as an unbounded integer. Precision loss above 2^53, and `String` of such numbers, are not modelled.
- JsText: `trim`'s set of white-space code points is the ECMAScript WhiteSpace and LineTerminator list. There is no Unicode normalisation.
- ImobPipeline.CoerceRow: the source converts the cells in the insertion order of the row's keys. The model converts them in COLUMN_TYPES order. Each conversion reads only its own cell, so the order does not change the result.
- ImobPipeline.TransformRow: the source updates the row objects of `allParsedRows` in place through aliasing. The model builds new map values instead. Nothing reads the old records after the transform except `allParsedRows.length`.
- ImobPipeline.YearOf: when DATA has fewer than three "/" pieces, the source stores `undefined` in `ano`. The model stores null; the conversion turns both into null.
- ImobPipeline.ToTimestamp: a number never reaches a timestamp column, so `formatBRLDateToISO` of a number is not modelled.
- ImobImporter.Importer.ProcessData: an exception thrown while rendering the preview, after the buffer was assigned, is not modelled.
- `initAppShell`, `initSupabase`, `login.js` and `api/config.js` are not part of this model. They are UI, authentication and serverless plumbing.
