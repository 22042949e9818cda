# Qianji CSV import core, modelled in Dafny

This project models the importer for CSV exports of the Qianji bookkeeping app. The pipeline has five stages:

1. **Extractor.** It trims every cell of the decoded CSV grid of spaces. It refuses a grid with fewer than two lines.
2. **Header check.** The header row must name the five required Qianji columns: 时间, 类型, 二级分类, 账户 and 金额.
3. **Table builder.** It declares the output columns, in a fixed order. Optional columns appear only when their Qianji column is present.
4. **Row loop.** For each data row, the loop:
   - rejects a row shorter than the header;
   - copies the mapped Qianji columns into a field map;
   - accepts only the type texts 收入 (income) and 支出 (expense).
5. **Transfer gate.** The loop never writes to the table of transfers awaiting their partner leg, so the gate cannot fire. That table's keys would be listed with commas in the diagnostic.

The row parser attached to the output table also has parts in the model:
- it copies a field map;
- it brings a non-empty transaction time to the long `yyyy-MM-dd HH:mm:ss` form, appending ":00" or " 00:00:00";
- it declares no added columns.

Modules:
- `Errs`: the error kinds and `Result`/`Option`.
- `Text`: `strings.Trim(s, " ")` and the comma join.
- `DataTable`: the collaborator tables the core reads and writes. These are the basic table, the header-keyed common table and the writable transaction table (a class with `Add`).
- `Extractor`: the extractor.
- `RowParser`: the row parser.
- `Importer`: the header check, the schema, the row loop, the gate, the joiner and `ParseImportedData`.
- `Scenarios`: worked examples of a Qianji export line for each outcome of the row loop.

Imperative parts of the source are methods with loops, proved against specification functions:
- the cell-trimming loops;
- the schema appends;
- the row loop;
- the map-copy loops;
- the id joiner.

The properties of the source are proved as lemmas about those functions.

The date-format recognisers from the utility package are a parameter, `DateFormats`. `FormatsCompose` states the one property the parser's canonicalisation relies on: appending the parser's suffix to a date without seconds, or to a bare date, yields a long date-time. `LayoutFormats` is a digit-template instance, and it is proved to satisfy that property.

## Model

| member | source | states |
|---|---|---|
| Extractor.CreateBasicDataTable | pkg/converters/qianji/qianji_app_transaction_data_extrator.go:13-35 | Fails with ErrNotFoundTransactionDataInFile exactly when the grid has fewer than two lines. On success the table has a header row, the same number of lines and cells as the input, and every cell is the trimmed original with no space at either edge. |
| Text.TrimSplit | pkg/converters/qianji/qianji_app_transaction_data_extrator.go:23 | Every string splits into an all-space prefix, the trimmed text and an all-space suffix, and the trimmed text has no space at either edge. |
| Text.TrimUnique | pkg/converters/qianji/qianji_app_transaction_data_extrator.go:23 | Any such split whose middle has no edge space is the one trimming gives, so trimming removes exactly the outer spaces. |
| Text.TrimKeepsNoEdgeSpace | pkg/converters/qianji/qianji_app_transaction_data_extrator.go:23 | A string with no space at its edges is left unchanged by trimming. |
| Text.TrimIdempotent | pkg/converters/qianji/qianji_app_transaction_data_extrator.go:23 | Trimming twice gives the same text as trimming once. |
| Importer.RequiredColumnsExactly | pkg/converters/qianji/qianji_app_transaction_data_csv_file_importer.go:70-74 | The header check passes if and only if the five required names all occur in the header row. |
| Importer.OptionalColumnsNotRequired | pkg/converters/qianji/qianji_app_transaction_data_csv_file_importer.go:70-77 | A header holding only the five required names passes. The category, currency, description and member names are not required. |
| Importer.ParseImportedData | pkg/converters/qianji/qianji_app_transaction_data_csv_file_importer.go:52-83 | Fewer than two lines fails with ErrNotFoundTransactionDataInFile. After that, a missing required column fails with ErrMissingRequiredFieldInHeaderRow, in both directions. Otherwise it succeeds exactly when the row build does, with the build's error, the declared schema and one field map per data row of the trimmed grid. |
| Importer.NewColumns | pkg/converters/qianji/qianji_app_transaction_data_csv_file_importer.go:91-121 | The appended column list equals the schema function of the header's optional-column presence. |
| Importer.SchemaColumns | pkg/converters/qianji/qianji_app_transaction_data_csv_file_importer.go:91-121 | Type, time, sub-category, account, amount, related account and related amount are always declared. Category, currency and related currency are declared if and only if their header column is present, and likewise description and member. Tags never are. |
| Importer.SchemaOrdered | pkg/converters/qianji/qianji_app_transaction_data_csv_file_importer.go:91-121 | The schema follows the fixed declaration order and holds no column twice. |
| Importer.SchemaUpToShape | pkg/converters/qianji/qianji_app_transaction_data_csv_file_importer.go:91-121 | Every prefix of the declaration is in strict canonical order. It holds exactly the included columns of lower rank. |
| Importer.SchemaMembers | pkg/converters/qianji/qianji_app_transaction_data_csv_file_importer.go:91-121 | A column is in the schema if and only if the header's optional-column presence includes it. |
| Importer.CopyMappedColumns | pkg/converters/qianji/qianji_app_transaction_data_csv_file_importer.go:138-144 | The loop over the column-name mapping gives the field map of mapped columns that the row has data for, with the data as values. |
| Importer.ConvertRow | pkg/converters/qianji/qianji_app_transaction_data_csv_file_importer.go:133-160 | One pass of the row loop gives exactly the row's outcome: the length check, the field copy, and the type check with its rewrite. |
| Importer.CollectStep | pkg/converters/qianji/qianji_app_transaction_data_csv_file_importer.go:156 | After a successful prefix, a successful row extends the rows by its field map. |
| Importer.CollectFailStep | pkg/converters/qianji/qianji_app_transaction_data_csv_file_importer.go:133-160 | After a successful prefix, a failing row decides the whole loop with that row's error, matching the early returns at lines 135 and 159. |
| Importer.RowFieldsKeys | pkg/converters/qianji/qianji_app_transaction_data_csv_file_importer.go:31-41 | A field map never holds related-leg columns or tags. Each value is the row's cell under that column's header name. In a row as long as the header, the keys are exactly the mapped columns whose header name is present. |
| Importer.RowKeysInSchema | pkg/converters/qianji/qianji_app_transaction_data_csv_file_importer.go:138-156 | Every column a stored field map holds is one the table declares. |
| Scenarios.ExpenseLineScenario | pkg/converters/qianji/qianji_app_transaction_data_csv_file_importer.go:138-156 | For a header with eight Qianji columns (all but 记账者) and the line `2024-01-01,支出,饮食,午餐,招商银行,CNY,-35,""`, the header check passes and the build keeps one map. That map has type 支出, amount -35 and time 2024-01-01, and the time parses to 2024-01-01 00:00:00. |
| Scenarios.ShortLineScenario | pkg/converters/qianji/qianji_app_transaction_data_csv_file_importer.go:133-136 | A five-cell line under the eight-column header fails the build with ErrFewerFieldsInDataRowThanInHeaderRow. |
| Scenarios.TransferLineScenario | pkg/converters/qianji/qianji_app_transaction_data_csv_file_importer.go:146-160 | A full-length line whose type is 转账 (transfer) fails the build with ErrTransactionTypeInvalid. |
| Importer.ShortRowFailsFirst | pkg/converters/qianji/qianji_app_transaction_data_csv_file_importer.go:133-136 | A row shorter than the header fails with ErrFewerFieldsInDataRowThanInHeaderRow, whatever its type text. |
| Importer.RowOutcomeType | pkg/converters/qianji/qianji_app_transaction_data_csv_file_importer.go:146-160 | A full-length row is accepted, with its field map unchanged, if and only if its type text is 收入 or 支出. Otherwise, including when the type column is absent, it fails with ErrTransactionTypeInvalid. |
| Importer.TypeRewriteIsIdentity | pkg/converters/qianji/qianji_transaction_data_row_parser.go:10-13 | The type-name mapping sends income and expense to the literals the loop recognises, so the rewrite at importer lines 149-154 changes nothing. |
| Importer.CollectAllOrNothing | pkg/converters/qianji/qianji_app_transaction_data_csv_file_importer.go:129-161 | The row loop succeeds if and only if every row does. It then keeps one map per row, in input order. |
| Importer.CollectFirstFailure | pkg/converters/qianji/qianji_app_transaction_data_csv_file_importer.go:129-161 | A failing loop fails with the error of the first failing row, and every earlier row succeeded. |
| Importer.CollectPrefixFailure | pkg/converters/qianji/qianji_app_transaction_data_csv_file_importer.go:135 | Once a row has failed, the later rows do not change the outcome, which matches the early return. |
| Importer.BuildRowsSpec | pkg/converters/qianji/qianji_app_transaction_data_csv_file_importer.go:129-161 | The build succeeds if and only if every row's outcome does, the resulting maps being the rows' field maps in order. Otherwise the error is that of the first failing row. |
| Importer.BuildRowsErrorKinds | pkg/converters/qianji/qianji_app_transaction_data_csv_file_importer.go:129-161 | The row loop fails only with ErrFewerFieldsInDataRowThanInHeaderRow or ErrTransactionTypeInvalid. |
| Importer.CreateTransactionDataTable | pkg/converters/qianji/qianji_app_transaction_data_csv_file_importer.go:90-169 | Succeeds if and only if the row build does, with the build's error otherwise. ErrFoundRecordNotHasRelatedRecord never occurs, because the transfer registry stays empty. On success it returns a fresh table whose columns are the schema and whose rows are the built field maps. |
| Importer.RelatedTransactionIds | pkg/converters/qianji/qianji_app_transaction_data_csv_file_importer.go:171-183 | Gives "" for an empty registry. Every key is visited once, in some order. The text is the comma join of that order after its leading empty ids, and the plain comma join when no id is empty. |
| Text.JoinStep | pkg/converters/qianji/qianji_app_transaction_data_csv_file_importer.go:175-179 | Writing a comma only when the builder already holds text extends the comma join by one id. |
| Text.JoinCommaNoEdgeComma | pkg/converters/qianji/qianji_app_transaction_data_csv_file_importer.go:171-183 | Non-empty ids with no comma at their edges join into text with no leading or trailing comma. |
| RowParser.Parse | pkg/converters/qianji/qianji_transaction_data_row_parser.go:25-37 | The result is always valid with no error. It has the same keys as its input and leaves every non-time value unchanged. A non-empty time becomes its long form and an empty time stays empty. |
| RowParser.LongDateTimeSuffix | pkg/converters/qianji/qianji_transaction_data_row_parser.go:40-54 | The result is the input, the input plus ":00", or the input plus " 00:00:00". A long date-time, or a string matching no format, is returned unchanged. |
| RowParser.LongDateTimeCanonical | pkg/converters/qianji/qianji_transaction_data_row_parser.go:40-54 | Under the format assumption the result is a long date-time, unless the input matches none of the three formats and is returned as is. |
| RowParser.LongDateTimeIdempotent | pkg/converters/qianji/qianji_transaction_data_row_parser.go:40-54 | Under the format assumption, canonicalising twice gives the same result as once. |
| RowParser.LayoutFormatsCompose | pkg/converters/qianji/qianji_transaction_data_row_parser.go:41-50 | The digit-template recognisers satisfy the format assumption. |
| RowParser.LayoutBareDate | pkg/converters/qianji/qianji_transaction_data_row_parser.go:49-50 | With the digit-template recognisers, the date 2024-01-01 becomes 2024-01-01 00:00:00. |
| RowParser.AddedColumns | pkg/converters/qianji/qianji_transaction_data_row_parser.go:20-22 | The parser declares no added columns. |
| Importer.SchemaNeedsNoAddedColumns | pkg/converters/qianji/qianji_transaction_data_row_parser.go:20-22 | Adding the parser's columns to the schema leaves it unchanged. |
| DataTable.ColumnIndex | pkg/converters/qianji/qianji_app_transaction_data_csv_file_importer.go:141-142 | The header lookup the rows use. A name is found if and only if it occurs in the header, at a position holding that name. |
| DataTable.ColumnIndexLastWins | pkg/converters/qianji/qianji_app_transaction_data_csv_file_importer.go:141-142 | A name that occurs more than once resolves to its last position. |
| DataTable.FullRowHasEveryColumn | pkg/converters/qianji/qianji_app_transaction_data_csv_file_importer.go:133-142 | In a row at least as long as the header, every header name has data. |
| DataTable.TransactionDataTable.Add | pkg/converters/qianji/qianji_app_transaction_data_csv_file_importer.go:156 | Appends one field map to the table's rows. |

## Left out

- **Byte decoding.** The UTF-8/BOM decoding of the upload and the CSV tokeniser (importer lines 53-60) are not modelled. The model starts from the grid of cell texts they produce.
- **Entity resolution.** The generic importer that resolves accounts, categories and tags (importer lines 85-87) is code outside this core. `ParseImportedData` returns the transaction table that would be handed to it.
- **Logging and context.** Logging and the request context are diagnostics only, and they carry no behaviour.
- **Format recognisers.** The bodies of the date-format recognisers in the utility package are not part of this model. They are the `DateFormats` parameter, constrained only by `FormatsCompose` where a lemma needs it.
- **Table internals.** The datatable package is not part of this model. `HasData` is taken as "the name is in the header and the row has a cell at its position", and `GetData` as that cell, or "" otherwise. A header name that occurs twice is taken to resolve to its last position. The basic and common tables are values. When the basic table has a header row, `CommonTableOf` takes its first line as the header and the remaining lines as data rows; this is an assumption about the collaborator, not a proved property.
- **Row parser on read.** The writable table applies the row parser when its rows are read. That happens inside the datatable package, so the stored rows here are the unparsed field maps, and `Parse` is stated on its own.
- **Transfer pairing.** The loop never writes to the transfer registry, so that error path is unreachable and `CreateTransactionDataTable` proves so. `RelatedTransactionIds` is still modelled on an arbitrary map.
- **Map iteration order.** Go's map iteration order is unspecified. The loops pick keys with `:|`, and the joiner's visiting order is a ghost out-parameter, so its text is determined only up to that order.
- **Unmodified input.** The source never writes to the input tables. This holds by construction, since they are values here.
