# Natural-language-to-SQL pipeline: a Dafny model

The application turns a business question into a read-only PostgreSQL query.
It builds a prompt from the database schema and sends it to a language model.
It reads the model's JSON reply, cleans and checks the SQL in it, and falls
back to a canned query when anything goes wrong. The result view can export
the rows as CSV and turn them into pie-chart slices. The table picker toggles
table names in a selection.

This project models that logic and proves properties of it. The model has
these modules:

- `Text` (`text.dfy`): the JavaScript string operations the code uses.
  - It covers `trim`, `toLowerCase`, `startsWith`, `includes`, `split` and `join`.
  - It covers the regular-expression word boundary `\b`.
  - It covers global case-insensitive `replace` of a literal.
- `Js` (`js.dfy`): JavaScript values and the conversions the code applies to them.
  - It covers truthiness, `String(v)`, `Object.keys` and property reads.
- `SqlGuard` (`sqlguard.dfy`): `cleanSQLQuery`, the safety gate.
  - `CleanSql` states its outcome as a function.
  - The method `CleanSqlQuery` performs the same steps as the TypeScript does: it reassigns one variable, loops over lines with an in-query flag, and loops over the dangerous keywords.
  - The method is proved equal to the function.
- `ChartClassifier` (`chart.dfy`): `detectChartTypeFromQuestion`.
- `Fallback` (`fallback.dfy`): `generateFallbackQuery`.
  - It is modelled as the source's if-chain.
  - It is also modelled as an ordered decision table, with a proof that the two agree.
- `SchemaPrompt` (`schema.dfy`): the schema context, the table list and the prompt.
- `SmartSql` (`smartsql.dfy`): what `generateSmartSQL` does with the model's reply, and `generateSQL`.
  - The model call and `JSON.parse` are function parameters.
  - The response's message and insights are symbolic: datatypes that say where each text comes from. `NoteValue` and `InsightValue` give the exact wording.
  - The fallback query is held as the template it was made from.
- `DataVisualization` (`visual.dfy`): `convertToCSV` and `prepareChartData`.
- `TableSelection` (`tables.dfy`): `handleTableClick`.

Where the code and the intended behaviour disagree, the model follows the code:

- **Empty first table name.** `generateFallbackQuery` throws not only for an empty table list but also when no table is named orders, users or products, the first name is `""`, and revenue with invoices does not apply (`FallbackEmptyName`). With an invoice table a revenue question still gets its query (`EmptyFirstNameWithInvoices`).
- **Fallback queries are never checked.** They do not go through `cleanSQLQuery`, and the last-resort query splices the table name in as it is. A table named `drop` produces a query the checks reject (`TableNamedDropIsUnsafe`).
- **SQL cut from a non-JSON reply is never checked.** It does not go through `cleanSQLQuery` either (`ParseFailureSkipsChecks`, `SelectDropIsWholeReply`, `SelectDropIsRejected`).
- **Empty input is returned, not rejected.** `cleanSQLQuery("")` returns `""`, and a JSON reply without a query yields an empty query.
- **`cleanSQLQuery` is not idempotent.** It removes one trailing `;` per pass (`CleanSqlNotIdempotent`).
- **CSV line breaks are not quoted.** A CSV cell is quoted only for `,` and `"`, not for a line break (`NewlineSplitsRow`).
- **An empty numeric key is passed over.** The pie value field skips a numeric key that is the empty string, because `""` is falsy (`EmptyValueKeySkipped`).

## Model

| member | source | states |
|---|---|---|
| SqlGuard.FirstSelectLine | lib/gemini.ts:213-221 | the index of the first line whose trimmed, lower-cased form starts with "select"; no earlier line does |
| SqlGuard.KeepQueryLines | lib/gemini.ts:209-221 | the line loop with its `inQuery` flag keeps exactly the lines from the first select line on |
| SqlGuard.FirstWordIndex | lib/gemini.ts:245-253 | the first dangerous keyword, in list order, that occurs as a whole word; none before it does |
| SqlGuard.FindDangerous | lib/gemini.ts:245-253 | the keyword loop stops at that first whole-word keyword |
| SqlGuard.JoinTypoEnd | lib/gemini.ts:231-232 | a match of `left\s*=\s*right` starts at the position exactly when the text has that shape there; the end returned is the end of the right pattern in such a shape |
| SqlGuard.JoinTypoShapeSkipsSpaces | lib/gemini.ts:231-232 | in every match the `=` is the first non-space after the left pattern and the right pattern the first non-space after it |
| SqlGuard.ReplaceJoinTypoNoMatch | lib/gemini.ts:231-232 | without a match at any later position the rest of the text is returned unchanged |
| SqlGuard.ReplaceJoinTypoFirst | lib/gemini.ts:231-232 | a rewrite of a non-empty rest starts with the text's character there or the replacement's first character |
| SqlGuard.ReplaceJoinTypoLast | lib/gemini.ts:231-232 | a rewrite of a non-empty rest ends with the text's last character or the replacement's last character |
| SqlGuard.ReplaceJoinTypoTrimmed | lib/gemini.ts:231-232 | a trimmed replacement keeps a trimmed text trimmed |
| SqlGuard.FixJoins | lib/gemini.ts:231-232 | a trimmed text stays trimmed |
| SqlGuard.FixJoinsNoMatch | lib/gemini.ts:231-232 | without a match of either typo anywhere the text is unchanged |
| SqlGuard.FixJoinsWithoutO | lib/gemini.ts:231-232 | a text without the letter 'o' is not rewritten |
| SqlGuard.OrderIdTypoMatches | lib/gemini.ts:231 | the pattern matches "o.order_id = o.id" as a whole |
| SqlGuard.CorrectedJoinHasNoOrdersTypo | lib/gemini.ts:232 | the corrected join holds no match of the second typo |
| SqlGuard.OrderIdJoinRewritten | lib/gemini.ts:231-232 | "o.order_id = o.id" is rewritten to "o.id = i.order_id" |
| SqlGuard.StripSqlFences | lib/gemini.ts:206 | the unfenced text is trimmed and no longer than the input |
| SqlGuard.BackticksHaveNoCase | lib/gemini.ts:206 | only three backticks lower-case to three backticks |
| SqlGuard.StripSqlFencesNoFence | lib/gemini.ts:206 | a trimmed text without three backticks is unchanged |
| SqlGuard.StripSqlFencesOfFenced | lib/gemini.ts:206 | a trimmed query without a run of three backticks, put between an opening `sql` fence line and a closing fence line, comes back exactly |
| SqlGuard.DropPreamble | lib/gemini.ts:209-223 | the kept lines are trimmed |
| SqlGuard.FirstLineOfSelect | lib/gemini.ts:213-217 | a text opening with select has a select line first |
| SqlGuard.DropPreambleOfSelect | lib/gemini.ts:209-223 | a trimmed text opening with select is kept whole |
| SqlGuard.StripSemicolon | lib/gemini.ts:226-228 | a text not ending in ';' is unchanged; one ending in ';' gets shorter and trimmed; a trimmed text stays trimmed |
| SqlGuard.Normalize | lib/gemini.ts:206-232 | the normalised text is trimmed |
| SqlGuard.Validate | lib/gemini.ts:234-260 | accepts exactly the safe selects and returns them unchanged; "not a select" exactly when the text does not start with "select"; invalid column exactly for a select mentioning `o.order_id`; a dangerous keyword error names the first whole-word keyword in list order; the create error only for a CREATE of a schema object with no keyword present |
| SqlGuard.CleanSql | lib/gemini.ts:202-261 | an accepted result is "" exactly for the empty input; otherwise it is the normalised text, and it passes every check |
| SqlGuard.CleanSqlQuery | lib/gemini.ts:202-261 | the step-by-step method computes exactly `CleanSql` |
| SqlGuard.DangerousMessageNamesKeyword | lib/gemini.ts:251 | different keywords give different error messages |
| SqlGuard.DropPreambleSkipsNotes | lib/gemini.ts:209-223 | lines of notes before the first select line are dropped; the rest is kept, trimmed |
| SqlGuard.NoSelectLineRejected | lib/gemini.ts:209-237 | with no select line, nothing is kept and the input is rejected as not a select |
| SqlGuard.ReplaceJoinTypoAbsent | lib/gemini.ts:231-232 | the join rewrite leaves a text alone when the pattern's first letter is absent |
| SqlGuard.NoCreateWithoutR | lib/gemini.ts:256-258 | a text without 'r' never triggers the CREATE check |
| SqlGuard.CreatedAtIsNotCreate | lib/gemini.ts:256-258 | "created_at" never starts a CREATE match |
| SqlGuard.UpdatedAtIsNotUpdate | lib/gemini.ts:248-252 | "updated_at" does not hold the whole word "update" |
| SqlGuard.NormalizeOneLine | lib/gemini.ts:206-232 | a trimmed one-line select without backticks, and without the letter 'o' once a trailing ';' is stripped, loses only that ';' in normalisation |
| SqlGuard.PlainSelectIsSafe | lib/gemini.ts:235-258 | a select lacking the letters every rejected word needs passes all checks |
| SqlGuard.StripSemicolonAppended | lib/gemini.ts:226-228 | exactly one trailing ';' is removed from a trimmed text |
| SqlGuard.NormalizePlainSelect | lib/gemini.ts:206-232 | a select without backticks, line feeds or edge spaces and without the letters d, i, u, a, r and o, followed by ';', normalises to the select |
| SqlGuard.CleanPlainSelect | lib/gemini.ts:202-261 | a select without backticks, line feeds or edge spaces and without the letters d, i, u, a, r and o, followed by ';', is cleaned to the select |
| SqlGuard.CleanSqlNotIdempotent | lib/gemini.ts:226-228 | with ";;" the first cleaning leaves one ';' and the second removes it |
| SqlGuard.SafeSelectHasNoOrderIdJoin | lib/gemini.ts:231-240 | a safe select holds no match of the first join typo |
| SqlGuard.CleanSafeSelectUnchanged | lib/gemini.ts:202-261 | a trimmed safe select without fences, a trailing ';' or the second join typo is accepted unchanged |
| ChartClassifier.ChartFromName | lib/gemini.ts:175-178 | a name is accepted exactly when it names one of the four chart kinds, and then as that kind |
| ChartClassifier.ChartNameRoundTrip | lib/gemini.ts:175-178 | every chart kind's name reads back as that kind |
| ChartClassifier.DetectChartType | lib/gemini.ts:263-288 | line exactly on a temporal word; pie exactly on a distribution word or category breakdown without one; bar exactly on a ranking word without either; table otherwise |
| ChartClassifier.FirstMatch | lib/gemini.ts:263-288 | the chart of the first matching rule from the position on; the table chart when none matches |
| ChartClassifier.DetectIsFirstMatch | lib/gemini.ts:263-288 | the if-chain equals the first matching row of the priority table |
| ChartClassifier.DetectIgnoresCase | lib/gemini.ts:264 | lower-casing the question first changes nothing |
| ChartClassifier.MonthlyRevenueTrendIsLine | lib/gemini.ts:267-268 | "monthly revenue trend" gets a line chart |
| ChartClassifier.NoCategoryBreakdown | lib/gemini.ts:272 | a text lacking a letter of "category" holds no category breakdown |
| ChartClassifier.TopCustomersNoTemporalWord | lib/gemini.ts:267 | "top 5 customers" holds no temporal word |
| ChartClassifier.TopCustomersNoDistribution | lib/gemini.ts:272 | "top 5 customers" holds no distribution word or category breakdown |
| ChartClassifier.TopCustomersIsBar | lib/gemini.ts:277-278 | "top 5 customers" gets a bar chart |
| ChartClassifier.MarketShareIsPie | lib/gemini.ts:272-273 | "market share" gets a pie chart |
| ChartClassifier.ShowOrdersNoTemporalWord | lib/gemini.ts:267 | "show me orders" holds no temporal word |
| ChartClassifier.ShowOrdersNoDistribution | lib/gemini.ts:272 | "show me orders" holds no distribution word or category breakdown |
| ChartClassifier.ShowOrdersNoRankingWord | lib/gemini.ts:277 | "show me orders" holds no ranking word |
| ChartClassifier.ShowOrdersIsTable | lib/gemini.ts:282-287 | "show me orders" gets a table |
| SchemaPrompt.TableNames | lib/gemini.ts:292 | one name per schema, in order |
| SchemaPrompt.ForeignKeyInfo | lib/gemini.ts:19-23 | the foreign-key line is empty exactly when the table has no foreign keys |
| SchemaPrompt.ForeignKeyInfoLists | lib/gemini.ts:19-22 | after the "Foreign Keys: " label, every key's `column -> table.column` text occurs, in order, at its offset in the ", "-joined list |
| SchemaPrompt.ColumnsTextLists | lib/gemini.ts:31-33 | every column's `name (type)` text, with " NOT NULL" for a non-nullable column, occurs, in order, at its offset in the ", "-joined list |
| SchemaPrompt.ShownSample | lib/gemini.ts:26 | at most the first two sample rows, as a prefix |
| SchemaPrompt.TableBlocks | lib/gemini.ts:18-35 | one block per table, in order |
| SchemaPrompt.SampleInfo | lib/gemini.ts:25-27 | a line of its own; with samples it ends with the stringified first two rows; without them it gives the row count, or 0 when that is falsy |
| SchemaPrompt.TableBlockStartsWithHeader | lib/gemini.ts:29-31 | a table's block starts with its "Table:" line and the "Columns: " label |
| SchemaPrompt.TableBlockListsColumn | lib/gemini.ts:29-33 | a table's block holds every column's text right after the header, at its offset in the column list |
| SchemaPrompt.TableBlockListsForeignKey | lib/gemini.ts:19-33 | a table's block holds every foreign key's text after the header, the column list and the "Foreign Keys: " label, at its offset in the key list |
| SchemaPrompt.BlocksListHeaders | lib/gemini.ts:18-35 | every table's header occurs in the joined blocks, where its block starts |
| SchemaPrompt.SchemaContext | lib/gemini.ts:18-35 | every table's header occurs in the context, where its block starts |
| SchemaPrompt.SchemaContextAppend | lib/gemini.ts:35 | one more table appends a line feed and its block |
| SchemaPrompt.SampleInfoUsesFirstTwoRows | lib/gemini.ts:25-27 | tables agreeing on the first two samples and the row count get the same sample line |
| SchemaPrompt.AvailableTables | lib/gemini.ts:37 | every table name occurs in the table list at its offset |
| SchemaPrompt.Prompt | lib/gemini.ts:39-142 | the prompt opens with the introduction, the schema context follows it, and the question is spliced after the rules |
| Fallback.ChooseFallback | lib/gemini.ts:290-374 | every table a chosen template reads exists; it throws exactly when orders, users and products are absent, revenue with invoices does not apply, and the first name is missing or empty |
| Fallback.FirstRuleSpec | lib/gemini.ts:290-365 | the table answers exactly when some row applies, and then with the earliest applying row's template |
| Fallback.RevenueRows | lib/gemini.ts:295-302 | rows 0-1 of the table are the revenue branch |
| Fallback.CustomerRows | lib/gemini.ts:305-312 | rows 2-3 of the table are the customer branch |
| Fallback.ProductRows | lib/gemini.ts:315-322 | rows 4-5 of the table are the product branch |
| Fallback.OrderRows | lib/gemini.ts:325-332 | rows 6-7 of the table are the order branch |
| Fallback.RecentRows | lib/gemini.ts:335-342 | rows 8-9 of the table are the recent-activity branch |
| Fallback.TopRows | lib/gemini.ts:345-352 | rows 10-11 of the table are the top-performer branch |
| Fallback.DefaultRows | lib/gemini.ts:355-365 | rows 12-14 of the table are the defaults by table alone |
| Fallback.ChooseIsFirstRule | lib/gemini.ts:290-374 | the if-chain equals the decision table followed by the first table and the error |
| Fallback.FallbackWithFirstTable | lib/gemini.ts:368-371 | a non-empty first table name always yields a query |
| Fallback.FallbackEmptyName | lib/gemini.ts:368-373 | a single table with an empty name throws |
| Fallback.EmptyFirstNameWithInvoices | lib/gemini.ts:295-296 | a revenue question over ["", "invoices"] gets the invoice revenue query |
| Fallback.UnknownTableQueried | lib/gemini.ts:354-371 | with none of the known tables, the first table is queried |
| Fallback.AnyTableSplicesName | lib/gemini.ts:370 | the table name is spliced verbatim between spaces |
| Fallback.GenerateFallbackQuery | lib/gemini.ts:290-374 | throws exactly when orders, users and products are absent, revenue with invoices does not apply, and the first table is missing or has an empty name; otherwise the SQL of the chosen template, whose tables all exist |
| SmartSql.FallbackFor | lib/gemini.ts:290-374 | the template succeeds exactly when `generateFallbackQuery` does, and its SQL is that query |
| SmartSql.FirstSelect | lib/gemini.ts:159 | the first case-insensitive "select" at or after a position; none earlier |
| SmartSql.BlankLineAt | lib/gemini.ts:159 | the first blank line at or after a position, or the end; none earlier |
| SmartSql.ExtractSelect | lib/gemini.ts:159-160 | "" exactly when no case-insensitive select occurs; otherwise a trimmed text that opens with select, occurs at the first select, holds no blank line, and is followed only by spaces up to the nearest blank line or the end |
| SmartSql.InsightValues | lib/gemini.ts:162-198 | one value per insight, in order |
| Js.Prop | lib/gemini.ts:171-186 | reading a property of `null` or `undefined` throws; an object gives the property's value, or undefined when it lacks it; any other value gives undefined |
| SmartSql.ReplySql | lib/gemini.ts:171-172 | a falsy field gives ""; a non-empty string is kept exactly when cleaning accepts it, as cleaned; any other value throws; a kept query is "" or passes the checks |
| SmartSql.ReplyChart | lib/gemini.ts:175-178 | the reply's chart when it names one of the four kinds, else the detected one |
| SmartSql.ReplyInsights | lib/gemini.ts:184-186 | at most four: the first four of an array, else the two defaults |
| SmartSql.ReplyNote | lib/gemini.ts:183 | the reply's message when truthy, else the default sentence |
| SmartSql.StripReplyFences | lib/gemini.ts:147-150 | the reply without its fences is trimmed |
| SmartSql.StripReplyFencesOfFenced | lib/gemini.ts:147-150 | a trimmed reply without a run of three backticks, put between an opening `json` fence line and a closing fence line, comes back exactly |
| SmartSql.CutFacts | lib/gemini.ts:159-160 | the trimmed cut from a select to a blank line occurs at that select, keeps its opening select, holds no blank line and drops only spaces |
| SmartSql.CatchResponse | lib/gemini.ts:189-199 | the catch block throws exactly when the fallback does; otherwise the fallback template and the detected chart with three insights |
| SmartSql.ParseFailureResponse | lib/gemini.ts:156-167 | a non-JSON reply uses the cut-out text when there is one, else the fallback template; the detected chart; it throws only with the fallback |
| SmartSql.JsonResponse | lib/gemini.ts:170-199 | a JSON reply yields an empty or checked query, or the fallback template; at most four insights; it throws only with the fallback |
| SmartSql.JsonFieldsAreRead | lib/gemini.ts:170-187 | an accepted query is answered with the cleaned query, the reply's chart, message and insights as read |
| SmartSql.JsonQueryRejected | lib/gemini.ts:170-199 | a rejected query or a `null` reply ends in the catch block |
| SmartSql.RespondTo | lib/gemini.ts:144-199 | every response's query is the fallback template, empty, checked, or cut unchecked from a non-JSON reply and opening with select; at most four insights; it throws only with the fallback |
| SmartSql.GenerateSmartSql | lib/gemini.ts:15-199 | `generateSmartSQL` throws only when `generateFallbackQuery` throws, which needs no orders, users or products and a missing or empty first name |
| SmartSql.GenerateSql | lib/gemini.ts:377-380 | the legacy entry point throws only when the fallback does, and after a failed model call it returns the fallback query |
| SmartSql.ModelFailureUsesFallback | lib/gemini.ts:144-199 | a failed model call is answered with the fallback template and the detected chart, exactly when the fallback exists |
| SmartSql.ExtractWholeReply | lib/gemini.ts:159-160 | a trimmed reply opening with select and without blank lines is taken whole |
| SmartSql.ParseFailureSkipsChecks | lib/gemini.ts:159-167 | such a reply, when not JSON, becomes the query without any check |
| SmartSql.SelectDropIsWholeReply | lib/gemini.ts:159-160 | "select drop" is such a reply |
| SmartSql.SelectDropIsRejected | lib/gemini.ts:245-253 | the checks reject "select drop" |
| SmartSql.TableNamedDropIsUnsafe | lib/gemini.ts:290-374 | a single table named "drop" yields a fallback query that the checks reject |
| DataVisualization.DoubleQuotes | components/chat/DataVisualization.tsx:70 | every character of the result comes from the input |
| DataVisualization.UndoubleDouble | components/chat/DataVisualization.tsx:70 | reading a quote-doubled text back gives the original |
| DataVisualization.CsvCell | components/chat/DataVisualization.tsx:67-73 | a string with ',' or '"' is wrapped in quotes; other strings are kept; null and undefined become "" |
| DataVisualization.QuotedCellRoundTrip | components/chat/DataVisualization.tsx:69-71 | the inside of a quoted cell reads back as the original string |
| DataVisualization.Cells | components/chat/DataVisualization.tsx:66-74 | one cell per header, each the CSV cell of the row's value under that header |
| DataVisualization.Records | components/chat/DataVisualization.tsx:65-75 | one record per row, each the row's cells in header order |
| DataVisualization.ConvertToCsv | components/chat/DataVisualization.tsx:59-79 | the text is empty exactly when there are no rows |
| DataVisualization.CsvLines | components/chat/DataVisualization.tsx:62-76 | without line breaks in keys and cells, the lines are the header line and then one record per row, in order |
| DataVisualization.RecordFields | components/chat/DataVisualization.tsx:66-74 | without commas in the cells, a record splits back into its cells in header order |
| DataVisualization.NewlineIsNotQuoted | components/chat/DataVisualization.tsx:69 | a string with a line break and no comma or double quote is written unquoted, as it is |
| DataVisualization.NewlineSplitsRow | components/chat/DataVisualization.tsx:59-79 | a one-row export with such a cell reads as three lines |
| DataVisualization.FindLabelKey | components/chat/DataVisualization.tsx:107-114 | the first key mentioning name, category, product or customer; none earlier |
| DataVisualization.FindNumberKey | components/chat/DataVisualization.tsx:116 | the first key other than the name field with a number in the first row; none earlier |
| DataVisualization.NameField | components/chat/DataVisualization.tsx:107-114 | the earliest label key, else the first key |
| DataVisualization.ValueField | components/chat/DataVisualization.tsx:116 | the earliest key other than the name field holding a number in the first row, unless it is ""; otherwise the second key |
| DataVisualization.FirstNumberKeyUnique | components/chat/DataVisualization.tsx:116 | the key found is the only numeric key other than the name field with no such key before it |
| DataVisualization.SliceName | components/chat/DataVisualization.tsx:119 | falsy values give "Unknown"; non-empty strings are kept; an empty array gives "" |
| DataVisualization.SliceValue | components/chat/DataVisualization.tsx:120 | numbers as they are, booleans as 1 and 0, null, undefined and objects as 0, strings through the number conversion |
| DataVisualization.PrepareChartData | components/chat/DataVisualization.tsx:98-125 | slices exactly for a pie chart with rows, one per row, each built from the name and value fields chosen on the first row; otherwise the rows unchanged |
| DataVisualization.PieSliceNames | components/chat/DataVisualization.tsx:107-119 | each slice's name comes from its row's value under the first row's earliest label key |
| DataVisualization.PieSliceValues | components/chat/DataVisualization.tsx:116-120 | each slice's value comes from its row's earliest numeric key, when that key is not empty, not a label key and not the first key |
| DataVisualization.PieSliceNamesWithoutLabel | components/chat/DataVisualization.tsx:107-119 | without a label key each slice's name comes from the first key |
| DataVisualization.PieSliceValuesWithoutNumber | components/chat/DataVisualization.tsx:116-120 | without a numeric key each slice's value comes from the second key |
| DataVisualization.EmptyValueKeySkipped | components/chat/DataVisualization.tsx:116 | an empty numeric key is passed over for the second key |
| TableSelection.Without | components/TableSelector.tsx:27 | removes every copy of the name and nothing else, as a multiset |
| TableSelection.HandleTableClick | components/TableSelector.tsx:24-31 | the name's membership flips; other names keep theirs; an absent name is appended; a present one is removed in every copy |
| TableSelection.WithoutAbsent | components/TableSelector.tsx:27 | removing an absent name changes nothing |
| TableSelection.WithoutAppend | components/TableSelector.tsx:27 | removal works piece by piece, so the other names keep their order |
| TableSelection.ClickTwiceRestores | components/TableSelector.tsx:24-31 | clicking an unselected table twice restores the selection |
| TableSelection.ClickTwiceMovesToEnd | components/TableSelector.tsx:24-31 | clicking a selected table twice leaves the other tables in their order, followed by that table once |

## Left out

- **The network call.** The Gemini call, its SDK and its `await`s are not modelled. They are the parameter `model`, and `ModelFailed` stands for any thrown error.
- **JSON.** `JSON.parse` is the parameter `parse`. `JSON.stringify(rows, null, 2)` in the sample line is the parameter `stringify`.
- **Prompt wording.** The fixed text of the prompt is the `Instructions` parameter. Only where the variable parts are spliced is modelled.
- **Console logging.** The `console.error` calls are not modelled.
- **Unicode case mapping.** `toLowerCase` and the `i` regular-expression flag are modelled for ASCII letters only. Non-ASCII characters whose lower-case form differs are left as they are.
- **Text encoding.** Strings are sequences of characters, not UTF-16 code units.
- **Numbers.** JavaScript numbers are integers here, and floating point is not modelled.
- `SliceValue`: `Number` on a string is the parameter `number`, which stands for `Number(s) || 0`.
- **Message wording.** The response message and the insights are symbolic datatypes. `NoteValue` and `InsightValue` give their exact text, and no property is proved about that text.
- **Query text.** A fallback query is held as its template. `TemplateSql` gives its text.
- **Non-string query field.** A truthy `sqlQuery` that is not a string makes `cleanSQLQuery` throw a TypeError, since it has no `replace`. That is modelled as the catch path; the exact error is not modelled.
- **Object keys.** Objects are lists of properties in `Object.keys` order. JavaScript's placement of integer-like keys first is not modelled, and duplicate keys are assumed away by taking the first.
- **Missing result list.** A `null` or missing result list is not modelled; the results are always a sequence.
- **Display formatting.** `formatValue` with `toLocaleString` is locale-dependent display formatting.
- **Side effects.** The CSV download, clipboard and Blob side effects are not modelled.
- **Other components and routes.** Recharts rendering, the React state of the components, the chat interface and the API routes are not modelled.
- **Fallback template safety.** That each of the twelve fixed fallback templates passes the checks is not proved. Stating it over those literal texts is beyond the solver budget of this model. The code never runs the checks on them anyway; `TableNamedDropIsUnsafe` shows the last-resort query can fail them.
- DataVisualization.PieSliceValues: it is stated only for a value key that is neither a label key nor the first key, which keeps it apart from the name field. The contract of `ValueField` states the general choice of the value field.
- SqlGuard.JoinTypoEnd: it and the join rewrite ask for a right pattern that does not start with a space, which both of the code's patterns meet; the general regular-expression matcher is not modelled.
