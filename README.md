# Loan-portfolio analyser and workflow CSV, in Dafny

This project models the checkable logic of `script.js`, a browser page with
two parts. The first is a loan-portfolio analyser:
- A CSV upload is cut into trimmed, non-empty lines (`parseCSV`).
- The data rows are split by a quote-aware scanner (`splitCsvRow`) and keyed
  by the header names (`rowsToObjects`).
- `analyzeClients` then makes one pass over the records. For each record it
  coerces the fields and classifies the row by balance and days overdue. It
  adds the row to the running loan total and to the currency counts, and
  folds it into its client's aggregate in an insertion-ordered `Map`.
- From the final map it derives the portfolio totals, the main currency and
  a ranked list of clients with a balance or an overdue flag.
- `renderSummary` turns the totals into an overdue percentage and picks one
  of three closing sentences, or none.

The second part is the string logic of the workflow builder. It covers the
CSV import of nodes (each line becomes a node further down the canvas) and
the CSV export of the ordered steps.

Each part keeps the form it has in the source:
- Loops that change variables are methods with invariants: the scanner of
  `splitCsvRow`, the `forEach` loops of `rowsToObjects`, the pass of
  `analyzeClients`, the import loop with its running `y`, and the export
  loop.
- Each of these methods is proved equal to a specification function.
- The properties the page relies on are proved as lemmas about those
  functions.

The clock (`new Date()`), `parseFloat` and the date parser are parameters.
`today` is one instant in milliseconds. `number: string -> Option<real>`
stands for `parseFloat`, where `None` is NaN. `date: string -> Option<int>`
stands for `new Date(s)` in milliseconds, where `None` is an invalid date.

Modules:
- `Wrappers`: `Option`.
- `Collections`: first-occurrence deduplication, which gives the key order of
  a `Map` or object, and `filter`.
- `Text`: `trim`, `split` and `join`.
- `Csv`: `parseCSV`, `splitCsvRow` and `rowsToObjects`.
- `Classification`: the per-row figures.
- `Aggregation`: the per-client fold.
- `Ranking`: the stable sort of `clientsWithBalance`.
- `Portfolio`: field coercion, currency counts, totals, the `analyzeClients`
  loop and the upload handler.
- `Summary`: the percentage and the tier sentence.
- `Workflow`: the CSV import and export.

## Model

| member | source | states |
|---|---|---|
| Text.Trim | script.js:290 | The trimmed line is no longer than the input and neither starts nor ends with white space. |
| Text.TrimSlice | script.js:290 | The trimmed line is the slice of the input between a leading and a trailing run of white space. |
| Text.TrimEmpty | script.js:290-291 | A line trims to the empty string exactly when it is all white space, so exactly those lines are dropped. |
| Text.TrimFixed | script.js:290 | Trimming does nothing exactly when there is no white space at either end, and trimming twice is trimming once. |
| Text.Split | script.js:289 | Splitting on one character gives one piece more than the string has separators, and no piece contains the separator. |
| Text.JoinSplit | script.js:289 | Joining the pieces of a split with the same separator gives back the original text. |
| Text.SplitJoin | script.js:198 | Splitting a join of separator-free cells gives back the cells. |
| Text.NatToString | script.js:191 | The step number is written as a non-empty run of decimal digits whose decimal value is the number, with no leading zero. |
| Text.Join | script.js:198 | `Array.prototype.join`: the pieces with the separator between consecutive ones. Its inverse is `Text.SplitJoin`. |
| Collections.Dedup | script.js:344-402 | The ids of a `Map` filled from a sequence are distinct, are all from the sequence, and cover every element. |
| Collections.DedupOrder | script.js:387-402 | The deduplicated ids come in order of first appearance: the first occurrence of an earlier id comes before the first occurrence of a later one. |
| Collections.DedupSize | script.js:425 | The number of distinct entries is the size of the set of values. |
| Collections.Filter | script.js:427 | `Array.prototype.filter`: the kept elements satisfy the predicate and are no more than the input; `Collections.FilterMembership` states which are kept. |
| Collections.FilterMembership | script.js:427 | An element survives `filter` exactly when it occurs and satisfies the predicate. |
| Csv.Lines | script.js:287-292 | Every line of `parseCSV` is non-empty and trimmed, and there is at most one line more than there are newlines. |
| Csv.NonEmptyTrimmedMembership | script.js:288-291 | A line is in the output exactly when it is non-empty and is the trimmed form of one of the newline-separated pieces. |
| Csv.NonEmptyTrimmedClean | script.js:290-291 | Pieces that are already trimmed and non-empty are all kept in order, and a trailing empty piece is dropped. |
| Csv.CsvFields | script.js:335 | A row always has at least one field, and every field is trimmed. |
| Csv.SplitCsvRow | script.js:315-336 | The index loop with its running field, quote flag and `i++` skip returns exactly the fields of the scan, each trimmed. |
| Csv.RawFields | script.js:320-334 | The scan of `splitCsvRow` before trimming, case by case in the source's order; `Csv.FieldCount` and the prefix lemmas below state what it yields. |
| Csv.FieldCount | script.js:320-334 | A row has one field more than the commas the scan meets outside quotes. |
| Csv.QuoteFreeRow | script.js:315-336 | A row without a quote character splits exactly as `split(",")` does, so it has one field more than it has commas. |
| Csv.PairPrefix | script.js:322-324 | A `""` pair becomes one literal quote in either quote state. |
| Csv.LoneQuote | script.js:325-326 | A quote not followed by another toggles the quote state and adds nothing to the field. |
| Csv.CommaPrefix | script.js:327-329 | A comma outside quotes closes the current field and starts an empty one. |
| Csv.OrdinaryPrefix | script.js:330-332 | Characters other than quote and comma are copied into the current field. |
| Csv.QuotedRun | script.js:320-333 | Inside quotes, a quote-free run closed by a lone quote goes whole into the field, commas included. |
| Csv.QuotedField | script.js:320-334 | A non-empty quote-free field wrapped in quotes comes back whole, even when it holds commas. |
| Csv.QuotedFirstField | script.js:315-336 | `"Acme, Inc.",100,USD`-shaped rows have exactly three fields: the name, the amount and the currency. |
| Csv.DoubledQuoteExample | script.js:322-324 | `He said ""hi""` is the one field `He said "hi"`. |
| Csv.EmptyQuotedFieldIsAQuote | script.js:322-324 | An empty quoted field `""` reads as one literal quote, so `a,"",b` has the fields `a`, `"` and `b`. |
| Csv.Header | script.js:296 | The header is a plain comma split: one name more than the line has commas. |
| Csv.ZipObject | script.js:304-307 | The record built by `header.forEach`; `Csv.ZipObjectLookup` states its keys and values. |
| Csv.ZipObjectLookup | script.js:304-307 | A record has exactly the header names as keys, and each key holds the value of the last column with that name. |
| Csv.BuildObject | script.js:304-307 | The `header.forEach` loop assigns every column and builds the zipped record. |
| Csv.Kept | script.js:300-309 | The records of the data rows with the header's width, in order; `Csv.KeptMembership` and `Csv.KeptKeys` state which and with what keys. |
| Csv.KeptKeys | script.js:300-309 | Every record produced from the data rows has exactly the header names as keys. |
| Csv.KeptMembership | script.js:300-309 | A record is produced exactly for the data rows whose `splitCsvRow` field count equals the header length. |
| Csv.KeptSnoc | script.js:300-309 | One more data row adds its record when its width is the header's, and nothing otherwise. |
| Csv.ObjectsOf | script.js:294-297 | No records without a data line, and fewer records than lines: the first line is the header and never data. |
| Csv.KeepRow | script.js:301-308 | The body of the data-row loop pushes the row's record when its width matches, and nothing otherwise. |
| Csv.KeepRows | script.js:298-311 | The data-row loop produces exactly the kept records, in order. |
| Csv.RowsToObjects | script.js:294-312 | `rowsToObjects` returns no records for no lines, and otherwise the kept records of the lines after the header. |
| Classification.RiskRank | script.js:413 | Every rank of the `riskRank` table lies between 1 and 3. |
| Classification.Upgrade | script.js:414-416 | The upgraded risk is one of the two inputs and ranks at least as high as both. |
| Classification.Classify | script.js:373-380 | The risk policy: high above 30 days overdue or 25000 outstanding, medium for another balance, low otherwise; `Classification.AssessCharacterization` states it for a row. |
| Classification.Assess | script.js:363-380 | A row's balance is never negative. It is overdue exactly when at least one day overdue, and only with a positive balance. It is low risk exactly when nothing is outstanding. |
| Classification.AssessCharacterization | script.js:363-380 | The balance is `max(loan - paid, 0)`. Days overdue are non-zero only with a due date, a positive balance and `today` after the due date, and then they are the whole days elapsed. High risk means more than 30 days overdue or a balance above 25000. Medium means any other positive balance. |
| Classification.OverdueBoundary | script.js:367-371 | On the due date itself a row is not overdue; one day later it is one day overdue. |
| Classification.HighThresholdIsStrict | script.js:376 | A balance of 25001 is high risk, 25000 only medium. |
| Aggregation.Later | script.js:418-420 | The kept due date is one of the two dates, absent only when both are absent, and never earlier than a present one. |
| Aggregation.MergeLaws | script.js:405-420 | Combining the figures of two groups is associative and commutative with the empty figures as unit. |
| Aggregation.MergeSeed | script.js:388-401 | The seed record holds only the first row's due date, and adding that row leaves exactly the row's figures. |
| Aggregation.RowStats | script.js:363-420 | The figures one row adds to its client: its loan, paid amount, balance, days overdue, overdue flag, risk and due date; `Aggregation.TotalSums`, `TotalMaxDays`, `TotalOverdue`, `TotalRisk` and `TotalLatestDue` state how they combine. |
| Aggregation.Seed | script.js:388-401 | The record `clientMap.set` stores for a new id: the row's identity fields, zero figures and the row's due date; `Aggregation.MergeSeed` states that adding the row then gives exactly its figures. |
| Aggregation.Merge | script.js:405-420 | Combines two groups' figures; `Aggregation.MergeLaws` proves it a commutative monoid. |
| Aggregation.Total | script.js:405-420 | A group's figures folded from its rows; `Aggregation.TotalSums`, `TotalMaxDays`, `TotalOverdue`, `TotalRisk` and `TotalLatestDue` state each field. |
| Aggregation.TotalAppend | script.js:405-420 | The figures of two runs of rows combine into the figures of the concatenation. |
| Aggregation.TotalInsert | script.js:405-420 | A row inside a run contributes as if it came last. |
| Aggregation.TotalPermutation | script.js:405-420 | Any reordering of a client's rows gives the same figures. |
| Aggregation.TotalSums | script.js:405-407 | Loan, paid and outstanding are the sums over the rows, with the balance added row by row. |
| Aggregation.TotalMaxDays | script.js:408-410 | Days overdue is at least that of every row and equal to one of them, or 0 for none. |
| Aggregation.TotalOverdue | script.js:411 | A client is overdue exactly when one of its rows is. |
| Aggregation.TotalRisk | script.js:413-416 | The risk ranks at least as high as every row's and equals one of them, or low for none; it is never recomputed from the totals. |
| Aggregation.TotalLatestDue | script.js:418-420 | The latest due date is absent exactly when no row has one; otherwise it is a row's date and no earlier than any row's date. |
| Aggregation.TotalConsistent | script.js:405-416 | Every aggregate has a non-negative balance, is low risk exactly when nothing is outstanding, is overdue only with a balance, and is overdue exactly when at least one day overdue. |
| Aggregation.IndexOf | script.js:387 | `clientMap.has`/`get`: the position found holds the id, and no earlier entry does. |
| Aggregation.RowsOfEmpty | script.js:387 | A client has rows exactly when its id occurs among the accepted rows. |
| Aggregation.Step | script.js:387-420 | One iteration over a row: look the id up, seed a new entry if absent, and add the row's figures; `Aggregation.StepShape` and `Aggregation.StepCorrect` state its effect. |
| Aggregation.Fold | script.js:387-420 | `clientMap` after all accepted rows; `Aggregation.FoldCorrect` states what it holds. |
| Aggregation.StepShape | script.js:387-420 | One row updates its client's entry in place, or appends a seeded entry for a new id; no other entry changes. |
| Aggregation.StepCorrect | script.js:387-420 | One fold step turns a correct map for some rows into a correct map for those rows and one more. |
| Aggregation.FoldCorrect | script.js:387-420 | The map has one entry per distinct id, in order of first appearance. Each entry takes name, country and currency from the client's first row and its figures from all of the client's rows. |
| Aggregation.FoldOrderIndependent | script.js:387-420 | Reordering the input gives each client the same multiset of rows and the same figures. |
| Ranking.Precedes | script.js:436-441 | The comparator's order: higher risk rank first, then the larger balance; `Ranking.PrecedesPreorder` proves it a total preorder. |
| Ranking.PrecedesPreorder | script.js:436-441 | The comparator's order, risk rank descending and then balance descending, is a total preorder. |
| Ranking.Insert | script.js:436-441 | Insertion adds exactly the inserted element. |
| Ranking.InsertSorted | script.js:436-441 | Inserting into a sorted list keeps it sorted. |
| Ranking.SortSorted | script.js:436-441 | The sort's output is ordered by risk rank, then balance, both descending. |
| Ranking.SortPermutation | script.js:436-441 | The sort's output is a permutation of its input. |
| Ranking.InsertStable | script.js:436-441 | An inserted element goes after every element tied with it. |
| Ranking.SortStable | script.js:436-441 | Clients the comparator ties keep their input order. |
| Ranking.SortRanked | script.js:436-441 | The stable sort by the comparator, as insertion; `Ranking.SortSorted`, `SortPermutation` and `SortStable` state its properties. |
| Ranking.Ranked | script.js:434-441 | `clientsWithBalance`: the filter, then the sort; `Ranking.RankedCorrect` states it. |
| Ranking.RankedCorrect | script.js:434-441 | `clientsWithBalance` is sorted, a permutation of the clients with a balance or an overdue flag, stable on ties, and holds a client exactly when it has one of the two. |
| Portfolio.Field | script.js:348-361 | `r[key]`, with a missing column read as the empty string; `Portfolio.NormalizeDefaults` states the coercions built on it. |
| Portfolio.OrElse | script.js:348-353 | `a \|\| b` on strings, where the empty string is falsy; `Portfolio.NormalizeDefaults` states the fallbacks. |
| Portfolio.Amount | script.js:355-356 | `parseFloat(s \|\| "0") \|\| 0`: an empty or unreadable field is 0; `Portfolio.NormalizeDefaults` states the empty case. |
| Portfolio.DateOf | script.js:357-361 | `s ? new Date(s) : null`: an empty field has no date; `Portfolio.NormalizeDefaults` states the empty case. |
| Portfolio.NormalizeDefaults | script.js:348-361 | A record is skipped exactly when it has neither id nor name. The id falls back to the name, the name to the id, the country to "-" and the currency to "USD"; a non-empty id, name, country or currency passes through. Empty loan and paid amounts read 0, and empty due and last-payment dates are absent. |
| Portfolio.Normalize | script.js:348-361 | The coercion of one record: skipped without id and name, and every kept row has a non-empty id and currency. |
| Portfolio.Accepted | script.js:347-361 | At most one row per record, and every accepted row has a non-empty id and currency. |
| Portfolio.AcceptedMembership | script.js:347-361 | A row is analysed exactly when some record normalises to it, so every record with an id or a name contributes its row. |
| Portfolio.Count | script.js:385 | `currencyCounts[code] = (currencyCounts[code] \|\| 0) + 1`; `Portfolio.CountCodes` and `Portfolio.CountCorrect` state its effect. |
| Portfolio.TalliesOf | script.js:385 | `currencyCounts` after all accepted rows; `Portfolio.TalliesCorrect` states what it holds. |
| Portfolio.TallyIndex | script.js:385 | The currency's entry is found at the first position holding it, if any. |
| Portfolio.CountCodes | script.js:385 | Counting a row keeps the existing currency keys and appends a new currency at the end. |
| Portfolio.CountCorrect | script.js:385 | One counting step turns correct counts for some rows into correct counts for those rows and one more. |
| Portfolio.TalliesCorrect | script.js:385 | `currencyCounts` has one key per distinct currency, in order of first appearance, each holding the number of rows in that currency. |
| Portfolio.BestIndex | script.js:431-432 | The chosen entry has the largest count, and every earlier entry has a smaller one: the first key wins ties. |
| Portfolio.MainCurrency | script.js:431-432 | The first key after a stable sort by descending count, or "USD"; `Portfolio.MainCurrencyIsMode` states it. |
| Portfolio.MainCurrencyIsMode | script.js:431-432 | The main currency is "USD" when there are no rows. Otherwise it is a row's currency with the most rows, and every currency counted before it has fewer. |
| Portfolio.SumBy | script.js:426-428 | `clients.reduce((sum, c) => sum + f(c), 0)`; `Portfolio.SumByUpdate`, `Portfolio.FoldSums` and `Portfolio.AnalysisTotals` state what the sums are. |
| Portfolio.SumByUpdate | script.js:426 | Replacing one aggregate changes the sum by the difference. |
| Portfolio.StepSums | script.js:405-407 | One row adds its loan and its balance to the sums over the map. |
| Portfolio.FoldSums | script.js:382-426 | The sum of the aggregates' loans is the running loan total, and the sum of their balances is the sum of the rows' balances. |
| Portfolio.FoldConsistent | script.js:367-416 | Every aggregate in the map satisfies the consistency invariant. |
| Portfolio.Summarize | script.js:423-452 | The returned object computed from the final map, counts and loan total; `Portfolio.AnalysisTotals` and `Portfolio.AnalysisFilters` state its fields. |
| Portfolio.AnalysisOf | script.js:339-452 | What `analyzeClients` returns for the accepted rows; `Portfolio.AnalyzeClients` is proved equal to it. |
| Portfolio.AnalysisTotals | script.js:423-432 | The totals: one client per distinct accepted id, and the loan total is the sum of the aggregates' loans. The outstanding total is the sum of the rows' balances. The overdue amount lies between 0 and the outstanding total and is positive exactly when some client is overdue. No client is overdue when nothing is outstanding, and there are no more overdue clients than clients. |
| Portfolio.AnalysisFilters | script.js:427-435 | The filter at line 427 is the overdue flag alone, and the filter at line 435 is a positive balance alone. Every ranked client is medium or high risk. |
| Portfolio.VisitRecord | script.js:347-421 | The `forEach` callback leaves everything unchanged for a record without an id. Otherwise it adds the row's loan and paid amount, counts its currency and folds it into its client's entry. |
| Portfolio.AddToClient | script.js:387-420 | The in-place update of the client's record, field by field, gives the fold step's entry. |
| Portfolio.VisitStep | script.js:347-421 | One visited record carries the running totals, the counts and the map over the accepted rows to those over the rows plus the new one. |
| Portfolio.AnalyzeClients | script.js:339-452 | The one-pass loop returns exactly the analysis of the accepted rows. |
| Portfolio.HandleUpload | script.js:270-278 | The upload stops with nothing when there are no records, and otherwise returns the analysis of the records. |
| Summary.OverduePct | script.js:468-470 | The percentage is `100 * count / total` rounded half up, or 0 with no clients. |
| Summary.OverduePctRange | script.js:468-499 | The percentage is at most 100, and it reaches the 30 % threshold exactly when `200 * count >= 59 * total`. |
| Summary.TierOf | script.js:495-507 | The branch that picks the closing sentence; `Summary.TierOfAnalysis` states its four cases. |
| Summary.TierOfAnalysis | script.js:495-507 | For an analysis of accepted rows: "very low risk" exactly when nothing is outstanding; "concentrated" exactly when some client is overdue and at least 29.5 % are; "some overdue" when fewer are; no sentence exactly when money is outstanding but nobody is overdue. |
| Workflow.ToLower | script.js:127 | Lower-casing keeps the length, maps each capital letter to its own lower-case letter and keeps every other character. |
| Workflow.Capitalize | script.js:55 | Capitalising keeps the length and everything after the first character, and upper-cases a lower-case first letter. |
| Workflow.CreateNode | script.js:47-55 | A node with the given type and position, titled by the custom title or else the capitalised type; `Workflow.ImportedNode` states it for imported lines. |
| Workflow.NodeFor | script.js:122-130 | The node a data line describes; `Workflow.ImportedNode` states its fields. |
| Workflow.ImportRows | script.js:115-124 | Every line that becomes a node has at least two comma-separated parts. |
| Workflow.Placed | script.js:120-131 | One node per imported line. |
| Workflow.PlacedSnoc | script.js:120-131 | One more imported line adds its node below the others. |
| Workflow.PlaceLine | script.js:122-131 | The callback makes a node at the current height and moves 80 down when the line has a type, and does nothing otherwise. |
| Workflow.ImportStep | script.js:122-131 | One callback extends the nodes built so far and keeps `y` one row below the last node. |
| Workflow.PlaceRows | script.js:120-131 | The import loop builds the nodes with the running `y`. |
| Workflow.Imported | script.js:120-131 | The nodes the import builds, one line at a time; `Workflow.ImportedIsPlaced` and `Workflow.ImportNodes` state their positions and fields. |
| Workflow.ImportedIsPlaced | script.js:120-131 | The nodes built are those of the lines with a type, placed in order. |
| Workflow.ImportNodes | script.js:114-131 | The `k`-th imported line becomes a node at height `40 + 80 * k`. |
| Workflow.HasTypeIffComma | script.js:123-124 | A line is imported exactly when it holds a comma. |
| Workflow.ImportedLines | script.js:115-124 | At most one node per data line, and a line is imported exactly when it is a data line after the header that holds a comma. |
| Workflow.ImportedNode | script.js:120-131 | The `k`-th node has `x = 100` and `y = 40 + 80 * k`. Its type is the second part, trimmed and lower-cased. Its title is the first part, or else the capitalised type; it is empty only when both are. |
| Workflow.LowerKeepsTrim | script.js:127 | Lower-casing a trimmed type leaves it trimmed. |
| Workflow.Escape | script.js:196 | Doubling the quotes never shortens the description. |
| Workflow.Cells | script.js:190-197 | The six cells of an exported row, with only the description escaped; `Workflow.ExportRowFields` reads them back. |
| Workflow.CsvLine | script.js:190-198 | The cells joined by commas; `Workflow.ExportRowFields` reads it back. |
| Workflow.CsvText | script.js:187-198 | The `csv +=` accumulation: the header line, then each row and a newline; `Workflow.ExportCsv` is proved to build it. |
| Workflow.ExportCsv | script.js:188-199 | The export loop writes the header line and then one comma-joined row per step, each followed by a newline. |
| Workflow.EscapedRun | script.js:196 | Inside quotes, an escaped description reads back as the original text. |
| Workflow.DescriptionCell | script.js:196 | A description cell reads back as the description when the description is non-empty and does not start with a quote. |
| Workflow.DescriptionCellQuirks | script.js:196 | An empty description exports as `""`, which reads back as one quote. A description starting with a quote opens with a `""` pair, which reads as a literal quote outside quotes. |
| Workflow.QuotedCell | script.js:192-195 | A quoted title, owner or time cell followed by a comma reads back as its text. |
| Workflow.ExportRowFields | script.js:190-198 | Under stated conditions, a row read back by `splitCsvRow` gives the step number and the five texts, trimmed. The title, owner and time cells, quoted without escaping, must hold no quote and not be empty. The type, the one unquoted text cell, must hold no quote or comma. The description must be non-empty and not start with a quote. |

## Left out

- The DOM: tab switching, drag-and-drop, node selection, editing and deletion, the canvas hint, the KPI cards, the summary HTML and the client table (`renderKpis`, `renderTable`). They are event wiring and rendering with nothing to prove.
- `FileReader`, the file inputs, `downloadFile` with `Blob` and object URLs: browser I/O. The models start from the text that was read and end with the text that would be downloaded.
- `runWorkflow` and `sleep`: an asynchronous animation over timers.
- `getOrderedNodes` and `getWorkflowData`: they read nodes back from the DOM and sort them by their pixel `top`. The export is modelled from the ordered step list onwards.
- The JSON and TXT exports: `JSON.stringify` and plain text for people to read, with no format to round-trip.
- `formatCurrency` and `toLocaleString`: locale formatting.
- `parseFloat` and `new Date(s)` are parameters, and `today` is a parameter in place of the clock.
- Portfolio.Normalize: an unparseable date reads as absent. In the source it is a truthy "Invalid Date" (script.js:418-420): stored as a client's `latestDueDate` when the client has none yet, it is never replaced, because `!agg.latestDueDate` is false and no date compares greater than it, so it blocks every later valid due date of that client. The model skips it and keeps the latest valid due date.
- Amounts are exact reals, not IEEE doubles. Aggregation.TotalPermutation: order independence holds for the model's real sums, while the source's floating-point sums can differ in the last digits when rows are reordered.
- Summary.OverduePct: rounds the exact ratio half up. The floating-point product in the source can fall on the other side of a .5 boundary.
- Classification.Assess: days overdue use exact integer division of milliseconds. The source's `Math.floor` of a double gives the same result for the date ranges that occur.
- Strings are sequences of characters, not UTF-16 code units. Workflow.ToLower and Workflow.Capitalize change ASCII letters only, not the full Unicode case mapping.
- Portfolio.MainCurrencyIsMode: takes `currencyCounts` keys in insertion order, with every currency an own key. A JavaScript object lists integer-like keys first, so a currency code such as "1" would be a different first key. A plain object also has inherited keys: for a currency named `constructor`, `currencyCounts[code] || 0` reads `Object`, so its count becomes a string, and a currency named `__proto__` is never stored as a key.
- Csv.ZipObject: a header named `__proto__` is dropped in the source: the `__proto__` setter ignores a string, so no key is created. The model stores it as an ordinary key.
- Workflow.NodeFor: gives lines without a type an empty type. Such lines never become nodes, because the callback returns first.
- `totalPaid` is tracked as in the source, but nothing reads it.
