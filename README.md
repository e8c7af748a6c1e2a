# Old-contracts client lookup and spreadsheet import, modelled in Dafny

The system keeps legacy "old contract" client records in a `clients` table
of a hosted datastore. Its FastAPI service (`app/api/main.py`) offers two
operations worth modelling, and its single-process Streamlit app
(`app_combined.py`) carries a second copy of the search:

- **search_client**: after a shared-password check, look up the rows whose
  `cpf` equals the search term; only when there are none, look up the rows
  whose `name` contains the term ignoring case (`ilike '%term%'`). The answer
  is one of the two result sets, never their union. The API turns a store
  exception into a 500; the Streamlit copy shows the error and answers with
  an empty list.
- **import_excel**: after the password check (which, as written, lets a
  request without a password through when `DEMO_PASSWORD` is unset; see
  "Findings"), read the uploaded spreadsheet
  (a 400 if it cannot be read), replace every missing cell by `0`, then for
  each row build a client record (trimmed `cpf`/`name`/`status`, a fixed
  `contract_details` key mapping, six columns coerced with `float()`) and
  insert it. A row that fails adds `Error in row <n>: <detail>` to the error
  list, with `n` the spreadsheet line (`index + 2`), and the loop goes on.
  The response always says `success = true`.

Files, one module each:

| file | module | models |
|---|---|---|
| `text.dfy` | `Text` | `str.strip()`, ASCII case folding, substring containment, `str(int)` |
| `records.dfy` | `Records` | cells, `contract_details`, the inserted record, the stored row |
| `access_gate.dfy` | `AccessGate` | the `DEMO_PASSWORD` comparison |
| `record_store.dfy` | `RecordStore` | the `clients` table, the two filters, failing queries |
| `api_search.dfy` | `ApiSearch` | `search_client` of the API |
| `combined_search.dfy` | `CombinedSearch` | `search_client` of the Streamlit app |
| `row_normalise.dfy` | `RowNormalise` | `fillna(0)` and building one row's record |
| `excel_import.dfy` | `ExcelImport` | the per-row loop and `import_excel` |

The store is a value: its rows plus the set of queries that raise, each
with its exception text. A search returns its outcome together with the
list of queries it issued, so "no query is made" and "the name query is
never issued" are statements about that list. The import's inserts are an
oracle, one answer per row (`Stored` or `Rejected(reason)`); the records
the store accepted come back as the method's `written` result. The row
loop is a `while` loop in `ExcelImport.ImportRows` proved against the
per-row specification `ExcelImport.Outcomes`.

Three consequences of the code worth stating:

- A value `float()` rejects in one of the six numeric columns makes the row
  fail (app/api/main.py:143-149, 161-164); it is not defaulted to `0.0`.
- The text keys of `contract_details` are not trimmed
  (app/api/main.py:139-152). Only `cpf`, `name` and `status` are.
- A blank cell in a present `CPF`, `Cliente` or `Status` column becomes the
  text `0`, because `fillna(0)` runs first (app/api/main.py:122). Only an
  absent column gives the empty text without trimming; a present cell
  holding only whitespace also trims to the empty text.

## Model

| member | source | states |
|---|---|---|
| `Text.Strip` | app/api/main.py:135-137 | the trimmed text is no longer than the input and starts and ends with a non-whitespace character |
| `Text.StripPadded` | app/api/main.py:135-137 | stripping removes exactly the surrounding whitespace: a core padded with whitespace strips back to the core |
| `Text.StripIdempotent` | app/api/main.py:135-137 | trimming an already trimmed field changes nothing |
| `Text.ContainsOccurs` | app/api/main.py:59-61 | the containment scan answers true exactly when the term occurs in the text at some position |
| `Text.EmptyTermMatchesEverything` | app/api/main.py:59-61 | the empty term is contained in every name |
| `Text.MatchIgnoresCase` | app/api/main.py:59-61 | folding the case of the name or of the term never changes whether the name matches |
| `Text.Decimal` | app/api/main.py:162 | the row number is rendered as decimal digits without leading zeros that read back as the number |
| `Text.ContainsIgnoringCase` | app/api/main.py:59-61 | the `ilike '%term%'` match holds exactly when the case-folded term occurs at some position of the case-folded name |
| `RecordStore.Matches` | app/api/main.py:53-61 | the `cpf` filter is exact, case-sensitive equality; the `name` filter holds exactly when the folded term occurs somewhere in the folded name |
| `RecordStore.Select` | app/api/main.py:53-61 | a filtered query returns no more rows than the table has |
| `RecordStore.SelectMembers` | app/api/main.py:53-61 | a filtered query holds exactly the table rows that pass the filter |
| `RecordStore.SelectAppend` | app/api/main.py:53-61 | filtering keeps table order: it distributes over concatenation |
| `RecordStore.SelectCounts` | app/api/main.py:53-61 | each matching row comes back as many times as it occurs in the table; non-matching rows never |
| `RecordStore.SelectEmpty` | app/api/main.py:57-64 | a query comes back empty exactly when no row passes its filter |
| `RecordStore.SelectEveryRow` | app/api/main.py:59-61 | a filter every row passes returns the whole table |
| `RecordStore.Execute` | app/api/main.py:53-61 | a query raises exactly when the store fails on it, with the store's text; otherwise it returns the matching rows |
| `AccessGate.MissingPasswordPassesUnsetSecret` | app/api/main.py:86-91 | with `DEMO_PASSWORD` unset, the check as written admits an import request that carries no password; the corrected check refuses it |
| `AccessGate.AdmitsOnlyTheConfiguredSecret` | app/api/main.py:87-91 | the corrected check admits exactly a present password equal to a configured secret |
| `AccessGate.ChecksAgreeOnPresentPassword` | app/api/main.py:45-49 | for a password that is present, as in every search request, the written and corrected checks agree |
| `ApiSearch.ToResponses` | app/api/main.py:67-77 | one response per store row, with the same six fields, in the same order |
| `ApiSearch.ToResponsesInjective` | app/api/main.py:67-77 | the response list determines the store rows it was built from |
| `ApiSearch.NameTier` | app/api/main.py:57-64 | the second tier issues the exact query and then the name query; it answers 500 exactly when the name query fails, and otherwise lists only rows whose name contains the term |
| `ApiSearch.SearchClient` | app/api/main.py:43-83 | a wrong password is exactly the 401 case and issues no query; otherwise the `cpf` query comes first; the name query is issued exactly when the `cpf` query returned no rows; a 500 carries a store exception's text; a list is all exact `cpf` hits or all name hits, never a mix |
| `ApiSearch.ExactMatchWins` | app/api/main.py:53-57 | when some row's `cpf` equals the term, the answer is exactly those rows in table order, whatever the names hold, and only the `cpf` query is issued |
| `ApiSearch.FallsBackToName` | app/api/main.py:57-77 | with no exact hit, the answer is the rows whose name contains the term ignoring case, in table order; it is `[]` when there are none |
| `ApiSearch.EmptyTermListsEveryRow` | app/api/main.py:57-61 | an empty term with no row whose `cpf` is empty lists the whole table |
| `CombinedSearch.ErrorBanner` | app_combined.py:63-65 | the message shown is the fixed `Error searching client: ` prefix followed by the exception text, unchanged |
| `CombinedSearch.SearchClient` | app_combined.py:44-65 | an unconfigured `demo_password` raises before the `try`, queries nothing and shows nothing; a wrong password is exactly the 401 case and issues no query; the `cpf` query is always first; the name query follows only an empty `cpf` result; an exception is shown and gives `[]`, never a failure or `None` |
| `CombinedSearch.AgreesWithApi` | app_combined.py:44-65 | the two copies issue the same queries and agree on refusals and on the rows listed; where the API answers 500 the app lists nothing and shows the exception text |
| `RowNormalise.FillNa` | app/api/main.py:121-122 | filling keeps the columns, leaves no missing cell, and keeps every present value |
| `RowNormalise.FillTable` | app/api/main.py:121-122 | the whole table is filled, row by row, before the loop |
| `RowNormalise.TopLevelText` | app/api/main.py:135-137 | an absent column or a missing cell gives `''`; a present value gives its trimmed text, which neither starts nor ends with whitespace |
| `RowNormalise.DetailText` | app/api/main.py:139-152 | an absent column gives `''`, a missing cell gives `nan`, and a present value gives its text untrimmed |
| `RowNormalise.CoercionError` | app/api/main.py:143-149 | the `ValueError` text of `float()`: a fixed prefix, then the rejected cell's rendering between single quotes |
| `RowNormalise.FirstUncoercible` | app/api/main.py:143-149 | finds the first numeric column, in evaluation order, whose cell `float()` rejects, or reports that there is none |
| `RowNormalise.NormaliseRow` | app/api/main.py:134-154 | a row builds a record exactly when all six numeric cells coerce; the error is the first rejected cell's message; `cpf`, `name` and `status` are the columns' trimmed texts |
| `RowNormalise.TopLevelTextAfterFill` | app/api/main.py:122-137 | after filling, an absent column gives the empty text, a blank cell of a present column gives `0`, and any other value gives its trimmed text |
| `RowNormalise.FilledRowFailsOnlyOnBadNumber` | app/api/main.py:122-149 | after filling, a row fails to build exactly when a present numeric column holds a value `float()` rejects; blanks and absent columns never make it fail |
| `RowNormalise.NameIsTrimmedCliente` | app/api/main.py:136-142 | the record's `name` is the trimmed form of the untrimmed `contract_details.cliente` |
| `ExcelImport.RowError` | app/api/main.py:161-162 | a row message is `Error in row `, then the decimal line number `index + 2`, then `: ` and the exception text unchanged |
| `ExcelImport.RowNumberRoundTrip` | app/api/main.py:162 | the line number read back from a row's message is `index + 2`, whatever the detail text holds |
| `ExcelImport.ProcessRow` | app/api/main.py:132-164 | a row fails exactly when its record cannot be built or its insert is rejected; an imported row carries its built record; a failed row's message names line `index + 2` and ends with the exception text: the first `float()` error when the record cannot be built, otherwise the store's rejection reason |
| `ExcelImport.Outcomes` | app/api/main.py:131-164 | every row gets exactly one outcome, which depends on its index, its cells and its insert and on no other row |
| `ExcelImport.FailedRows` | app/api/main.py:161-164 | lists exactly the failed rows, in strictly increasing order |
| `ExcelImport.Conservation` | app/api/main.py:128-170 | imported rows plus error messages account for every row exactly once |
| `ExcelImport.MessagesFollowFailedRows` | app/api/main.py:161-164 | there is one message per failed row, and the j-th message is the j-th failed row's |
| `ExcelImport.ErrorsNumberFailedRows` | app/api/main.py:131-164 | the messages name the lines of exactly the failed rows, one each, in strictly increasing order, and each carries its row's exception text |
| `ExcelImport.NoRowFailed` | app/api/main.py:128-170 | with no failed row there are no messages and every row's record is imported in order |
| `ExcelImport.OnlyOneRowFailed` | app/api/main.py:128-170 | with a single failed row, it alone is missing from the imports and it alone is reported |
| `ExcelImport.AllRowsImported` | app/api/main.py:128-170 | when every row builds and is stored, every row's record is imported in order and there are no errors |
| `ExcelImport.OneRejectedInsert` | app/api/main.py:156-164 | one rejected insert costs exactly that row: one message naming its line, and all other rows are imported |
| `ExcelImport.ImportRows` | app/api/main.py:128-170 | the loop reports `success`, writes exactly the accepted records in row order, counts them, and returns the messages of the failed rows in row order; imported plus errors equals the row count |
| `ExcelImport.ImportUpload` | app/api/main.py:93-177 | once admitted: an unreadable file gives 400 with its reason and writes nothing; otherwise the filled table goes through the loop, the response says `success`, counts the written records and lists the row messages |
| `ExcelImport.ImportExcelAsWritten` | app/api/main.py:85-189 | with the check as written, 401 and nothing written exactly when the optional password differs from the optional secret; an admitted request gets 400 for an unreadable file, and otherwise the loop's full response (`success`, the count of written records, the row messages); in particular, with no password and `DEMO_PASSWORD` unset, a readable file is imported and its rows are written |
| `ExcelImport.ImportExcel` | app/api/main.py:85-189 | with the corrected check: 401 and nothing written exactly when the password is absent, the secret is unset or they differ; otherwise as `ImportUpload` |

## Findings

| source | as written | input that shows it | evidently intended | confidence | as-written member | corrected member |
|---|---|---|---|---|---|---|
| app/api/main.py:86-91 | the import refuses a request only when the `password` query parameter differs from `DEMO_PASSWORD`; both are absent-able, and two absent values compare equal | `DEMO_PASSWORD` unset and no `password` parameter: the import runs and writes rows | an unset secret refuses every request | high (not executed) | `ExcelImport.ImportExcelAsWritten`, with its check `AccessGate.MissingPasswordPassesUnsetSecret` | `ExcelImport.ImportExcel`, with its check `AccessGate.AdmitsOnlyTheConfiguredSecret` |

The search endpoints are not affected: their password is always present, so
`AccessGate.ChecksAgreeOnPresentPassword` shows both checks agree there.

## Left out

- `get_all_clients` and `health_check` are not modelled. They only pass the password check and return the whole table or a constant.
- The Streamlit pages, forms, styling and `format_date` are not modelled. They are presentation, and `format_date` relies on a date parser that is not part of this model. The HTTP client wrappers and the upload script are not modelled either.
- Spreadsheet parsing is not modelled. An upload is either an already parsed table of rows (column name to cell) or the reason parsing failed. The temporary file and its removal are not modelled. A failure of `await file.read()` itself (app/api/main.py:95) happens outside the inner `try` and gets a 400 whose detail is the bare exception text, without the `Error processing file: ` prefix that `ExcelImport.ImportUpload` puts on every unreadable upload; that path is not modelled.
- Logging to the console and the error banner's rendering are not modelled. The banner's text is kept as a value.
- Floating-point values are not modelled. A coerced cell is recorded as the cell it came from, and whether `float()` accepts a cell is a flag on the cell.
- `RowNormalise.CoercionError` keeps the text of the error `float()` raises on a string but not Python's quoting of special characters. It also ignores that other cell types raise a differently worded `TypeError`.
- `RowNormalise.ZeroCell` renders as `0`. In a column pandas typed as floating point, the filled zero renders as `0.0` instead.
- `Text.IsWhitespace` covers the ASCII whitespace that `str.strip()` removes. Non-ASCII Unicode spaces are not covered.
- `Text.Lower` folds ASCII letters only. The store's locale-dependent folding of other letters is not covered.
- `RecordStore.Matches` treats the `ilike` term as plain text. The store would read `%`, `_` and `*` (an alias for `%`) inside the term as wildcards, and `\` as an escape character.
- `RecordStore.Select` keeps table order. The store's unordered `select` promises no row order, so the "in table order" of `ApiSearch.ExactMatchWins` and `ApiSearch.FallsBackToName` is an assumption about the store. So is the absence of a cap on the rows one select returns: a hosted store may return at most a configured maximum, in which case "lists the whole table" (`ApiSearch.EmptyTermListsEveryRow`) and "exactly those rows" (`ApiSearch.ExactMatchWins`) hold only for tables below that cap.
- `ExcelImport.ImportExcel` runs the corrected password check, which refuses every request while `DEMO_PASSWORD` is unset. The code as written admits a request without a password in that case; `ExcelImport.ImportExcelAsWritten` models that behaviour.
- A store row is assumed to hold five text fields and a `contract_details` object. A row with a missing or null field, which would make building the response raise and give a 500, is not modelled.
- Store inserts and queries are oracles: the rows they hold and the queries that fail are inputs, not effects.
- The rows of a table are assumed numbered from 0 in order, as `read_excel` numbers them.
- `RowNormalise.NormaliseRow` states the three top-level fields and the failure condition in its contract. The fourteen `contract_details` keys are fixed only by its body.
