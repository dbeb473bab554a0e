# Analysis record store — a verified Dafny model

This project models the record-keeping backend of a binary-analysis pipeline.
The backend stores scan sessions and the files examined in each scan. A file
and a scan are linked by an association row. Three analyzers attach their
results to an association: static signature detection, dynamic behavioural
detection and an LLM-based analyzer. The backend then serves detail views and
statistics.

The relational schema (`models.py`) becomes the datatype `Models.Database`.
It holds the six tables as sequences in storage order, plus one auto-increment
counter per table. `Models.Valid` states the schema's integrity constraints:

- primary keys are unique and were issued by their counter;
- there is at most one association per (File_id, Scan_id);
- every association references an existing file and scan;
- every result row references an existing association.

Enumerated columns are closed datatypes. Nullable columns are `Option` fields.

The state-changing routes of `main.py` are methods of the class
`Handlers.Store`. Its fields are the six tables and the counters, and
`State()` reads them as a `Database`. Each method either fails with `NotFound`
and changes nothing, or appends exactly the rows the route inserts. Three
submissions (static, dynamic and LLM analysis) also set the file's
`is_detected` flag. The read-only routes are functions and methods over a
`Database` value, in modules `Views` and `Statistics`. Module `Scenarios`
holds client code that drives the routes in sequence and checks their
expected outcomes from the contracts alone.

Files: `seqs.dfy` (selection and key helpers), `models.dfy`, `store.dfy`,
`views.dfy`, `statistics.dfy`, `scenarios.dfy`.

Two points about the code:

- Only the static, dynamic and LLM-analysis submissions set `is_detected`
  (main.py:50, 68, 101). The assembly, code and log submissions store their
  row and leave the file's flag alone (main.py:83-87, 116-120, 131-135).
- `create_file` builds the association from the new file's id before that id
  exists. The ORM relationship fills it in on insert, so the model links the
  freshly issued id.

## Model

| member | source | states |
|---|---|---|
| Models.Valid | models.py:25-126 | the schema's constraints: primary keys unique and issued by their counters, at most one association per (File_id, Scan_id), associations reference an existing file and scan, result rows reference an existing association, and hence an existing file and scan |
| Models.Empty | models.py:22-51 | the freshly created schema (empty tables, counters at 1) satisfies every key and foreign-key constraint |
| Models.MarkDetected | main.py:50 | the bulk update changes only the rows whose File_id matches, and only their flag, which becomes true; every other row is identical |
| Models.MarkDetectedMonotone | main.py:101 | marking keeps every file and its id in place and never clears a flag |
| Models.MarkDetectedValid | main.py:68 | marking a file as detected preserves every integrity constraint |
| Models.DeleteFileScan | models.py:56-58 | deleting an association removes it and exactly the static, dynamic and LLM rows of that pair; all other rows and every counter remain |
| Models.DeleteFile | models.py:31 | deleting a file removes it, its associations and every result row of that file; all other rows and every counter remain |
| Models.DeleteScan | models.py:40 | deleting a scan removes it, its associations and every result row of that scan; all other rows and every counter remain |
| Models.DeleteFileScanValid | models.py:74-80 | the store invariant holds after an association's cascade delete |
| Models.DeleteFileValid | models.py:46 | the store invariant holds after a file's cascade delete |
| Models.DeleteScanValid | models.py:47 | the store invariant holds after a scan's cascade delete |
| Models.ParseDetectionMethod | models.py:71 | the Detection_method column accepts exactly "text", "oid" and "parameter", and the parsed value names the input |
| Models.ParseSeverity | models.py:72 | the Severity column accepts exactly "high", "medium" and "low", and the parsed value names the input |
| Models.EnumNamesRoundTrip | schemas.py:40-48 | parsing the name of any enumerated value gives that value back |
| Seqs.AppendFresh | models.py:25 | an id taken from the auto-increment counter differs from every existing id, and the table's keys stay unique and below the incremented counter |
| Seqs.FilterKeysUnique | models.py:49-51 | deleting rows keeps a table's primary key unique |
| Handlers.Store.StartScan | main.py:14-20 | appends one scan whose id is fresh; nothing else changes |
| Handlers.Store.CreateFile | main.py:23-36 | NotFound exactly when the scan is missing, leaving the store unchanged; otherwise one new file with a fresh id and `is_detected` false, plus the association (new id, scan) |
| Handlers.Store.CreateStaticAnalysis | main.py:39-54 | NotFound exactly when the association is missing, even if the file and the scan exist, leaving the store unchanged; otherwise one static row with a fresh id is appended and only that file is marked detected |
| Handlers.Store.CreateDynamicAnalysis | main.py:57-72 | as for static results, on the dynamic table |
| Handlers.Store.CreateLlmResult | main.py:75-87 | NotFound exactly when the association is missing; otherwise one LLM row holding only the assembly text; files unchanged |
| Handlers.Store.CreateLlmAnalysis | main.py:90-105 | NotFound exactly when the association is missing; otherwise one LLM row holding only the analysis text, and only that file is marked detected |
| Handlers.Store.CreateLlmCode | main.py:108-120 | NotFound exactly when the association is missing; otherwise one LLM row holding only the code; files unchanged |
| Handlers.Store.CreateLlmLog | main.py:123-135 | NotFound exactly when the association is missing; otherwise one LLM row holding only the log; files unchanged |
| Views.SelectLlmColumn | main.py:140-142 | NotFound exactly when the pair has no LLM row; otherwise one value per row of the pair, in order, null columns included |
| Views.GetLlmAssembly | main.py:138-143 | NotFound exactly when the pair has no LLM row; the values are exactly the File_text columns of the pair's rows |
| Views.GetLlmCode | main.py:146-151 | NotFound exactly when the pair has no LLM row; the values are exactly the Code columns of the pair's rows |
| Views.GetLlmLog | main.py:154-159 | NotFound exactly when the pair has no LLM row; the values are exactly the Log columns of the pair's rows |
| Views.LlmGettersSelectSameRows | main.py:148-158 | the three getters fail together, and position i of each answer is a column of the same row |
| Views.FindFile | main.py:169-172 | finds a file with the id exactly when one exists |
| Views.PresentsFileCoversLinks | main.py:165-168 | a detail view lists exactly the scans the file is associated with |
| Views.PresentsFileShowsAnalysedOnly | main.py:175 | every LLM entry in a detail view has a non-null analysis, and every listed row belongs to the association it is listed under |
| Views.StripUnanalysed | main.py:174-175 | each association's LLM list becomes its analysed entries, in order; everything else is kept |
| Views.ReadFileDetails | main.py:163-177 | NotFound exactly when no file has the id; otherwise that file with each of its associations, full static and dynamic lists, and only analysed LLM entries |
| Views.ScanFiles | main.py:187-190 | the files associated with the scan, and no others |
| Views.ReadScanFiles | main.py:181-201 | NotFound exactly when the scan is missing (no files is a success); one view per associated file, each with all of that file's associations and only analysed LLM entries |
| Statistics.Names | main.py:212-213 | the distinct algorithm names of the rows, each once |
| Statistics.Groups | main.py:209-213 | one group per distinct algorithm name, names pairwise distinct, each with the positive number of rows carrying that name |
| Statistics.SortByCount | main.py:214-216 | a permutation of the groups (same multiset) by non-increasing count that keeps names distinct |
| Statistics.TopAlgorithms | main.py:209-216 | at most ten distinct names with their row counts, by non-increasing count; fewer than ten only when there are fewer names; no omitted name occurs more often than the last listed |
| Statistics.FilterDetectedCount | main.py:207 | the flag filter counts exactly the files whose `is_detected` is set |
| Statistics.GetScanStatistics | main.py:204-227 | total is the number of files, findings the number of detected files (at most the total), and the top list is a top-10 of all static rows |
| Statistics.StaticsInScan | main.py:252-253 | exactly the static rows whose Scan_id is the scan |
| Statistics.GetScanStatisticsByScanId | main.py:230-269 | NotFound exactly when the scan is missing; otherwise the files of the scan, those of them whose global flag is set (at most that number), and a top-10 over the scan's static rows only |

## Left out

- HTTP routing, dependency injection and status codes: every 404 is the `NotFound` result.
- Session mechanics (`add`, `commit`, `refresh`) and loading strategies: queries are plain functions over the tables. `create_all` and the `database` module are not part of this model.
- Transactions and concurrent requests: handlers run one after another on one store.
- The Scan_at server timestamp: it is a clock value, so `Scan` carries only its id.
- `String(n)` length limits, the 32-bit width of Integer ids and the 64-bit width of BIGINT: integers are unbounded, so counter overflow is not modelled.
- The commented-out binary upload and download endpoints (main.py:271-348): dead code.
- Request and response schemas. Required request fields that the columns allow to be null are not modelled, such as the static Offset. Response-model coercion is not modelled either. For example, a getter answer that contains a null value would not pass the `str` field of its response schema; the model returns such values as `None`.
- Tie order among equal counts in the top-10: the database leaves it unspecified. `Statistics.TopAlgorithms` fixes one order, a stable sort. `Statistics.IsTopAlgorithms` states only what holds for every order: non-increasing counts and the top-10 property.
- Statistics.GetScanStatisticsByScanId: the per-scan file count is the number of files that have an association with the scan. The SQL counts join rows; the two agree because each (File_id, Scan_id) pair is associated at most once.
- Ordering of related rows in the detail views: the ORM gives none, so the model uses storage order.
- Deletion routes: the source has none. The schema's cascade rules are modelled as functions on the store (`Models.DeleteFile`, `Models.DeleteScan`, `Models.DeleteFileScan`).
- Grouping of Algorithm_name: `Statistics.Groups` and `Statistics.CountOf` compare names by exact string equality. The GROUP BY runs under the MySQL server's collation, which the `database` module would fix and which is not part of this model. Under a default collation "AES" and "aes", or names differing only in trailing spaces, form one group; the model counts them as two.
- Id parameters are `nat`; the routes accept any `int` (main.py:24, 139, 164, 182, 231). Every issued id is at least 1, so a route given a non-positive id finds no row and answers 404. The model cannot be asked that question.
- `Key_length` (models.py:95) is a 32-bit Integer column; the model stores it as an unbounded `int`.
