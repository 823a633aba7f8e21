# ai-toolbox core, modelled in Dafny

ai-toolbox is a desktop control panel for a local Ollama model server, built with Tauri (a Rust back end and a Vue front end). Its network client is a thin layer of single `reqwest` calls, so the logic worth stating precisely sits in four small pieces. This project models those four:

- **Token-usage table** (`TokenStats`, `token_stats.dfy`). The `token_stats` table is a sequence of rows in insertion order. `record_tokens` appends one row. `get_aggregated_stats` is the query `SELECT date, SUM(prompt_tokens), SUM(completion_tokens) … GROUP BY date ORDER BY date ASC`. It is evaluated by folding the rows into a sorted list of groups (`AddRow`). It is specified independently by `IsAggregateOf`: strictly ascending dates, exactly the table's distinct dates, and each entry equal to its date's sums (`Totals`). `SortedGroupsUnique` shows that this specification fixes the answer. The query is a pure function of the table, so reading the statistics cannot change the table.
- **Text order** (`TextOrder`, `text_order.dfy`). Dates are SQLite `TEXT` compared under the default BINARY collation, which is `memcmp` of the UTF-8 bytes with a proper prefix sorting first. For Unicode scalar values, UTF-8 byte order is the same as code-point order, so `Less` is stated on `string`. It is proved irreflexive, asymmetric, transitive and total, and equal to the usual "first differing position" definition.
- **Toast queue** (`Toasts`, `toasts.dfy`). The state is the module-level `idCounter` plus the `toasts` list. `addToast` takes the next id, fills in the defaults, appends the toast, and starts a removal timer only for a positive duration. `removeToast` splices out the first toast with a given id (`findIndex`), or does nothing. `Valid` says ids sit below the counter and increase strictly along the list. Every reachable state is valid, and on valid states removal is the order-preserving filter `Without`.
- **Confirm dialog** (`ConfirmDialog`, `confirm_dialog.dfy`). This is the shared reactive `state`. Each Promise returned by `confirm` is named by the number of the `confirm` call that created it. The `resolve` slot holds the pending request. A button press yields the `Answer` it delivers: which request gets which boolean.
- **GPU report** (`GpuReport`, `gpu_report.dfy`). `get_gpu_info` starts from `GpuInfo::default()`. On Windows, after a successful PowerShell run whose output parses as JSON, it overwrites `name`, `total_mb` and `used_mb` field by field. `serde_json::Value` is modelled as a small `Json` datatype. The process run is an input (`ProcessOutput`). The command always returns `Ok`.

`Wrappers` (`wrappers.dfy`) holds the `Option` and `Result` types.

The Ollama network client has no logic of its own to model. `pull_model` sends `"stream": false` and ignores the response body (src-tauri/src/ollama.rs:92-99). `base_url` is a plain field fixed at construction (src-tauri/src/ollama.rs:34-46). See "Left out".

## Model

| member | source | states |
|---|---|---|
| `TokenStats.Record` | src-tauri/src/db.rs:41-46 | Inserting adds exactly one row at the end, holding the given date, counters and model name. Every existing row keeps its place and contents. |
| `TokenStats.Aggregate` | src-tauri/src/db.rs:50-70 | The query result is strictly ascending by date as text. Its dates are exactly the distinct dates of the table. Each entry's two counters are the sums over all rows of that date. |
| `TokenStats.AggregateUnique` | src-tauri/src/db.rs:51-55 | Any list with those three properties is the query's answer, so the query has one possible result. |
| `TokenStats.SortedGroupsUnique` | src-tauri/src/db.rs:52-55 | Two ascending group lists over the same dates, each entry holding its date's sums, are equal. |
| `TokenStats.AggregateOnePerDate` | src-tauri/src/db.rs:52-55 | A date has an entry if and only if some row carries it. No two entries share a date. |
| `TokenStats.AggregateEmptyIff` | src-tauri/src/db.rs:66-70 | The result is the empty list exactly when the table is empty. An empty table gives an empty list, not an error. |
| `TokenStats.RecordTwiceExample` | src-tauri/src/db.rs:41-55 | Recording `(d, 10, 5)` twice into an empty table, under any model names, aggregates to the single entry `{d, 20, 10}`. |
| `TokenStats.RecordThenAggregate` | src-tauri/src/db.rs:41-55 | After an insert, the set of dates gains the recorded date. That date's entry is its previous sums plus the recorded counters. Every other entry was already in the earlier result. |
| `TokenStats.AggregateOrderIndependent` | src-tauri/src/db.rs:52-54 | Reordering the rows (the same multiset) leaves the result unchanged: grouping does not depend on insertion order. |
| `TokenStats.AggregateBySums` | src-tauri/src/db.rs:52-54 | Two tables with the same dates and the same per-date sums have the same result. |
| `TokenStats.AggregateIgnoresModel` | src-tauri/src/db.rs:52-54 | Tables that differ only in `model_name` aggregate identically. The sums cover every model. |
| `TokenStats.TotalsPermutation` | src-tauri/src/db.rs:52-54 | A date's sums do not depend on the order of the rows. |
| `TextOrder.LessMatchesPosition` | src-tauri/src/db.rs:55 | The text order used for `ORDER BY date` means: a proper prefix first, else the smaller character at the first difference. |
| `TextOrder.Total` | src-tauri/src/db.rs:55 | Any two different dates are ordered one way or the other, so ascending order is always defined. |
| `TextOrder.Transitive` | src-tauri/src/db.rs:55 | The text order is transitive. |
| `Toasts.AddToast` | src/composables/useToast.js:14-32 | The counter goes up by one. The list grows by one toast at the end and earlier toasts are untouched. The new toast takes the old counter as its id. A missing type becomes `'info'` and a missing duration becomes `3000`. A removal timer for that id starts exactly when the duration is positive. |
| `Toasts.AddToastKeepsValid` | src/composables/useToast.js:4-25 | On a valid queue, the new id is larger than every id already listed, and the queue stays valid. |
| `Toasts.ValidIdsDistinct` | src/composables/useToast.js:15 | In a valid queue, no two toasts share an id. |
| `Toasts.FindIndex` | src/composables/useToast.js:35 | Returns -1 exactly when no toast has the id. Otherwise it returns the position of the first toast that has it. |
| `Toasts.RemoveToast` | src/composables/useToast.js:34-39 | The counter is unchanged. With no matching id the state is unchanged. With a match the list is one shorter. |
| `Toasts.RemoveIsFilter` | src/composables/useToast.js:34-39 | On a valid queue, removal equals dropping the toasts with that id and keeping the rest in order. |
| `Toasts.WithoutKeeps` | src/composables/useToast.js:35-37 | After the filter, a toast is present exactly when it was present before and has a different id. |
| `Toasts.RemoveKeepsValid` | src/composables/useToast.js:34-39 | Removal keeps the queue valid. |
| `Toasts.RemoveIdempotent` | src/composables/useToast.js:27-39 | On a valid queue, removing an id twice is the same as removing it once. Every reachable state is valid (`RunKeepsValid`), so a timer that fires after its toast was dismissed is harmless. |
| `Toasts.RunKeepsValid` | src/composables/useToast.js:3-39 | Any history of additions, dismissals and timer expiries keeps the queue valid. The counter never decreases. |
| `ConfirmDialog.OrDefault` | src/composables/useConfirm.js:18-21 | A non-empty option is used as given. An absent or empty option gives the fallback. |
| `ConfirmDialog.Confirm` | src/composables/useConfirm.js:17-27 | The dialog is shown. The title, message and the two button texts are the options when truthy, else `'Confirm Action'`, `'Are you sure?'`, `'Confirm'`, `'Cancel'`. A fresh request is parked as the resolver. |
| `ConfirmDialog.EmptyOptionFallsBack` | src/composables/useConfirm.js:18-19 | An empty-string title or message is replaced by its default. |
| `ConfirmDialog.Close` | src/composables/useConfirm.js:29-37 | A press hides the dialog and changes nothing else. It answers the parked request with the button's value, or answers nothing if no resolver is parked. |
| `ConfirmDialog.OnConfirm` | src/composables/useConfirm.js:29-32 | Hides the dialog and changes nothing else. When a resolver is parked it answers that request with `true`; otherwise it answers nothing. |
| `ConfirmDialog.OnCancel` | src/composables/useConfirm.js:34-37 | Hides the dialog and changes nothing else. When a resolver is parked it answers that request with `false`; otherwise it answers nothing. |
| `ConfirmDialog.ButtonsKeepTexts` | src/composables/useConfirm.js:29-37 | The buttons leave the four texts and the parked resolver as they were. |
| `ConfirmDialog.ConfirmThenAnswer` | src/composables/useConfirm.js:24-32 | A press right after `confirm` answers that `confirm`'s request. |
| `ConfirmDialog.SecondConfirmSupersedes` | src/composables/useConfirm.js:24-26 | A second `confirm` gets a different request, and the next press answers only that newer request. |
| `ConfirmDialog.NoResolverOnlyHides` | src/composables/useConfirm.js:3-10 | From the initial state, a press answers nothing and only hides the dialog. |
| `ConfirmDialog.SecondPressSameRequest` | src/composables/useConfirm.js:29-37 | The resolver is not cleared, so a second press answers the same request again. |
| `ConfirmDialog.ReplayAnswersNewest` | src/composables/useConfirm.js:17-37 | In any history of `confirm` calls and presses, each press answers the newest request opened so far, or the one parked at the start. Nothing else delivers an answer. |
| `GpuReport.Index` | src-tauri/src/commands/system.rs:39-47 | `v[key]` is the member of an object, or `Null` when the key is absent or `v` is not an object. |
| `GpuReport.ToMiB` | src-tauri/src/commands/system.rs:43 | `mb * 1048576 <= bytes < (mb + 1) * 1048576`. |
| `GpuReport.ToMiBIsOneDivision` | src-tauri/src/commands/system.rs:43 | Dividing by 1024 twice is the same as dividing by 1048576 once. |
| `GpuReport.FromReport` | src-tauri/src/commands/system.rs:38-50 | `name` is the `"Name"` string if there is one, else empty. `total_mb` is the whole MiB of a non-negative integer `"Total"`, else 0. `used_mb` is the MiB of the cast `"Used"` number, else 0. |
| `GpuReport.GetGpuInfo` | src-tauri/src/commands/system.rs:11-57 | Always `Ok`. The report is used only on Windows, after a successful exit, when the output parsed. Otherwise (another OS, a spawn failure, a failed exit, unparsable output) the result is the empty record `{"", 0, 0}`. |
| `GpuReport.NonObjectGivesDefault` | src-tauri/src/commands/system.rs:38-50 | A report that is not a JSON object yields the default record. |
| `GpuReport.NameIndependent` | src-tauri/src/commands/system.rs:39-41 | A missing or non-string `"Name"` changes nothing except `name`, which stays empty. |
| `GpuReport.TotalIndependent` | src-tauri/src/commands/system.rs:42-44 | A missing `"Total"`, or one that is not a non-negative integer, changes nothing except `total_mb`, which stays 0. |
| `GpuReport.UsedIndependent` | src-tauri/src/commands/system.rs:45-49 | A missing or non-number `"Used"` changes nothing except `used_mb`, which stays 0. |
| `GpuReport.UsedIntegerBranchUnreachable` | src-tauri/src/commands/system.rs:45-48 | Whenever `as_u64` would succeed, `as_f64` has already succeeded, so the integer fallback for `Used` never decides anything. |

## Left out

- The Ollama HTTP client (src-tauri/src/ollama.rs, src-tauri/src/commands/ollama.rs). Each operation is one `reqwest` request with a constant JSON body and serde decoding: network I/O with no logic of its own. There is no streaming decoder and no endpoint setter. `update_ollama_config` and `check_connection` (registered at src-tauri/src/lib.rs:38-39) are network commands and are not modelled.
- `init_db`, which sets up the filesystem and the SQLite connection, and the failure paths of `prepare`, `execute` and row reading, which are I/O errors.
- src-tauri/src/commands/db.rs, which only takes a `Mutex` lock around the `db.rs` functions (concurrency). `clear_database`, which `clear_all_data` calls, is not part of this model.
- `TokenStats.Aggregate`: the counters are unbounded integers. SQLite's `SUM` raises an integer-overflow error past the `i64` range, and that error is not modelled. `TokenStats.Record` likewise takes unbounded integers for the `i64` parameters.
- The PowerShell script, process spawning, `from_utf8_lossy` and JSON parsing. They are abstracted into the `ProcessOutput` input, whose standard output is already parsed or marked unparsable.
- `GpuReport.FromReport`: `used_mb` comes from `v["Used"].as_f64()` followed by `(used as u64) / 1024 / 1024` (src-tauri/src/commands/system.rs:45-46): a number-to-float conversion and a saturating float-to-integer cast. That cast is passed in as the abstract function `usedCast`, so the contract does not say how a float is truncated.
- `setTimeout` timing. Only the decision to schedule a removal, and the removal it later performs, are modelled (`Timer`, `Event.Remove`).
- JavaScript number semantics in useToast.js: fractional or non-numeric durations, ids that are not numbers, and `idCounter` growing past 2^53. Durations and ids are integers here. `Toasts.RemoveToast` removes only the first of two toasts that share an id. This case arises only outside `Valid`, which every reachable state satisfies.
- Promise mechanics in useConfirm.js. The model says which request is answered and with what value. That a settled Promise ignores later answers is not modelled.
- JavaScript truthiness for option values that are not strings (numbers, objects). Each option is a string or absent.
- `addToast()` and `addToast(null)` throw a `TypeError` while destructuring the argument, before `idCounter++` runs (src/composables/useToast.js:14). The model always receives an options record, so this error path is not represented.
- A missing `message` in `addToast`'s options stays `undefined` in the toast. `ToastOptions.message` is a string, so the model cannot express an absent message.
- `confirm(null)` throws a `TypeError`: the default `options = {}` replaces only `undefined` (src/composables/useConfirm.js:17-18). `ConfirmOptions` is always a record, so this error path is not represented.
- The `println!` of the spawn error on a PowerShell spawn failure (src-tauri/src/commands/system.rs:53) is console output. The model keeps only the result, which is the default record.
- src/store/models.js and src/store/settings.js (Pinia stores that forward to Tauri commands and write to the DOM and localStorage), src-tauri/src/lib.rs (application wiring) and eslint.config.js (tool configuration).
