# trello-sync pipeline, modelled in Dafny

trello-sync copies the cards of a Trello board into a Google spreadsheet and
then archives the cards that are done. It does this through a workflow engine
(openc) running a fixed pipeline of three tasks:

1. **Fetch Cards From Trello**: triggered by the `engine.started` event; calls
   `TrelloSVC.GetCards` with the app key, token and board id.
2. **Update Google Spreadsheet**: triggered once a record of the fetch task is
   `finished`, with any status. Its spec is computed from the run state: the
   output of the last fetch record is decoded into cards, each card becomes a
   row `{ID, Data[6]}`, and the JSON-encoded rows go to `GoogleSVC.Upsert`
   with the service account string and spreadsheet id.
3. **Archive sync cards**: triggered once a record of the upsert task is
   `finished` with the success status. It decodes the same fetch output and
   calls `TrelloSVC.ArchiveCard` with the comma-joined ids of the cards in the
   list `Done`.

The model is functional. Records, cards, rows, arguments and task specs are
immutable datatypes. The Go closures become tagged descriptors. A `Condition`
(`EngineStarted | TaskFinished | TaskFinishedWithStatus`) is evaluated by
`Holds`. A `SpecSource` (`Static | UpsertRows | ArchiveCards`) is evaluated by
`Produce`. The JSON library is a `Codec` value holding two opaque partial
functions, `decode` and `encode`. The clock is a `Clock` value holding the
reading of `time.Now()` taken for each card, the day-before step and the
date formatter.

Modules:
- `Results`: `Result` and `Option`.
- `Seqs`: the element-wise `Map` over sequences.
- `Text`: `strings.Join` and `fmt.Sprintf("%d", …)`, each with an inverse (`Split`, `ParseDecimal`) and a round-trip lemma.
- `Cards`: the card, row, codec and clock types, the row projection and the "Done" filter.
- `Conditions`: the run state, the three conditions and the fetch-output lookup.
- `Producers`: the three task specs.
- `Pipeline`: the configuration, `buildPipelineSpec` and properties of the assembled pipeline.

Points where the code behaves in ways a reader might not expect, all modelled
as written:
- The upsert trigger checks only that the fetch task is `finished`. It does
  not check its status (`UpsertIgnoresFetchStatus`).
- A missing fetch record is not a separate "input unavailable" outcome. The
  lookup yields `""`, and decoding that fails like any other malformed payload
  (`MissingFetchIsError`).
- The `ServiceAccount` argument is the configured string passed through as it
  is. No credential file is read or parsed.
- The URL cell of a row is the card's short URL.
- A non-integer short id in the fetched payload is not truncated: decoding fails, and both producers fail with that error.
- The archive ids are passed as one comma-joined string.

## Model

| member | source | states |
|---|---|---|
| Conditions.OnEngineStarted | pkg/sync/handler.go:157-161 | `conditionOnEngineStarted`; its meaning is stated by EngineStartedIgnoresState |
| Conditions.EngineStartedIgnoresState | pkg/sync/handler.go:157-161 | the start condition holds exactly when the event is named "engine.started", and two states never give different answers |
| Conditions.AnyFinished | pkg/sync/handler.go:163-172 | the scan is true iff some record has state "finished" and the given task name, whatever its status |
| Conditions.AnyFinishedWithStatus | pkg/sync/handler.go:174-183 | the scan is true iff some record has the given status, state "finished" and the given task name |
| Conditions.TaskFinishedMeaning | pkg/sync/handler.go:163-172 | the finished-task condition holds iff a finished record of the task exists, and is false on an empty record list |
| Conditions.WithStatusImpliesFinished | pkg/sync/handler.go:174-183 | whenever the finished-with-status condition holds, the finished condition for the same task holds too |
| Conditions.TaskConditionsIgnoreEvent | pkg/sync/handler.go:163-183 | the two task conditions give the same answer for every event |
| Conditions.ConditionsSurviveAppend | pkg/sync/handler.go:163-183 | appending records to the run state never turns a true condition false |
| Conditions.FetchOutput | pkg/sync/handler.go:217-222 | the fetch-output lookup as a backward last-match scan, characterised by FetchOutputIsLastMatch and equal to the source's forward loop by LookupFetchOutput |
| Conditions.FetchOutputIsLastMatch | pkg/sync/handler.go:217-222 | the lookup yields the output of the last record named "Fetch Cards From Trello", and "" when no record has that name |
| Conditions.FetchOutputStep | pkg/sync/handler.go:218-222 | scanning one more record replaces the output when that record is a fetch record and keeps it otherwise |
| Conditions.LookupFetchOutput | pkg/sync/handler.go:217-222 | the forward loop that overwrites on every fetch record computes the last-match lookup |
| Conditions.FetchOutputIgnoresOthers | pkg/sync/handler.go:274-279 | inserting a record of another task anywhere does not change the lookup |
| Text.DecimalRoundTrip | pkg/sync/handler.go:236 | the `%d` rendering of any integer, sign included, parses back to that integer |
| Text.DecimalParsesExactly | pkg/sync/handler.go:236 | a string parses as n exactly when it is the `%d` rendering of n: leading zeros and "-0" are rejected |
| Text.DecimalInjective | pkg/sync/handler.go:236 | different integers render as different strings |
| Text.SplitJoin | pkg/sync/handler.go:308 | joining at least one part with a one-character separator is undone by splitting on it, when no part contains it |
| Cards.Load | pkg/sync/handler.go:185-192 | `load`: the opaque decoder applied to the fetch output; its failure propagates as stated by UpsertSpec, ArchiveSpec and MissingFetchIsError |
| Cards.ProjectRow | pkg/sync/handler.go:235-245 | the row built for one card; its id and cells are stated by ProjectRowCells |
| Cards.ProjectRowCells | pkg/sync/handler.go:233-245 | a card's row has as id the `%d` rendering of its short id, which parses back to it, and exactly 6 cells: formatted last activity at 1, name at 2, short URL at 3, space-joined label names at 4, list name at 5 |
| Cards.ProjectRowsFrom | pkg/sync/handler.go:227-246 | the row loop yields one row per card in input order, the i-th built from the i-th card and the i-th clock reading |
| Cards.ProjectRows | pkg/sync/handler.go:227-246 | one row per card in order; the id is the `%d` rendering of the card's short id and parses back to it; 6 cells; cell 1 is the formatted last activity, 2 the name, 3 the short URL, 4 the space-joined label names, 5 the list name |
| Cards.RowIdsDistinguishCards | pkg/sync/handler.go:236 | two rows share an id iff their cards share a short id |
| Cards.LabelCellRecoversLabels | pkg/sync/handler.go:229-242 | a card without labels gets "" in the label cell; otherwise splitting the cell at spaces gives the label names in order, when no name contains a space |
| Cards.DoneCardIds | pkg/sync/handler.go:284-289 | an id is in the result iff some card in list "Done" has it; never more ids than cards |
| Cards.DoneCardIdsAppend | pkg/sync/handler.go:284-289 | the filter works card by card: the ids of a concatenation are the ids of the first part followed by the ids of the second, so input order is kept |
| Cards.DoneCardIdsSingle | pkg/sync/handler.go:286-287 | one card contributes its id iff its list is "Done" |
| Cards.ArchiveIdsRecoverable | pkg/sync/handler.go:306-308 | splitting the comma-joined archive ids gives the ids back, when there is at least one and none contains a comma |
| Producers.TrelloSyncSpec | pkg/sync/handler.go:194-213 | the fetch spec calls TrelloSVC.GetCards with the keys App, Token, Board in that order, holding the given values unchanged |
| Producers.UpsertSpec | pkg/sync/handler.go:215-270 | fails with the decoding error, or else the encoding error, when either step fails; succeeds when both succeed, and then calls GoogleSVC.Upsert with keys Rows, ServiceAccount, SpreadsheetID, where Rows is the encoding of the projected rows and the other two are the configured strings unchanged |
| Producers.ArchiveSpec | pkg/sync/handler.go:272-313 | succeeds iff decoding succeeds, otherwise fails with its error; calls TrelloSVC.ArchiveCard with keys App, Token, Board, CardIDs; the first three hold the configured strings, CardIDs is the comma-join of the ids of the "Done" cards |
| Producers.MissingFetchIsError | pkg/sync/handler.go:217-226 | with no fetch record, and a decoder that rejects "", both producers fail |
| Producers.ProducersIgnoreOtherRecords | pkg/sync/handler.go:217-222 | inserting a record of another task anywhere in the state changes neither producer's result |
| Producers.ProducersFailTogether | pkg/sync/handler.go:223-226 | if the upsert producer succeeds, the archive producer does too; if the archive producer fails, both fail with the same error |
| Pipeline.BuildPipelineSpec | pkg/sync/handler.go:94-141 | `buildPipelineSpec`; its shape is stated by PipelineIsChain, TasksCallDeclaredServices, TasksCarryConfiguration, OnlyFetchStartsTheRun and ArchiveWaitsForUpsertSuccess |
| Pipeline.PipelineIsChain | pkg/sync/handler.go:114-139 | three distinctly named tasks: fetch triggers on engine start, upsert on the fetch task finishing, archive on the upsert task finishing with success; the producers' lookup name is the fetch task's name |
| Pipeline.TasksCallDeclaredServices | pkg/sync/handler.go:94-139 | every spec any task produces names a declared service |
| Pipeline.TasksCarryConfiguration | pkg/sync/handler.go:121-137 | the fetch spec, and the archive spec when produced, carry the configured app key, token and board id; the upsert spec, when produced, carries the configured service account string and spreadsheet id |
| Pipeline.OnlyFetchStartsTheRun | pkg/sync/handler.go:114-139 | on an empty run state a task's trigger holds iff it is the fetch task and the event is "engine.started" |
| Pipeline.ArchiveWaitsForUpsertSuccess | pkg/sync/handler.go:131-137 | the archive trigger holds iff some upsert record finished with the success status |
| Pipeline.UpsertIgnoresFetchStatus | pkg/sync/handler.go:123-129 | a fetch record that finished with status "failed" still triggers the upsert task, though a success-status check would not hold |
| Pipeline.ShipItUpsert | pkg/sync/handler.go:215-246 | for one decoded card "Ship it" (short id 5, list Done, label bug), the upsert trigger holds and the rows are exactly one row with id "5" and cells name, "", "bug", "Done" after the two dates |
| Pipeline.ShipItArchive | pkg/sync/handler.go:272-310 | for the same card, once the upsert succeeded, the archive trigger holds and CardIDs is "c1" |

## Left out

- `Handle` and `build` (pkg/sync/handler.go:72-92): building the engine, reading the viper configuration and running the engine are I/O and a foreign engine. The configuration is the `Config` parameter of `BuildPipelineSpec`.
- cmd/root.go: generated command-line plumbing with no logic.
- The openc engine's scheduling, event delivery and state recording are not part of this model. Only the conditions and producers it calls are modelled.
- `encoding/json`: `json.Unmarshal` (in `load`) and `json.Marshal` of the rows are the opaque `Codec.decode` and `Codec.encode`. Nothing is assumed about them except, in `MissingFetchIsError`, that decoding "" fails. The decoder ignores unknown fields. A non-integer `idShort` (such as `5.5` or `5.0`) is a decode error, covered by `Codec.decode` returning `Err`.
- Codec.decode: yields only cards. `load` decodes into a slice of card pointers, so a payload such as `[null]` decodes without error into a nil card, and both producer loops then dereference it and the Go program panics. A panic crashes the process and is not an error return, so the model leaves it out: its decoder can return only real cards, and such a payload has no counterpart in the model.
- `time.Now`, `AddDate(0, 0, -1)` and `Format("02-01-2006 15:04:05")` are the opaque operations of `Clock`. Nothing is stated about the contents of the two date cells.
- Cards.ProjectRows: states nothing about the synced-at cell (cell 0), because its value comes only from the opaque clock. `ProjectRowsFrom` says which clock reading each row uses.
- The value of openc's `TaskStatusSuccess` is not part of this model. It is written as "success", and no property depends on it beyond differing from the status "failed" used in `UpsertIgnoresFetchStatus`.
- Go's `int` is 32 or 64 bits wide depending on the platform; `idShort` is an unbounded `int`. The decoder rejects out-of-range numbers, so no wrap-around can happen here.
- The card fields the handler never reads (position, badges, checklists, due dates, and the like) are left out. So is the unused `buildTask` helper. `buildTaskMetadata` only wraps the task name, which `TaskDef.name` holds directly.
- The `json.Marshal` error branch is modelled through `Codec.encode` returning an error. Marshalling rows of strings cannot fail in Go, but the model does not rely on that.
