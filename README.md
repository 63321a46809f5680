# GPS process discovery: a Dafny model of the dashboard's core

GPS process discovery is a web dashboard for process mining. A user uploads an event log
as CSV text: one row per event, with a case id, an activity and a timestamp. The dashboard
turns the log into a process graph. Its nodes are activities, and its links are the
transitions between consecutive activities of a case, weighted by how often each one
occurs. It also computes statistics and DORA figures.

This project models the parts of the dashboard that decide what it computes and shows:

- **`DataProcessor`**: the CSV parser and dataset builder `parseCSVToDataset`. It has two
  forms:
  - `DatasetOf`, which composes one function per stage: the text and header checks, the
    row filter, the stable sort by time, the grouping by case, and the node, link and
    statistics assembly.
  - `ParseCsvToDataset`, an imperative method with the original's sort over an array and
    its accumulating loops over the events and the cases. It is proved to return exactly
    `DatasetOf`.
- **`ParserProperties`** and **`SummaryProperties`**: what the parser promises, proved as
  lemmas about those functions.
- **`Validators`**: `validateDataset`. It is an imperative method, proved against the
  list of errors the checks report in order. Lemmas say when each error appears, and that
  a dataset built by the parser passes the link checks.
- **`ProcessGraph`**: the selection the graph view draws (`filteredData`) and the rule
  for marking a link as critical.
- **`QAView`**: the QA command centre. It holds the fixed acceptance scenarios, the
  health status of each priority stage and the scenario on display. It also holds the
  Gherkin editor: a class whose methods are the view's event handlers and effects.
- **`Onboarding`**: the guided tour. The tour walks its steps with "next" and "previous".
  It places its card beside the targeted element, flipped away from the window edge and
  clamped to a safe area.
- **`Collaborators`**: the invitation form of the team panel.
- Supporting modules:
  - `JsText`: the JavaScript string operations the code uses.
  - `Sequences`: insertion-ordered `Set`/`Map` contents, counting, and a stable sort with
    its in-place array form.
  - `ProcessTypes`: the dataset records.
  - `Wrappers`: `Option` and `Result`.

## How external inputs are modelled

- **Timestamps** are integers, in milliseconds.
- **`new Date(text)`** is a parameter `parseDate: string -> Option<int>`. It returns
  `None` for an invalid date.
- **The element lookup** (`document.getElementById(...).getBoundingClientRect()`) is a
  parameter `elementRect`, and **the window size** is also a parameter.
- **The random member id** is a parameter.
- **Whether Supabase stored the feedback** is the `stored` argument of
  `QAEditor.FinishSave`.
- **Notifications and `onClose` calls** are recorded in the state:
  - the calls of `onNotify` are the list `Team.notices`;
  - the calls of `onClose` are the counter `Tour.closeRequests`.
- **Timers**: the 1-second invitation delay and the 3-second reset timer are explicit
  steps: `Team.CompleteInvite` and `QAEditor.ResetTimerFires`.
- **The simplification slider** value is an integer percentage (85 for the initial 0.85).

## Where the code departs from the usual definitions (the model follows the code)

- **Median.** The code sorts the case durations and takes the element at index
  `floor(n / 2)`. It does not average the two middle values when the count is even
  (`SummaryProperties.MedianPosition`).
- **Single-event cases.** A case with one event is not excluded from the durations. It
  contributes a duration of 0 to the total and to the median.
- **Time span end.** `stats.end` is the timestamp of the last event of the time-sorted log,
  not the end of the last case in case order (`SummaryProperties.TimeSpan`). For a log
  whose case A has events at 00:00 and 02:00 and whose case B has one event at 01:00,
  `stats.end` is 02:00.

## Model

| member | source | states |
|---|---|---|
| DataProcessor.LocateColumns | utils/dataProcessor.ts:16-23 | the columns are found exactly when "Case ID", "Activity" and "Timestamp" all occur; each index holds its name, and it is the first occurrence of that name |
| DataProcessor.RowEvent | utils/dataProcessor.ts:25-35 | a row becomes an event exactly when its case-id and activity fields are present and not blank and its timestamp field parses; the event holds the trimmed fields, the parsed time and the line number |
| DataProcessor.Kept | utils/dataProcessor.ts:35 | the filter keeps no more events than there are rows |
| DataProcessor.KeptOrigin | utils/dataProcessor.ts:33-35 | every kept event is the outcome of the row its line number names |
| DataProcessor.KeptOrder | utils/dataProcessor.ts:33-35 | the kept events are in strictly increasing line order |
| DataProcessor.KeptComplete | utils/dataProcessor.ts:35 | every accepted outcome is kept |
| DataProcessor.RowsNumbered | utils/dataProcessor.ts:25-34 | every row's event carries that row's 1-based line number |
| DataProcessor.RetainedOrigin | utils/dataProcessor.ts:25-35 | each retained event is exactly the event of the row its line number names |
| DataProcessor.RetainedComplete | utils/dataProcessor.ts:25-35 | no accepted row is lost by the filter |
| DataProcessor.RetainedEventsFaithful | utils/dataProcessor.ts:25-35 | the filter is faithful: it keeps exactly the accepted rows' events, in row order, each traceable to its row |
| DataProcessor.CaseEvents | utils/dataProcessor.ts:43-50 | a case's list holds only events of that case, and no more than the log has |
| DataProcessor.CaseEventsMembers | utils/dataProcessor.ts:46-48 | a case's list holds exactly the log's events with that case id |
| DataProcessor.CaseEventsSnoc | utils/dataProcessor.ts:46-48 | pushing an event extends only its own case's list |
| DataProcessor.CaseEventsNonEmpty | utils/dataProcessor.ts:47-48 | a case id that occurs has at least one event |
| DataProcessor.CaseEventsAbsent | utils/dataProcessor.ts:47 | a case id that does not occur has no events |
| DataProcessor.Cases | utils/dataProcessor.ts:43-50 | one non-empty list per distinct case id, in `casesMap` order (first appearance), holding that case's events |
| DataProcessor.CaseKeys | utils/dataProcessor.ts:74-79 | a case of `n` events yields `n - 1` transition keys (none for an empty case) |
| DataProcessor.TransitionKeysSnoc | utils/dataProcessor.ts:62-79 | the keys of a further case are appended after those already counted |
| DataProcessor.FailureCount | utils/dataProcessor.ts:69-72 | the failed cases number at most the cases |
| DataProcessor.FailureCountSnoc | utils/dataProcessor.ts:69-72 | a further case adds one failure exactly when its last activity mentions a failure |
| DataProcessor.ValidatedEvents | utils/dataProcessor.ts:5-39 | when every check passes, the retained events are non-empty |
| DataProcessor.CaseOrderSnoc | utils/dataProcessor.ts:47 | a new case id is appended to the key order of `casesMap`, and a known one changes nothing |
| DataProcessor.ActivitiesSnoc | utils/dataProcessor.ts:49 | `activitySet.add` appends an activity only when it is new |
| DataProcessor.GroupStepFacts | utils/dataProcessor.ts:46-50 | one grouping step changes the case order, the activity order and each case's list as pushing the event requires |
| DataProcessor.GroupNewCase | utils/dataProcessor.ts:47-49 | the first event of a case opens a one-event list and keeps the grouping invariant |
| DataProcessor.GroupKnownCase | utils/dataProcessor.ts:48-49 | an event of a known case is pushed onto its list and keeps the grouping invariant |
| DataProcessor.GroupEvents | utils/dataProcessor.ts:43-50 | the `forEach` leaves the case ids in first-appearance order, each mapped to exactly its case's events, and the activities in first-appearance order |
| DataProcessor.CountKey | utils/dataProcessor.ts:78 | the counting map, with one more key counted, still tallies every key counted, in insertion order |
| DataProcessor.CountCaseTransitions | utils/dataProcessor.ts:74-79 | after the inner loop, the map tallies the keys counted before plus the case's own transition keys |
| DataProcessor.DurationsSnoc | utils/dataProcessor.ts:62-66 | a further case appends its duration |
| DataProcessor.ScanCase | utils/dataProcessor.ts:62-80 | one `forEach` round extends the durations, the total, the failures and the link tallies by that case |
| DataProcessor.ScanFigures | utils/dataProcessor.ts:63-72 | the duration list, its total and the failure count after one more case |
| DataProcessor.ScanCases | utils/dataProcessor.ts:57-80 | after all cases: the durations in case order, their sum, the failure count, and a map tallying every transition key |
| DataProcessor.TalliedLinks | utils/dataProcessor.ts:82-85 | `EntryLinks`: the links read from a map that tallies the keys are exactly `LinksOf` of those keys: one per distinct key, in first-appearance order, weighted by its count |
| DataProcessor.MedianOf | utils/dataProcessor.ts:88-89 | the element at index `floor(n / 2)` of the durations sorted ascending |
| DataProcessor.BuildDataset | utils/dataProcessor.ts:43-123 | grouping, scanning and assembly produce exactly the dataset `Summarize` describes |
| DataProcessor.GroupedCases | utils/dataProcessor.ts:43-62 | the grouped map holds, in key order, the per-case lists `Cases` |
| DataProcessor.ParseCsvToDataset | utils/dataProcessor.ts:4-139 | `parseCSVToDataset` throws the error, or returns the dataset, that `DatasetOf` states |
| DataProcessor.ReadEvents | utils/dataProcessor.ts:5-39 | the checks and the row filter give exactly `ValidatedEvents`: the first failing check's error, or the retained events |
| ParserProperties.KeptEmpty | utils/dataProcessor.ts:35 | the filter keeps nothing exactly when no row was accepted |
| ParserProperties.RetainedEmpty | utils/dataProcessor.ts:25-35 | no event is retained exactly when no data row passes the filter |
| ParserProperties.EarlyErrors | utils/dataProcessor.ts:5-23 | the empty-file, missing-rows and missing-columns errors come only from the text and header checks |
| ParserProperties.EmptyFileError | utils/dataProcessor.ts:5-7 | 'El archivo CSV está vacío.' is thrown exactly for an empty or all-whitespace text |
| ParserProperties.MissingDataRowsError | utils/dataProcessor.ts:9-12 | the missing-rows error is thrown exactly for a non-blank text whose trimmed form has no line break |
| ParserProperties.MissingColumnsError | utils/dataProcessor.ts:14-23 | the missing-columns error is thrown exactly when there is a data line but the trimmed header names lack one of the three required columns |
| ParserProperties.CheckedLinesOk | utils/dataProcessor.ts:5-23 | `CheckedLines`: the text and header checks pass exactly for a non-blank text with a data line and a complete header; then the rows are the lines after the header |
| ParserProperties.LinesCount | utils/dataProcessor.ts:9-10 | the trimmed text has at least two lines exactly when it contains a line break |
| ParserProperties.HeaderCheck | utils/dataProcessor.ts:16-21 | `HeaderCells` and `LocateColumns`: the columns are located exactly when the trimmed header cells name all three |
| ParserProperties.NoEventsAfterChecks | utils/dataProcessor.ts:25-39 | the no-events error follows passing text and header checks exactly when no data row is accepted |
| ParserProperties.NoValidEventsError | utils/dataProcessor.ts:25-39 | 'No se encontraron eventos válidos.' is thrown exactly when the text has data lines and a complete header but every row lacks a case id or an activity, or has an invalid date |
| ParserProperties.DatasetErrors | utils/dataProcessor.ts:4-41 | `DatasetOf`: parsing fails exactly when a check before the sort fails, and with that check's error |
| ParserProperties.TimeOrder | utils/dataProcessor.ts:41 | the sort by timestamp gives a time-ordered permutation of the events, stable among equal timestamps |
| ParserProperties.DatasetOfSuccess | utils/dataProcessor.ts:36-41 | `DatasetOf`: a successful parse is the summary of the retained events after a stable sort by timestamp (same events, time order, ties in file order) |
| ParserProperties.CaseEventsCount | utils/dataProcessor.ts:46-48 | a case has as many events as its id occurs in the log |
| ParserProperties.CaseIdColumnSnoc | utils/dataProcessor.ts:46 | the case-id column of a longer log extends by the last event's id |
| ParserProperties.CaseSizes | utils/dataProcessor.ts:43-50 | the sizes of the case lists over a list of ids add up to those ids' occurrence counts |
| ParserProperties.CasesTotal | utils/dataProcessor.ts:43-50 | the per-case lists together hold exactly as many events as the log |
| ParserProperties.CasesOwnId | utils/dataProcessor.ts:47-48 | every event of the `k`-th case list has the `k`-th case id |
| ParserProperties.EventInItsCase | utils/dataProcessor.ts:46-48 | every event lies in the list of its own case |
| ParserProperties.CaseEventsSorted | utils/dataProcessor.ts:41-48 | a case's events, taken from the time-ordered log, are in time order |
| ParserProperties.DurationsNonNegative | utils/dataProcessor.ts:62-67 | with the events in time order, every case duration, the total and the median are non-negative |
| ParserProperties.NonNegativeSum | utils/dataProcessor.ts:66 | a total of non-negative durations is non-negative |
| SummaryProperties.CaseFigures | utils/dataProcessor.ts:115-123 | `Summarize`, `StatsOf` and `DoraOf`: `events` is the number of events; `cases` is the number of distinct case ids, from 1 to the events; the ROI is 25 per case; the failures are at most the cases; the frequency label follows the 10 and 20 thresholds |
| SummaryProperties.FrequencyLevels | utils/dataProcessor.ts:91 | `FrequencyOf` and `DoraOf`: 'Alta' exactly above 20 cases, 'Media' exactly from 11 to 20, 'Baja' exactly up to 10; more cases never give a lower label |
| SummaryProperties.FailureIgnoresCase | utils/dataProcessor.ts:69-70 | `IsFailureActivity`: the failure test ignores ASCII case, and an activity mentioning "rechazo", "error" or "falla" in lower case is a failure |
| SummaryProperties.MedianPosition | utils/dataProcessor.ts:87-89 | `StatsOf` and `Durations`: the median is one of the case durations, the one at index `floor(n / 2)` of an ascending permutation of them |
| SummaryProperties.ActivityList | utils/dataProcessor.ts:44-55 | `NodesOf` of the activities: the node ids are the log's activities, each exactly once |
| SummaryProperties.ActivityNodes | utils/dataProcessor.ts:52-55 | `Summarize`: the nodes are the activities of the log, each once, and `stats.activities` is their number |
| SummaryProperties.SortedBounds | utils/dataProcessor.ts:41 | in a time-ordered log the first and last events bound every timestamp |
| SummaryProperties.TimeSpan | utils/dataProcessor.ts:119-120 | `StatsOf`: `start` and `end` are the earliest and the latest timestamp of the time-ordered events |
| SummaryProperties.SortedSpan | utils/dataProcessor.ts:41 | after the sort, `start` and `end` bound every event's timestamp and are attained |
| SummaryProperties.DatasetTimeSpan | utils/dataProcessor.ts:4-139 | for a successful parse, `start` and `end` bound the timestamps of every retained event |
| SummaryProperties.WeightPrefix | utils/dataProcessor.ts:82-85 | the first `n` links weigh as much as the counts of the first `n` distinct keys |
| SummaryProperties.LinksWeight | utils/dataProcessor.ts:74-85 | `LinksOf`: the link weights add up to the number of transitions counted |
| SummaryProperties.TransitionCount | utils/dataProcessor.ts:74-79 | `TransitionKeys`: non-empty cases yield one transition fewer per case than they have events |
| SummaryProperties.LinkWeights | utils/dataProcessor.ts:57-85 | `Summarize`: every link weight is positive, and the weights add up to the events minus the cases |
| SummaryProperties.KeyHasArrow | utils/dataProcessor.ts:77-83 | `LinkKey` and `DecodeKey`: a transition key contains "->", so its split has a second piece |
| SummaryProperties.KeyRoundTrip | utils/dataProcessor.ts:77-83 | `DecodeKey` inverts `LinkKey`: decoding a key gives back its two activities when neither contains "->" |
| SummaryProperties.ArrowInActivity | utils/dataProcessor.ts:77-83 | an activity containing "->" is cut: the link from "a->b" to "c" decodes as from "a" to "b" |
| SummaryProperties.KeyOrigin | utils/dataProcessor.ts:74-79 | `TransitionKeys`: every counted key joins the activities of two consecutive events of one case |
| SummaryProperties.CaseLinkEndpoints | utils/dataProcessor.ts:74-85 | when no activity contains "->", every link joins two consecutive activities of some case |
| SummaryProperties.LinkEndpoints | utils/dataProcessor.ts:52-85 | when no activity contains "->", every link joins two activities of the log, which are therefore node ids |
| SummaryProperties.LinksUnique | utils/dataProcessor.ts:74-85 | `LinksOf` of the transition keys: when no activity contains "->", no two links join the same source and target |
| SummaryProperties.NameStripsExtension | utils/dataProcessor.ts:110 | `DatasetName`: the dataset name drops a ".csv" extension, and a name without ".csv" is kept |
| Validators.ValidateDataset | utils/validators.ts:13-49 | the errors are exactly the failing checks in their order, and `valid` holds exactly when there are none |
| Validators.CheckShape | utils/validators.ts:16-26 | the name, node-count and link checks, each reporting its error when it fails |
| Validators.CheckLink | utils/validators.ts:30-36 | one link reports a missing source, then a missing target |
| Validators.CheckNumbers | utils/validators.ts:40-43 | the case-count and efficiency checks report their errors when they fail |
| Validators.OrphanErrorsSnoc | utils/validators.ts:30-37 | the loop's errors for one more link are appended after those before it |
| Validators.OrphansEmpty | utils/validators.ts:29-37 | the link loop reports nothing exactly when every endpoint is a node id |
| Validators.ValidExactly | utils/validators.ts:13-49 | `ExpectedErrors`: `valid` holds exactly for a dataset with a name of 3 or more characters, 2 or more nodes, a link, only resolving endpoints, a positive case count and an efficiency in [0, 100] |
| Validators.OrphanBound | utils/validators.ts:30-37 | each link adds at most two errors |
| Validators.ErrorBound | utils/validators.ts:13-49 | there are at most five errors plus two per link |
| Validators.OrphanReports | utils/validators.ts:30-37 | a missing source, or target, is reported exactly when some link has it and it is not a node id |
| Validators.OutsideLoop | utils/validators.ts:16-43 | an error other than an orphaned endpoint comes from the checks outside the loop |
| Validators.ShapeMembers | utils/validators.ts:16-26 | what the checks before the loop can report, and when |
| Validators.NumericMembers | utils/validators.ts:40-43 | what the checks after the loop can report, and when |
| Validators.ReportedExactly | utils/validators.ts:16-43 | every error other than an orphaned endpoint is reported exactly when its check fails |
| Validators.ShapeReports | utils/validators.ts:16-26 | the short-name, too-few-nodes and no-links errors are reported exactly when their conditions hold |
| Validators.NumericReports | utils/validators.ts:40-43 | the no-cases and efficiency errors are reported exactly when their conditions hold |
| Validators.ParsedLinksResolve | utils/validators.ts:29-37 | for a dataset built by the parser from activities without "->", every link endpoint is a node id |
| Validators.ParsedLinksPresent | utils/validators.ts:24-26 | a parsed dataset has a link exactly when it has more events than cases, that is, when some case has two or more events |
| Validators.ParsedDatasetValidity | utils/validators.ts:13-49 | a parsed dataset from activities without "->" is valid exactly when its name has 3 or more characters, it has 2 or more activities, and there are more events than cases |
| ProcessGraph.CeilDiv | components/ProcessGraph.tsx:41 | `Math.ceil` of a quotient by a positive divisor: the least integer at or above it |
| ProcessGraph.MaxWeight | components/ProcessGraph.tsx:108 | the largest weight is never 0 (so the criticality ratio is defined), and it is 1 when there are no links |
| ProcessGraph.LargestWeight | components/ProcessGraph.tsx:108 | an upper bound of all link weights that some link attains |
| ProcessGraph.NoLinksView | components/ProcessGraph.tsx:39 | `FilteredData`: with no links the view shows every node, unranked, and no link |
| ProcessGraph.LimitBounds | components/ProcessGraph.tsx:41 | `Limit`: for a slider in (0, 100] the limit is between 1 and the link count, and all links at 100 |
| ProcessGraph.FullSetting | components/ProcessGraph.tsx:40-42 | at the full setting the view keeps exactly the dataset's links |
| ProcessGraph.LimitMonotone | components/ProcessGraph.tsx:41 | `Limit`: a larger share never keeps fewer links |
| ProcessGraph.ActiveLinksPrefix | components/ProcessGraph.tsx:40-42 | `ActiveLinks`: the links kept at a smaller share are a prefix of those kept at a larger one |
| ProcessGraph.ActiveLinksHeaviest | components/ProcessGraph.tsx:40-42 | `ActiveLinks`: the kept links are in non-increasing weight order, none dropped is heavier than one kept, and all are dataset links |
| ProcessGraph.FilteredLinks | components/ProcessGraph.tsx:39-42 | `FilteredData`: with links, the view keeps from one link to all of them, heaviest first, only dataset links, and every dataset link heavier than a kept one |
| ProcessGraph.KeepNodesMembers | components/ProcessGraph.tsx:51 | `KeepNodes`: a node is kept exactly when it is a dataset node with a used id |
| ProcessGraph.KeepNodesPrefix | components/ProcessGraph.tsx:51 | `KeepNodes`: the filter keeps the dataset's node order |
| ProcessGraph.ViewNodes | components/ProcessGraph.tsx:43-55 | `FilteredData` and `UsedIds`: with links, the view holds exactly the nodes that touch a kept link or are the first or last node, each ranked by its position |
| ProcessGraph.AnchorsKept | components/ProcessGraph.tsx:45-48 | `UsedIds`: with links, the first and the last node are always shown |
| ProcessGraph.HeaviestIsCritical | components/ProcessGraph.tsx:215 | `IsCritical`: the heaviest link is critical when weights are positive, and every critical link has a positive weight |
| QAView.FindId | components/QA/QAView.tsx:155 | the index of the first scenario with the id, or -1 exactly when none has it |
| QAView.GroupMembers | components/QA/QAView.tsx:179 | a stage's group holds exactly the scenarios of that priority |
| QAView.SomeHasExactly | components/QA/QAView.tsx:180 | `some` holds exactly when a scenario of the group has the status |
| QAView.EveryHasExactly | components/QA/QAView.tsx:181 | `every` holds exactly when all scenarios of the group have the status |
| QAView.PriorityStatusMeaning | components/QA/QAView.tsx:178-183 | `PriorityStatus`: a stage is broken exactly when one of its scenarios fails, stable exactly when all pass (so an empty stage is stable), and pending exactly when none fails and one is pending |
| QAView.StagesOfShape | components/QA/QAView.tsx:178-183 | two passing P0 scenarios and two failing P1 scenarios make P0 stable, P1 broken and the empty P2 stable |
| QAView.FixtureStages | components/QA/QAView.tsx:22-145 | `Scenarios`: with the shipped scenarios, P0 is stable, P1 broken and P2 stable |
| QAView.ActiveScenarioMeaning | components/QA/QAView.tsx:155 | `ActiveScenario`: the scenario shown is the first with the selected id, or the first scenario when none has it |
| QAView.SelectionOfDistinct | components/QA/QAView.tsx:155 | with distinct ids, selecting a scenario's id shows that very scenario |
| QAView.FixtureIdsDistinct | components/QA/QAView.tsx:22-145 | `Scenarios`: the shipped scenarios' ids are distinct |
| QAView.QAEditor.constructor | components/QA/QAView.tsx:148-160 | the first scenario is selected, its Gherkin text loaded by the mount effect, editing off, idle, logic tab |
| QAView.QAEditor.Select | components/QA/QAView.tsx:155-160 | clicking a new scenario loads its Gherkin text and closes the editor; clicking the selected one changes nothing |
| QAView.QAEditor.ToggleEditing | components/QA/QAView.tsx:306 | the edit button flips editing, and nothing else changes |
| QAView.QAEditor.SelectTab | components/QA/QAView.tsx:290 | a tab click switches the tab and closes the editor |
| QAView.QAEditor.EditText | components/QA/QAView.tsx:314 | typing replaces the editor text, and nothing else changes |
| QAView.QAEditor.StartSave | components/QA/QAView.tsx:162-165 | a blank text is ignored; otherwise saving starts and the feedback for the scenario on display, with the text, is what gets stored |
| QAView.QAEditor.FinishSave | components/QA/QAView.tsx:166-175 | saving stops; the status shows success or error; a success starts a reset timer |
| QAView.QAEditor.ResetTimerFires | components/QA/QAView.tsx:169-172 | the reset timer sets the status back to idle and closes the editor |
| QAView.SaveCycle | components/QA/QAView.tsx:162-176 | a successful save whose timer fires sends the text for the scenario on display and ends idle, not saving, with the editor closed |
| Onboarding.ClampBounds | components/Onboarding/Onboarding.tsx:118-119 | `Clamp`: the clamp never goes below its lower bound, stays under an ordered upper bound, and leaves values in range alone |
| Onboarding.CenteredExactly | components/Onboarding/Onboarding.tsx:83-86 | `CardPlacement`: the card is centred exactly when there is no target rectangle or the step is centred |
| Onboarding.PlacedInsideWindow | components/Onboarding/Onboarding.tsx:87-121 | `CardPlacement`: in a window of at least 500 by 400 px, a placed card lies 80 px from the top and 40 px from the other edges |
| Onboarding.BottomFlip | components/Onboarding/Onboarding.tsx:92-98 | `RawCorner`: below the target when it fits, otherwise above it, 24 px away, horizontally centred on it |
| Onboarding.RightFlip | components/Onboarding/Onboarding.tsx:104-110 | `RawCorner`: right of the target when it fits, otherwise left of it, 24 px away, vertically centred on it |
| Onboarding.LeftAndTop | components/Onboarding/Onboarding.tsx:99-114 | `RawCorner`: a left card ends 24 px short of the target and is vertically centred on it; a top card starts 40 px below the target's top, horizontally centred |
| Onboarding.StepTargets | components/Onboarding/Onboarding.tsx:12-54 | `Steps`: the first step has no target, so its card is centred; every other step has a target and a side |
| Onboarding.Tour.constructor | components/Onboarding/Onboarding.tsx:61-64 | the tour starts at the first step with no target found and no card style |
| Onboarding.Tour.Next | components/Onboarding/Onboarding.tsx:135-141 | "next" advances one step, or from the last step asks the caller to close |
| Onboarding.Tour.Previous | components/Onboarding/Onboarding.tsx:143-147 | "previous" goes back one step, and stays on the first |
| Onboarding.Tour.UpdatePosition | components/Onboarding/Onboarding.tsx:69-124 | the target is looked up for the step shown, and the card is placed as `CardPlacement` states |
| Onboarding.Tour.Close | components/Onboarding/Onboarding.tsx:152-155 | the backdrop and the skip button ask the caller to close, and change nothing else |
| Onboarding.NextThenPrevious | components/Onboarding/Onboarding.tsx:135-147 | "previous" right after a "next" that did not close brings back the step |
| Onboarding.ButtonsMatchMoves | components/Onboarding/Onboarding.tsx:211-224 | the primary button reads 'Finalizar' exactly when pressing it closes the tour and 'Siguiente' exactly when it advances; "previous" is shown exactly after the first step |
| Onboarding.NextWalk | components/Onboarding/Onboarding.tsx:135-141 | `WalkNext`: pressing "next" `k` times from the start lands on step `k`, and closing starts only from the last step |
| Onboarding.PressNext | components/Onboarding/Onboarding.tsx:135-141 | pressing "next" `k` times moves the tour, and counts the close requests, exactly as `WalkNext` says |
| Collaborators.NameOf | components/CenterPanel/Explorar/Collaborators.tsx:38 | the name is the text before the first '@' (all of the address when there is none), and contains no '@' |
| Collaborators.AvatarOf | components/CenterPanel/Explorar/Collaborators.tsx:41 | the avatar is the first two characters of the address, upper-cased |
| Collaborators.Team.constructor | components/CenterPanel/Explorar/Collaborators.tsx:17-24 | the two seeded members, an empty address, the 'Lector' role, not sending, no notices |
| Collaborators.Team.SetEmail | components/CenterPanel/Explorar/Collaborators.tsx:22 | typing sets the address only |
| Collaborators.Team.SetRole | components/CenterPanel/Explorar/Collaborators.tsx:23 | picking sets the role only |
| Collaborators.Team.Invite | components/CenterPanel/Explorar/Collaborators.tsx:26-35 | an address without '@' raises the error notice and changes nothing else; otherwise sending starts and the address, role and member list are captured for the delay |
| Collaborators.Team.CompleteInvite | components/CenterPanel/Explorar/Collaborators.tsx:35-48 | the captured list plus the new member becomes the list, the address is cleared, sending ends, and a success notice names the address |
| Collaborators.InviteCycle | components/CenterPanel/Explorar/Collaborators.tsx:26-49 | a valid address adds exactly one member built from it and the role, clears the field, ends sending and notifies success; an invalid one adds nobody, keeps the address and the sending flag, and notifies the error; the chosen role is kept either way |
| Collaborators.NewMemberFields | components/CenterPanel/Explorar/Collaborators.tsx:36-42 | `NewMember`: the new member's address is the name, an '@' and a domain; the name has no '@'; a name of two or more characters starts the avatar |
| Collaborators.FreshIdKeepsDistinct | components/CenterPanel/Explorar/Collaborators.tsx:17-20 | the seeded members have distinct ids, and adding an unused id keeps them distinct |
| Collaborators.RepeatedIdClashes | components/CenterPanel/Explorar/Collaborators.tsx:37 | a random id that repeats one in use gives two members the same id |
| Sequences.IndexOfElem | utils/dataProcessor.ts:16-19 | `indexOf`: the first index holding the element, or -1 exactly when it is absent |
| Sequences.Distinct | utils/dataProcessor.ts:43-50 | the insertion order of a `Set` or `Map`: no element twice, and no longer than the input |
| Sequences.DistinctMembers | utils/dataProcessor.ts:44-49 | the set's order holds exactly the input's elements |
| Sequences.InsertionSortPermutes | utils/dataProcessor.ts:41 | the sort is a permutation of its input |
| Sequences.InsertionSortSorted | utils/dataProcessor.ts:41 | the sort's result is ordered by the key |
| Sequences.InsertionSortStable | utils/dataProcessor.ts:41 | the sort is stable: elements with equal keys keep their order |
| Sequences.SortInPlace | utils/dataProcessor.ts:88 | sorting the array in place leaves exactly the stable sort of its old contents |
| Sequences.TallyOld | utils/dataProcessor.ts:78 | incrementing a known key keeps the map a tally of the keys counted |
| Sequences.TallyNew | utils/dataProcessor.ts:78 | a first count of a new key appends it to the insertion order with count 1 |
| Sequences.CountsAddUp | utils/dataProcessor.ts:82-85 | the counts of the distinct keys add up to the number of keys |
| JsText.Trim | utils/dataProcessor.ts:5 | `trim` is no longer than its input, is empty exactly for a blank input, and neither starts nor ends with whitespace |
| JsText.TrimStrips | utils/dataProcessor.ts:5 | `trim` removes exactly the leading and trailing whitespace: the result is the slice of the input between a run of whitespace at each end |
| JsText.SplitPieces | utils/dataProcessor.ts:9 | no piece of a split contains the separator, and there is one piece exactly when the text lacks the separator |
| JsText.ReplaceSplices | utils/dataProcessor.ts:110 | `ReplaceFirst`: the text before and after the first occurrence of the pattern is kept and that occurrence alone is replaced; a text without the pattern is returned as it is |

## Left out

- Date parsing is the parameter `parseDate`. JavaScript's date-string grammar and time zones are not modelled.
- `toLocaleString` of the start and end is not modelled: the stats hold the two timestamps in milliseconds.
- Floating-point figures are kept as exact integers:
  - the mean duration is kept as the total (`totalDurationMs`), since the average is the total over the case count;
  - the median is kept in milliseconds;
  - `toFixed` rounding, the hour conversion and the `" hrs"` labels are not modelled.
- The failure rate is kept as the failure count (`Dora.failures`); its percentage text is not modelled. Nor are the lead-time and time-to-restore labels, which are derived from the average.
- The throughput label (`events / 24`) is not modelled. Nor are the waste scores, which use `Math.random`, the average and fixed constants.
- The custom metrics (`Math.random`) are not modelled.
- The description text and the `custom-${Date.now()}` id are not modelled: they depend on the clock.
- The `resource` field is kept in each event as parsed, but nothing downstream reads it.
- The d3 rendering, the zoom and the force simulation of the graph view are not modelled. Neither is the token animation; only its criticality rule is.
- ProcessGraph.IsCritical: compares `10 * weight > 7 * maxWeight` over integers. It agrees with the code's `weight > maxWeight * 0.7` except at exact 70% ties, where the floating-point product falls just below seven tenths of the maximum: at maxWeight 90 and weight 63, `90 * 0.7` is 62.99999999999999, so the code marks the link critical and the model does not (likewise 119 of 170 and 126 of 180).
- ProcessGraph.Limit: computes `ceil(percent * n / 100)` exactly. JavaScript's product `0.55 * 100` is 55.00000000000001, so at such slider values the view keeps one link more than `Limit` says (56 rather than 55 of 100 links at 0.55; likewise 100 rather than 99 of 180, and 111 rather than 110 of 200). Floating-point rounding of the slider value is not modelled.
- The simplification slider is an integer percentage. Fractional slider values are not modelled.
- The persistence call `saveScenarioFeedback` (Supabase) is outside the model. `QAEditor.StartSave` hands out the feedback to send, and `QAEditor.FinishSave` receives whether it was stored. A rejected promise, as opposed to an unsuccessful result, is not modelled.
- Timers are explicit steps:
  - the 3-second reset timer is `QAEditor.ResetTimerFires`, with `pendingResets` counting timers not yet fired;
  - the 1-second invitation delay is `Team.CompleteInvite`.
  Interleavings are any order the caller chooses.
- The resize listener and the 100 ms re-run of `updatePosition` are not modelled separately: each run is one call of `Tour.UpdatePosition` with the window size of that moment.
- The disabled state of buttons during sending or saving is not a precondition. The methods model the handlers as written, and the user interface's disabled attribute is not modelled.
- The card's other style properties (transition, z-index, transform) are not modelled; the model keeps only centred versus the top-left corner.
- The window and element geometry are exact reals. Floating-point rounding is not modelled.
- `toLowerCase` and `toUpperCase` are modelled for ASCII letters only. Unicode case mapping is not modelled. `trim` strips the ECMAScript white-space and line-terminator characters.
- JavaScript's UTF-16 string lengths are not modelled: a string is a sequence of characters.
- The random member id (`Math.random().toString(36).substr(2, 9)`) is the parameter `newId`. `Collaborators.RepeatedIdClashes` shows what a repeated id does.
- The members list captured when the invitation is sent is used when the delay ends, as the code does. This is `PendingInvite`: an edit to the list during the delay would be lost.
- The display-only fields are not modelled: scenario descriptions, stability figures and test lists, step descriptions and icons.
- The other views and services are not part of this model: App orchestration, demo data, billing, landing, initiatives, the AI services and e-mail.
- `SummaryProperties.KeyRoundTrip`, `SummaryProperties.CaseLinkEndpoints`, `SummaryProperties.LinkEndpoints`, `Validators.ParsedLinksResolve` and `Validators.ParsedDatasetValidity` assume that no activity name contains "->". The code joins link keys with "->" and splits them at the first "->". `SummaryProperties.ArrowInActivity` states what happens to an activity that does contain it.
