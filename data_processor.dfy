/**
 * The event-log parser and process-graph builder: raw CSV text with the columns "Case ID",
 * "Activity" and "Timestamp" becomes a dataset of activity nodes, weighted transition links
 * and statistics.
 *
 * `DatasetOf` states the result as a composition of functions, one per stage (header lookup,
 * row filter, stable timestamp sort, grouping by case, node set, transition counting,
 * durations); `ParseCsvToDataset` performs the same stages step by step, with the in-place
 * sorts and the accumulating loops of the original, and is proved to produce `DatasetOf`.
 * The lemmas at the end state what the stages promise.
 */
module DataProcessor {
  import opened Wrappers
  import opened JsText
  import opened Sequences
  import opened ProcessTypes

  /** A date-string parser: `new Date(s).getTime()` in milliseconds, `None` for an invalid date. */
  type DateParser = string -> Option<int>

  /** One retained row of the log. `lineNum` is the row's 1-based line number in the file. */
  datatype Event = Event(
    caseId: string,
    activity: string,
    resource: Option<string>,
    timestamp: int,
    lineNum: int)

  datatype ParseError = EmptyFile | MissingDataRows | MissingColumns | NoValidEvents

  /** The text of the error each failure throws. */
  function Message(e: ParseError): string {
    match e
    case EmptyFile => "El archivo CSV está vacío."
    case MissingDataRows => "El CSV debe contener al menos los encabezados y una fila de datos."
    case MissingColumns =>
      "Formato inválido. El CSV debe contener las columnas: \"Case ID\", \"Activity\" y \"Timestamp\"."
    case NoValidEvents => "No se encontraron eventos válidos."
  }

  // ---------------------------------------------------------------------------------------
  // Header and rows
  // ---------------------------------------------------------------------------------------

  /** The positions of the required columns, and of the optional "Resource" column (-1 if absent). */
  datatype Columns = Columns(caseId: nat, activity: nat, timestamp: nat, resource: int)

  /** The header row split at commas, each name trimmed. */
  function HeaderCells(line: string): (r: seq<string>)
    ensures var parts := Split(line, ",");
      |r| == |parts| && forall i | 0 <= i < |r| :: r[i] == Trim(parts[i])
  {
    var parts := Split(line, ",");
    seq(|parts|, i requires 0 <= i < |parts| => Trim(parts[i]))
  }

  /** Looks the required columns up by exact, case-sensitive name; the first match wins. */
  function LocateColumns(headers: seq<string>): (r: Option<Columns>)
    ensures r.Some? <==> "Case ID" in headers && "Activity" in headers && "Timestamp" in headers
    ensures r.Some? ==>
      && r.value.caseId < |headers| && headers[r.value.caseId] == "Case ID"
      && r.value.activity < |headers| && headers[r.value.activity] == "Activity"
      && r.value.timestamp < |headers| && headers[r.value.timestamp] == "Timestamp"
      && (forall j | 0 <= j < r.value.caseId :: headers[j] != "Case ID")
      && (forall j | 0 <= j < r.value.activity :: headers[j] != "Activity")
      && (forall j | 0 <= j < r.value.timestamp :: headers[j] != "Timestamp")
  {
    var c := IndexOfElem(headers, "Case ID");
    var a := IndexOfElem(headers, "Activity");
    var t := IndexOfElem(headers, "Timestamp");
    if c < 0 || a < 0 || t < 0 then None
    else Some(Columns(c, a, t, IndexOfElem(headers, "Resource")))
  }

  /** `parts[i]?.trim()`: the trimmed field, or `None` (JavaScript's `undefined`) when the row
      has fewer fields. */
  function Field(parts: seq<string>, i: int): Option<string> {
    if 0 <= i < |parts| then Some(Trim(parts[i])) else None
  }

  /** A field holding something other than whitespace. */
  predicate Filled(parts: seq<string>, i: nat) {
    i < |parts| && !IsBlank(parts[i])
  }

  /** The event a data row describes, or `None` when the filter drops the row. `new Date` of a
      missing field is an invalid date. */
  function RowEvent(line: string, cols: Columns, parseDate: DateParser, lineNum: int): (r: Option<Event>)
    ensures var parts := Split(line, ",");
      r.Some? <==>
        && Filled(parts, cols.caseId) && Filled(parts, cols.activity)
        && cols.timestamp < |parts| && parseDate(Trim(parts[cols.timestamp])).Some?
    ensures var parts := Split(line, ",");
      r.Some? ==>
        && r.value.caseId == Trim(parts[cols.caseId])
        && r.value.activity == Trim(parts[cols.activity])
        && Some(r.value.timestamp) == parseDate(Trim(parts[cols.timestamp]))
        && r.value.lineNum == lineNum
  {
    var parts := Split(line, ",");
    var caseId := Field(parts, cols.caseId);
    var activity := Field(parts, cols.activity);
    var stamp := match Field(parts, cols.timestamp)
      case None => None
      case Some(text) => parseDate(text);
    var resource := if cols.resource != -1 then Field(parts, cols.resource) else Some("N/A");
    if caseId.Some? && caseId.value != "" && activity.Some? && activity.value != "" && stamp.Some?
    then Some(Event(caseId.value, activity.value, resource, stamp.value, lineNum))
    else None
  }

  /** The outcome of `map` over the rows after the header: row `i` is line `i + 2`. */
  function RowEvents(rows: seq<string>, cols: Columns, parseDate: DateParser): (r: seq<Option<Event>>)
    ensures |r| == |rows|
    ensures forall i | 0 <= i < |r| :: r[i] == RowEvent(rows[i], cols, parseDate, i + 2)
  {
    seq(|rows|, i requires 0 <= i < |rows| => RowEvent(rows[i], cols, parseDate, i + 2))
  }

  /** The `filter` that follows: the events of the accepted rows, in row order. */
  function Kept(outcomes: seq<Option<Event>>): (r: seq<Event>)
    ensures |r| <= |outcomes|
  {
    if |outcomes| == 0 then []
    else
      var prior := Kept(outcomes[..|outcomes| - 1]);
      match outcomes[|outcomes| - 1]
      case Some(e) => prior + [e]
      case None => prior
  }

  /** The retained events of the data rows. */
  function RetainedEvents(rows: seq<string>, cols: Columns, parseDate: DateParser): seq<Event> {
    Kept(RowEvents(rows, cols, parseDate))
  }

  /** Each outcome that is an event carries the line number of its row. */
  predicate Numbered(outcomes: seq<Option<Event>>) {
    forall i | 0 <= i < |outcomes| && outcomes[i].Some? :: outcomes[i].value.lineNum == i + 2
  }

  /** Each event of `r` is the outcome of the row its line number names. */
  predicate FromOutcomes(r: seq<Event>, outcomes: seq<Option<Event>>) {
    forall k | 0 <= k < |r| ::
      2 <= r[k].lineNum <= |outcomes| + 1 && outcomes[r[k].lineNum - 2] == Some(r[k])
  }

  /** Line numbers strictly increase along `r`. */
  predicate InLineOrder(r: seq<Event>) {
    forall k, l | 0 <= k < l < |r| :: r[k].lineNum < r[l].lineNum
  }

  /** Each kept event is the outcome its line number names. */
  lemma {:induction false} KeptOrigin(outcomes: seq<Option<Event>>)
    requires Numbered(outcomes)
    ensures FromOutcomes(Kept(outcomes), outcomes)
  {
    if |outcomes| > 0 {
      var init := outcomes[..|outcomes| - 1];
      assert forall i | 0 <= i < |init| :: init[i] == outcomes[i];
      KeptOrigin(init);
      var prior := Kept(init);
      forall k | 0 <= k < |prior|
        ensures 2 <= prior[k].lineNum <= |outcomes| + 1 && outcomes[prior[k].lineNum - 2] == Some(prior[k])
      {
        assert init[prior[k].lineNum - 2] == Some(prior[k]);
      }
      match outcomes[|outcomes| - 1]
      case None =>
      case Some(e) =>
        var r := prior + [e];
        assert forall k | 0 <= k < |prior| :: r[k] == prior[k];
        assert r[|prior|] == e && e.lineNum == |outcomes| + 1;
    }
  }

  /** The kept events are in row order. */
  lemma {:induction false} KeptOrder(outcomes: seq<Option<Event>>)
    requires Numbered(outcomes)
    ensures InLineOrder(Kept(outcomes))
  {
    if |outcomes| > 0 {
      var init := outcomes[..|outcomes| - 1];
      assert forall i | 0 <= i < |init| :: init[i] == outcomes[i];
      KeptOrder(init);
      KeptOrigin(init);
      var prior := Kept(init);
      match outcomes[|outcomes| - 1]
      case None =>
      case Some(e) =>
        var r := prior + [e];
        assert forall k | 0 <= k < |prior| :: r[k] == prior[k] && r[k].lineNum < e.lineNum;
        assert r[|prior|] == e;
    }
  }

  lemma {:induction false} KeptComplete(outcomes: seq<Option<Event>>, i: nat)
    requires i < |outcomes| && outcomes[i].Some?
    ensures outcomes[i].value in Kept(outcomes)
  {
    var init := outcomes[..|outcomes| - 1];
    if i < |init| {
      KeptComplete(init, i);
    }
  }

  /** Each row's outcome carries the row's line number. */
  lemma RowsNumbered(rows: seq<string>, cols: Columns, parseDate: DateParser)
    ensures Numbered(RowEvents(rows, cols, parseDate))
  {
    var outcomes := RowEvents(rows, cols, parseDate);
    forall i | 0 <= i < |outcomes| && outcomes[i].Some? ensures outcomes[i].value.lineNum == i + 2 {
      assert outcomes[i] == RowEvent(rows[i], cols, parseDate, i + 2);
    }
  }

  /** Each retained event is the event of the row its line number names. */
  lemma RetainedOrigin(rows: seq<string>, cols: Columns, parseDate: DateParser)
    ensures var r := RetainedEvents(rows, cols, parseDate);
      forall k | 0 <= k < |r| ::
        2 <= r[k].lineNum <= |rows| + 1
        && RowEvent(rows[r[k].lineNum - 2], cols, parseDate, r[k].lineNum) == Some(r[k])
  {
    var outcomes := RowEvents(rows, cols, parseDate);
    RowsNumbered(rows, cols, parseDate);
    KeptOrigin(outcomes);
    var r := Kept(outcomes);
    forall k | 0 <= k < |r|
      ensures RowEvent(rows[r[k].lineNum - 2], cols, parseDate, r[k].lineNum) == Some(r[k])
    {
      var i := r[k].lineNum - 2;
      assert outcomes[i] == Some(r[k]);
      assert outcomes[i] == RowEvent(rows[i], cols, parseDate, i + 2);
    }
  }

  /** No accepted row is lost. */
  lemma RetainedComplete(rows: seq<string>, cols: Columns, parseDate: DateParser)
    ensures forall i | 0 <= i < |rows| && RowEvent(rows[i], cols, parseDate, i + 2).Some? ::
      RowEvent(rows[i], cols, parseDate, i + 2).value in RetainedEvents(rows, cols, parseDate)
  {
    var outcomes := RowEvents(rows, cols, parseDate);
    forall i | 0 <= i < |rows| && RowEvent(rows[i], cols, parseDate, i + 2).Some?
      ensures RowEvent(rows[i], cols, parseDate, i + 2).value in Kept(outcomes)
    {
      KeptComplete(outcomes, i);
    }
  }

  /** What the row filter promises: each retained event is the event of the row its line
      number names, the rows' order is kept, and no accepted row is lost. */
  lemma RetainedEventsFaithful(rows: seq<string>, cols: Columns, parseDate: DateParser)
    ensures var r := RetainedEvents(rows, cols, parseDate);
      && (forall k | 0 <= k < |r| ::
            2 <= r[k].lineNum <= |rows| + 1
            && RowEvent(rows[r[k].lineNum - 2], cols, parseDate, r[k].lineNum) == Some(r[k]))
      && InLineOrder(r)
      && (forall i | 0 <= i < |rows| && RowEvent(rows[i], cols, parseDate, i + 2).Some? ::
            RowEvent(rows[i], cols, parseDate, i + 2).value in r)
  {
    RetainedOrigin(rows, cols, parseDate);
    RowsNumbered(rows, cols, parseDate);
    KeptOrder(RowEvents(rows, cols, parseDate));
    RetainedComplete(rows, cols, parseDate);
  }

  // ---------------------------------------------------------------------------------------
  // Sorting and grouping
  // ---------------------------------------------------------------------------------------

  /** The sort key: `a.timestamp.getTime() - b.timestamp.getTime()` compares these. */
  function TimeOf(e: Event): int { e.timestamp }

  /** The case id of every event, in order. */
  function CaseIdColumn(events: seq<Event>): (r: seq<string>)
    ensures |r| == |events| && forall i | 0 <= i < |r| :: r[i] == events[i].caseId
  {
    seq(|events|, i requires 0 <= i < |events| => events[i].caseId)
  }

  /** The activity of every event, in order. */
  function ActivityColumn(events: seq<Event>): (r: seq<string>)
    ensures |r| == |events| && forall i | 0 <= i < |r| :: r[i] == events[i].activity
  {
    seq(|events|, i requires 0 <= i < |events| => events[i].activity)
  }

  /** The key order of `casesMap`: case ids by first appearance. */
  function CaseOrder(events: seq<Event>): seq<string> {
    Distinct(CaseIdColumn(events))
  }

  /** The contents of `activitySet`: activities by first appearance. */
  function Activities(events: seq<Event>): seq<string> {
    Distinct(ActivityColumn(events))
  }

  /** The events of case `c`, in their order in `events`: the list `casesMap` holds for `c`. */
  function CaseEvents(events: seq<Event>, c: string): (r: seq<Event>)
    ensures |r| <= |events|
    ensures forall i | 0 <= i < |r| :: r[i].caseId == c
  {
    if |events| == 0 then []
    else
      var init := events[..|events| - 1];
      var e := events[|events| - 1];
      CaseEvents(init, c) + (if e.caseId == c then [e] else [])
  }

  /** The events of case `c` are exactly the events with that case id. */
  lemma {:induction false} CaseEventsMembers(events: seq<Event>, c: string)
    ensures forall e :: e in CaseEvents(events, c) <==> e in events && e.caseId == c
  {
    if |events| > 0 {
      var init := events[..|events| - 1];
      CaseEventsMembers(init, c);
      assert events == init + [events[|events| - 1]];
    }
  }

  lemma CaseEventsSnoc(events: seq<Event>, e: Event, c: string)
    ensures CaseEvents(events + [e], c) == CaseEvents(events, c) + (if e.caseId == c then [e] else [])
  {
    assert (events + [e])[..|events|] == events;
  }

  /** A case that occurs has at least one event. */
  lemma CaseEventsNonEmpty(events: seq<Event>, c: string)
    requires c in CaseIdColumn(events)
    ensures |CaseEvents(events, c)| > 0
  {
    var i :| 0 <= i < |events| && CaseIdColumn(events)[i] == c;
    CaseEventsMembers(events, c);
    assert events[i] in CaseEvents(events, c);
  }

  /** The per-case event lists in `casesMap` iteration order. */
  function Cases(events: seq<Event>): (r: seq<seq<Event>>)
    ensures |r| == |CaseOrder(events)|
    ensures forall k | 0 <= k < |r| :: r[k] == CaseEvents(events, CaseOrder(events)[k]) && |r[k]| > 0
  {
    var ids := CaseOrder(events);
    DistinctMembers(CaseIdColumn(events));
    forall k | 0 <= k < |ids| ensures |CaseEvents(events, ids[k])| > 0 {
      CaseEventsNonEmpty(events, ids[k]);
    }
    seq(|ids|, k requires 0 <= k < |ids| => CaseEvents(events, ids[k]))
  }

  /** The node list: one node per activity, `id` and `label` both the activity name. */
  function NodesOf(activities: seq<string>): (r: seq<ProcessNode>)
    ensures |r| == |activities|
    ensures forall i | 0 <= i < |r| :: r[i].id == activities[i] && r[i].labelText == activities[i]
  {
    seq(|activities|, i requires 0 <= i < |activities| => ProcessNode(activities[i], activities[i]))
  }

  // ---------------------------------------------------------------------------------------
  // Transitions
  // ---------------------------------------------------------------------------------------

  /** The `linksMap` key of a transition: the template string `${source}->${target}`. */
  function LinkKey(source: string, target: string): string {
    source + "->" + target
  }

  /** `const [source, target] = key.split('->')`: the first two pieces. A key made by `LinkKey`
      always has a second piece (lemma `KeyHasArrow`); the empty string stands in for the
      `undefined` a key without "->" would give. */
  function DecodeKey(key: string): (string, string) {
    var parts := Split(key, "->");
    (parts[0], if |parts| > 1 then parts[1] else "")
  }

  /** The keys of the consecutive activity pairs of one case, `i` from 0 to length - 2. */
  function CaseKeys(c: seq<Event>): (r: seq<string>)
    ensures |r| == if |c| == 0 then 0 else |c| - 1
  {
    var n := if |c| == 0 then 0 else |c| - 1;
    seq(n, j requires 0 <= j < n => LinkKey(c[j].activity, c[j + 1].activity))
  }

  /** Every key the nested loop counts, case by case in `casesMap` order. */
  function TransitionKeys(cases: seq<seq<Event>>): seq<string> {
    if |cases| == 0 then []
    else TransitionKeys(cases[..|cases| - 1]) + CaseKeys(cases[|cases| - 1])
  }

  lemma TransitionKeysSnoc(cases: seq<seq<Event>>, c: seq<Event>)
    ensures TransitionKeys(cases + [c]) == TransitionKeys(cases) + CaseKeys(c)
  {
    assert (cases + [c])[..|cases|] == cases;
  }

  /** The link list built from `linksMap`: one link per distinct key in insertion order, the
      weight being the number of times the key was counted. */
  function LinksOf(keys: seq<string>): (r: seq<ProcessLink>)
    ensures |r| == |Distinct(keys)|
    ensures forall i | 0 <= i < |r| ::
      var key := Distinct(keys)[i];
      r[i] == ProcessLink(DecodeKey(key).0, DecodeKey(key).1, Count(keys, key))
  {
    var order := Distinct(keys);
    seq(|order|, i requires 0 <= i < |order| =>
      ProcessLink(DecodeKey(order[i]).0, DecodeKey(order[i]).1, Count(keys, order[i])))
  }

  // ---------------------------------------------------------------------------------------
  // Durations and figures
  // ---------------------------------------------------------------------------------------

  /** A case's duration: last event's time minus first event's time. */
  function Duration(c: seq<Event>): int
    requires |c| > 0
  {
    c[|c| - 1].timestamp - c[0].timestamp
  }

  /** `caseDurations` before its sort: one duration per case, single-event cases included. */
  function Durations(cases: seq<seq<Event>>): (r: seq<int>)
    requires forall k | 0 <= k < |cases| :: |cases[k]| > 0
    ensures |r| == |cases| && forall k | 0 <= k < |r| :: r[k] == Duration(cases[k])
  {
    seq(|cases|, k requires 0 <= k < |cases| => Duration(cases[k]))
  }

  /** A case counts as failed when its last activity, lower-cased, mentions a rejection,
      an error or a fault. */
  predicate IsFailureActivity(activity: string) {
    var lower := ToLowerAscii(activity);
    Contains(lower, "rechazo") || Contains(lower, "error") || Contains(lower, "falla")
  }

  /** The number of failed cases. */
  function FailureCount(cases: seq<seq<Event>>): (r: nat)
    requires forall k | 0 <= k < |cases| :: |cases[k]| > 0
    ensures r <= |cases|
  {
    if |cases| == 0 then 0
    else
      var c := cases[|cases| - 1];
      FailureCount(cases[..|cases| - 1]) + (if IsFailureActivity(c[|c| - 1].activity) then 1 else 0)
  }

  lemma FailureCountSnoc(cases: seq<seq<Event>>, c: seq<Event>)
    requires forall k | 0 <= k < |cases| :: |cases[k]| > 0
    requires |c| > 0
    ensures FailureCount(cases + [c])
         == FailureCount(cases) + (if IsFailureActivity(c[|c| - 1].activity) then 1 else 0)
  {
    assert (cases + [c])[..|cases|] == cases;
  }

  /** The deployment-frequency label for a number of cases. */
  function FrequencyOf(cases: int): DeploymentFrequency {
    if cases > 20 then Alta else if cases > 10 then Media else Baja
  }

  /** The sort key of the durations: `(a, b) => a - b` compares the numbers themselves. */
  function Itself(d: int): int { d }

  /** The dataset name: the file name with its first ".csv" removed. */
  function DatasetName(fileName: string): string {
    ReplaceFirst(fileName, ".csv", "")
  }

  /** The figures of `stats` for the retained events, already sorted by time. */
  function StatsOf(events: seq<Event>): Stats
    requires |events| > 0
  {
    var ids := CaseOrder(events);
    var durations := Durations(Cases(events));
    DistinctMembers(CaseIdColumn(events));
    assert CaseIdColumn(events)[0] in ids;
    var sortedDurations := InsertionSort(durations, Itself);
    Stats(
      |events|, |ids|, |Activities(events)|,
      sortedDurations[|sortedDurations| / 2],
      Sum(durations),
      events[0].timestamp, events[|events| - 1].timestamp,
      70,
      |ids| * 25)
  }

  /** The DORA figures: the deployment frequency and the number of failed cases. */
  function DoraOf(events: seq<Event>): Dora {
    Dora(FrequencyOf(|CaseOrder(events)|), FailureCount(Cases(events)))
  }

  /** The dataset built from the retained events, already sorted by time. */
  function Summarize(fileName: string, events: seq<Event>): Dataset
    requires |events| > 0
  {
    Dataset(
      DatasetName(fileName),
      NodesOf(Activities(events)),
      LinksOf(TransitionKeys(Cases(events))),
      StatsOf(events),
      DoraOf(events))
  }

  /** The lines of the trimmed text. */
  function Lines(csvText: string): seq<string> {
    Split(Trim(csvText), "\n")
  }

  /** The checks made on the text and its header, in their order: the data rows and the
      located columns when all of them pass. */
  function CheckedLines(csvText: string): Result<(seq<string>, Columns), ParseError> {
    if Trim(csvText) == [] then Err(EmptyFile)
    else
      var lines := Lines(csvText);
      if |lines| < 2 then Err(MissingDataRows)
      else match LocateColumns(HeaderCells(lines[0]))
        case None => Err(MissingColumns)
        case Some(cols) => Ok((lines[1..], cols))
  }

  /** The checks made before the sort, in their order, and the retained (unsorted) events
      when all of them pass. */
  function ValidatedEvents(csvText: string, parseDate: DateParser): (r: Result<seq<Event>, ParseError>)
    ensures r.Ok? ==> |r.value| > 0
  {
    match CheckedLines(csvText)
    case Err(e) => Err(e)
    case Ok((rows, cols)) =>
      var events := RetainedEvents(rows, cols, parseDate);
      if |events| == 0 then Err(NoValidEvents) else Ok(events)
  }

  /** What parsing `csvText` produces: the dataset built from the events sorted by time, or
      the error of the first check that fails. */
  function DatasetOf(csvText: string, fileName: string, parseDate: DateParser): Result<Dataset, ParseError> {
    match ValidatedEvents(csvText, parseDate)
    case Err(e) => Err(e)
    case Ok(events) => Ok(Summarize(fileName, InsertionSort(events, TimeOf)))
  }

  // ---------------------------------------------------------------------------------------
  // The imperative parser
  // ---------------------------------------------------------------------------------------

  /** A case id that does not occur has no events. */
  lemma CaseEventsAbsent(events: seq<Event>, c: string)
    requires c !in CaseIdColumn(events)
    ensures CaseEvents(events, c) == []
  {
    CaseEventsMembers(events, c);
  }

  /** `order` lists the keys of `groups` by first appearance in `events`, `groups` holds each
      case's events, and `activities` lists the activities by first appearance. */
  ghost predicate Grouped(order: seq<string>, groups: map<string, seq<Event>>, activities: seq<string>, events: seq<Event>) {
    && order == CaseOrder(events)
    && activities == Activities(events)
    && (forall c | c in groups :: c in order)
    && (forall k | 0 <= k < |order| :: order[k] in groups && groups[order[k]] == CaseEvents(events, order[k]))
  }

  /** `activitySet.add(a)`: the set in insertion order. */
  function AddActivity(activities: seq<string>, a: string): seq<string> {
    if a in activities then activities else activities + [a]
  }

  /** Appending an event appends its case id to the set of case ids when that id is new. */
  lemma CaseOrderSnoc(events: seq<Event>, e: Event)
    ensures CaseOrder(events + [e])
         == if e.caseId in CaseIdColumn(events) then CaseOrder(events) else CaseOrder(events) + [e.caseId]
  {
    assert CaseIdColumn(events + [e]) == CaseIdColumn(events) + [e.caseId];
    DistinctSnoc(CaseIdColumn(events), e.caseId);
  }

  /** Appending an event adds its activity to the activity set. */
  lemma ActivitiesSnoc(events: seq<Event>, e: Event)
    ensures Activities(events + [e]) == AddActivity(Activities(events), e.activity)
  {
    assert ActivityColumn(events + [e]) == ActivityColumn(events) + [e.activity];
    DistinctSnoc(ActivityColumn(events), e.activity);
    DistinctMembers(ActivityColumn(events));
  }

  /** The facts both kinds of grouping step share. */
  lemma GroupStepFacts(order: seq<string>, groups: map<string, seq<Event>>, activities: seq<string>, events: seq<Event>, e: Event)
    requires Grouped(order, groups, activities, events)
    ensures CaseOrder(events + [e]) == if e.caseId in groups then order else order + [e.caseId]
    ensures Activities(events + [e]) == AddActivity(activities, e.activity)
    ensures forall c :: CaseEvents(events + [e], c) == CaseEvents(events, c) + (if e.caseId == c then [e] else [])
    ensures e.caseId !in groups ==> CaseEvents(events, e.caseId) == []
  {
    CaseOrderSnoc(events, e);
    ActivitiesSnoc(events, e);
    DistinctMembers(CaseIdColumn(events));
    assert (e.caseId in groups) == (e.caseId in CaseIdColumn(events)) by {
      if e.caseId in CaseIdColumn(events) {
        var k :| 0 <= k < |order| && order[k] == e.caseId;
      }
    }
    forall c ensures CaseEvents(events + [e], c) == CaseEvents(events, c) + (if e.caseId == c then [e] else []) {
      CaseEventsSnoc(events, e, c);
    }
    if e.caseId !in groups {
      CaseEventsAbsent(events, e.caseId);
    }
  }

  /** A grouping step for the first event of a case: `casesMap.set(caseId, [])` then the push. */
  lemma GroupNewCase(order: seq<string>, groups: map<string, seq<Event>>, activities: seq<string>, events: seq<Event>, e: Event)
    requires Grouped(order, groups, activities, events) && e.caseId !in groups
    ensures Grouped(order + [e.caseId], groups[e.caseId := [e]], AddActivity(activities, e.activity), events + [e])
  {
    GroupStepFacts(order, groups, activities, events, e);
    var order', groups' := order + [e.caseId], groups[e.caseId := [e]];
    forall k | 0 <= k < |order'|
      ensures order'[k] in groups' && groups'[order'[k]] == CaseEvents(events + [e], order'[k])
    {
      if k < |order| {
        assert order'[k] == order[k] && order[k] in groups;
      }
    }
  }

  /** A grouping step for a case seen before: the event is pushed onto its list. */
  lemma GroupKnownCase(order: seq<string>, groups: map<string, seq<Event>>, activities: seq<string>, events: seq<Event>, e: Event)
    requires Grouped(order, groups, activities, events) && e.caseId in groups
    ensures Grouped(order, groups[e.caseId := groups[e.caseId] + [e]], AddActivity(activities, e.activity), events + [e])
  {
    GroupStepFacts(order, groups, activities, events, e);
  }

  /** The `events.forEach` that fills `casesMap` and `activitySet`: `order` is the keys of
      `groups` in insertion order. */
  method GroupEvents(events: seq<Event>)
    returns (order: seq<string>, groups: map<string, seq<Event>>, activities: seq<string>)
    ensures Grouped(order, groups, activities, events)
  {
    order, groups, activities := [], map[], [];
    for i := 0 to |events|
      invariant Grouped(order, groups, activities, events[..i])
    {
      var e := events[i];
      TakeSnoc(events, i);
      if e.caseId !in groups {
        GroupNewCase(order, groups, activities, events[..i], e);
        order, groups := order + [e.caseId], groups[e.caseId := [e]];
      } else {
        GroupKnownCase(order, groups, activities, events[..i], e);
        groups := groups[e.caseId := groups[e.caseId] + [e]];
      }
      activities := AddActivity(activities, e.activity);
    }
    assert events[..|events|] == events;
  }

  /** `linksMap.set(key, (linksMap.get(key) || 0) + 1)`, with the map's insertion order. */
  method CountKey(order: seq<string>, counts: map<string, int>, ghost keys: seq<string>, key: string)
    returns (order': seq<string>, counts': map<string, int>)
    requires Tallies(order, counts, keys)
    ensures Tallies(order', counts', keys + [key])
  {
    if key in counts {
      TallyOld(order, counts, keys, key);
      order', counts' := order, counts[key := counts[key] + 1];
    } else {
      TallyNew(order, counts, keys, key);
      order', counts' := order + [key], counts[key := 1];
    }
  }

  /** The inner `for` over one case's consecutive events. */
  method CountCaseTransitions(c: seq<Event>, order: seq<string>, counts: map<string, int>, ghost before: seq<string>)
    returns (order': seq<string>, counts': map<string, int>)
    requires Tallies(order, counts, before)
    ensures Tallies(order', counts', before + CaseKeys(c))
  {
    order', counts' := order, counts;
    ghost var keys := CaseKeys(c);
    ghost var counted := before;
    var i := 0;
    while i + 1 < |c|
      invariant 0 <= i <= |keys|
      invariant counted == before + keys[..i]
      invariant Tallies(order', counts', counted)
    {
      var key := LinkKey(c[i].activity, c[i + 1].activity);
      assert key == keys[i];
      order', counts' := CountKey(order', counts', counted, key);
      counted := counted + [key];
      TakeSnoc(keys, i);
      i := i + 1;
    }
    assert keys[..i] == keys;
  }

  /** The accumulators of the `casesMap.forEach` after the cases `done`: `caseDurations`,
      `totalDurationMs`, `failures` and `linksMap` (with its insertion order). */
  ghost predicate Scanned(done: seq<seq<Event>>, durations: seq<int>, total: int, failures: nat,
                          linkOrder: seq<string>, linkCounts: map<string, int>)
  {
    && (forall k | 0 <= k < |done| :: |done[k]| > 0)
    && durations == Durations(done) && total == Sum(durations) && failures == FailureCount(done)
    && Tallies(linkOrder, linkCounts, TransitionKeys(done))
  }

  lemma DurationsSnoc(done: seq<seq<Event>>, c: seq<Event>)
    requires (forall k | 0 <= k < |done| :: |done[k]| > 0) && |c| > 0
    ensures Durations(done + [c]) == Durations(done) + [Duration(c)]
  {
  }

  /** The failure test on a case's last activity. */
  method CaseFailed(c: seq<Event>) returns (failed: bool)
    requires |c| > 0
    ensures failed == IsFailureActivity(c[|c| - 1].activity)
  {
    var lastActivity := ToLowerAscii(c[|c| - 1].activity);
    failed := Contains(lastActivity, "rechazo") || Contains(lastActivity, "error") || Contains(lastActivity, "falla");
  }

  /** The body of the `casesMap.forEach` for one case `c`. */
  method ScanCase(c: seq<Event>, durations: seq<int>, total: int, failures: nat,
                  linkOrder: seq<string>, linkCounts: map<string, int>, ghost done: seq<seq<Event>>)
    returns (durations': seq<int>, total': int, failures': nat, linkOrder': seq<string>, linkCounts': map<string, int>)
    requires |c| > 0 && Scanned(done, durations, total, failures, linkOrder, linkCounts)
    ensures Scanned(done + [c], durations', total', failures', linkOrder', linkCounts')
  {
    durations', total', failures' := ScanFigures(c, durations, total, failures, done);
    TransitionKeysSnoc(done, c);
    linkOrder', linkCounts' := CountCaseTransitions(c, linkOrder, linkCounts, TransitionKeys(done));
  }

  /** The duration, total and failure part of the `forEach` body for case `c`. */
  method ScanFigures(c: seq<Event>, durations: seq<int>, total: int, failures: nat, ghost done: seq<seq<Event>>)
    returns (durations': seq<int>, total': int, failures': nat)
    requires |c| > 0 && forall k | 0 <= k < |done| :: |done[k]| > 0
    requires durations == Durations(done) && total == Sum(durations) && failures == FailureCount(done)
    ensures durations' == Durations(done + [c]) && total' == Sum(durations')
    ensures failures' == FailureCount(done + [c])
  {
    var duration := c[|c| - 1].timestamp - c[0].timestamp;
    assert duration == Duration(c);
    DurationsSnoc(done, c);
    SumSnoc(durations, duration);
    durations', total' := durations + [duration], total + duration;
    var failed := CaseFailed(c);
    failures' := if failed then failures + 1 else failures;
    FailureCountSnoc(done, c);
  }

  /** The `casesMap.forEach` that gathers the case durations, their total, the failed cases and
      the transition counts. `cases` is the event lists in the map's order. */
  method ScanCases(order: seq<string>, groups: map<string, seq<Event>>, ghost cases: seq<seq<Event>>)
    returns (durations: seq<int>, total: int, failures: nat, linkOrder: seq<string>, linkCounts: map<string, int>)
    requires |cases| == |order|
    requires forall k | 0 <= k < |order| :: order[k] in groups && groups[order[k]] == cases[k] && |cases[k]| > 0
    ensures durations == Durations(cases) && total == Sum(durations) && failures == FailureCount(cases)
    ensures Tallies(linkOrder, linkCounts, TransitionKeys(cases))
  {
    durations, total, failures, linkOrder, linkCounts := [], 0, 0, [], map[];
    for k := 0 to |order|
      invariant Scanned(cases[..k], durations, total, failures, linkOrder, linkCounts)
    {
      TakeSnoc(cases, k);
      durations, total, failures, linkOrder, linkCounts :=
        ScanCase(groups[order[k]], durations, total, failures, linkOrder, linkCounts, cases[..k]);
    }
    TakeAll(cases);
  }

  /** `Array.from(linksMap.entries()).map(...)`: one link per entry in insertion order, the
      key split back into its endpoints. */
  function EntryLinks(order: seq<string>, counts: map<string, int>): (r: seq<ProcessLink>)
    requires forall i | 0 <= i < |order| :: order[i] in counts
    ensures |r| == |order|
    ensures forall i | 0 <= i < |r| :: r[i].weight == counts[order[i]]
  {
    seq(|order|, i requires 0 <= i < |order| =>
      ProcessLink(DecodeKey(order[i]).0, DecodeKey(order[i]).1, counts[order[i]]))
  }

  /** The entries of a counting map built from `keys` are the links `LinksOf(keys)`. */
  lemma TalliedLinks(order: seq<string>, counts: map<string, int>, keys: seq<string>)
    requires Tallies(order, counts, keys)
    ensures forall i | 0 <= i < |order| :: order[i] in counts
    ensures EntryLinks(order, counts) == LinksOf(keys)
  {
    DistinctMembers(keys);
    assert forall i | 0 <= i < |order| :: order[i] in keys;
  }

  /** `caseDurations.sort((a, b) => a - b)` followed by the element at index `floor(n / 2)`:
      for an even count this is the upper of the two middle values. */
  method MedianOf(durations: seq<int>) returns (median: int)
    requires |durations| > 0
    ensures median == InsertionSort(durations, Itself)[|durations| / 2]
  {
    var sorted := ToArray(durations);
    SortInPlace(sorted, Itself);
    median := sorted[sorted.Length / 2];
  }

  /** Everything after the sort: grouping, scanning the cases, and assembling the dataset. */
  method BuildDataset(fileName: string, events: seq<Event>) returns (d: Dataset)
    requires |events| > 0
    ensures d == Summarize(fileName, events)
  {
    var order, groups, activities := GroupEvents(events);
    ghost var cases := Cases(events);
    GroupedCases(order, groups, activities, events);
    var durations, total, failures, linkOrder, linkCounts := ScanCases(order, groups, cases);
    TalliedLinks(linkOrder, linkCounts, TransitionKeys(cases));
    var nodes := NodesOf(activities);
    var links := EntryLinks(linkOrder, linkCounts);

    DistinctMembers(CaseIdColumn(events));
    assert CaseIdColumn(events)[0] in order;
    var median := MedianOf(durations);
    var stats := Stats(|events|, |order|, |activities|, median, total,
                       events[0].timestamp, events[|events| - 1].timestamp, 70, |order| * 25);
    var dora := Dora(FrequencyOf(|order|), failures);
    AssembledFigures(events, stats, dora, durations);
    d := Dataset(DatasetName(fileName), nodes, links, stats, dora);
  }

  /** The grouped map holds, in key order, the per-case lists `Cases`. */
  lemma GroupedCases(order: seq<string>, groups: map<string, seq<Event>>, activities: seq<string>, events: seq<Event>)
    requires Grouped(order, groups, activities, events)
    ensures |Cases(events)| == |order|
    ensures forall k | 0 <= k < |order| ::
      order[k] in groups && groups[order[k]] == Cases(events)[k] && |Cases(events)[k]| > 0
  {
  }

  /** The figures `BuildDataset` assembles are `StatsOf` and `DoraOf` of the events. */
  lemma AssembledFigures(events: seq<Event>, stats: Stats, dora: Dora, durations: seq<int>)
    requires |events| > 0 && durations == Durations(Cases(events))
    requires stats == Stats(|events|, |CaseOrder(events)|, |Activities(events)|,
                            InsertionSort(durations, Itself)[|durations| / 2], Sum(durations),
                            events[0].timestamp, events[|events| - 1].timestamp, 70, |CaseOrder(events)| * 25)
    requires dora == Dora(FrequencyOf(|CaseOrder(events)|), FailureCount(Cases(events)))
    ensures stats == StatsOf(events) && dora == DoraOf(events)
  {
  }

  /** `parseCSVToDataset`: the dataset, or the error it throws. */
  method ParseCsvToDataset(csvText: string, fileName: string, parseDate: DateParser)
    returns (r: Result<Dataset, ParseError>)
    ensures r == DatasetOf(csvText, fileName, parseDate)
  {
    var retained := ReadEvents(csvText, parseDate);
    if retained.Err? {
      return Err(retained.error);
    }
    // events.sort((a, b) => a.timestamp.getTime() - b.timestamp.getTime())
    var eventArray := ToArray(retained.value);
    SortInPlace(eventArray, TimeOf);
    var dataset := BuildDataset(fileName, eventArray[..]);
    return Ok(dataset);
  }

  /** The checks and the row filter, up to the sort. */
  method ReadEvents(csvText: string, parseDate: DateParser) returns (r: Result<seq<Event>, ParseError>)
    ensures r == ValidatedEvents(csvText, parseDate)
  {
    var text := Trim(csvText);
    if text == [] {
      return Err(EmptyFile);
    }
    var lines := Split(text, "\n");
    if |lines| < 2 {
      return Err(MissingDataRows);
    }
    var located := LocateColumns(HeaderCells(lines[0]));
    if located.None? {
      return Err(MissingColumns);
    }
    var events := RetainedEvents(lines[1..], located.value, parseDate);
    if |events| == 0 {
      return Err(NoValidEvents);
    }
    return Ok(events);
  }
}
