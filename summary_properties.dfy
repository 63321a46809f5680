/**
 * What the dataset built by the event-log parser promises about its figures: the counts in
 * the stats, the time span, the node list, the link weights and the link endpoints, and the
 * dataset name.
 */
module SummaryProperties {
  import opened JsText
  import opened Sequences
  import opened ProcessTypes
  import opened DataProcessor
  import opened ParserProperties

  // ---------------------------------------------------------------------------------------
  // Counts
  // ---------------------------------------------------------------------------------------

  /** `stats.cases` is the number of distinct case ids (`casesMap.size`), at least one and at
      most the number of events; the ROI, the failure count and the deployment frequency are
      derived from it. */
  lemma CaseFigures(fileName: string, events: seq<Event>)
    requires |events| > 0
    ensures var d := Summarize(fileName, events);
      && d.stats.events == |events|
      && d.stats.cases == |set e | e in events :: e.caseId|
      && 1 <= d.stats.cases <= d.stats.events
      && d.stats.roiPerMonth == 25 * d.stats.cases
      && d.dora.failures <= d.stats.cases
      && d.dora.deploymentFrequency == FrequencyOf(d.stats.cases)
  {
    var ids := CaseIdColumn(events);
    DistinctSize(ids);
    assert (set e | e in events :: e.caseId) == (set x | x in ids) by {
      forall x | x in ids ensures x in (set e | e in events :: e.caseId) {
        var i :| 0 <= i < |ids| && ids[i] == x;
        assert events[i] in events;
      }
    }
    DistinctMembers(ids);
    assert ids[0] in CaseOrder(events);
  }

  /** The rank of a deployment-frequency label, lowest first. */
  function Level(f: DeploymentFrequency): int {
    match f
    case Baja => 0
    case Media => 1
    case Alta => 2
  }

  /** The label is 'Alta' above 20 cases, 'Media' from 11 to 20 and 'Baja' up to 10, and
      more cases never give a lower label. */
  lemma FrequencyLevels(c: int, d: int)
    ensures FrequencyOf(c) == Alta <==> c > 20
    ensures FrequencyOf(c) == Media <==> 10 < c <= 20
    ensures FrequencyOf(c) == Baja <==> c <= 10
    ensures c <= d ==> Level(FrequencyOf(c)) <= Level(FrequencyOf(d))
  {
  }

  /** Lower-casing keeps an occurrence of a word that is already in lower case. */
  lemma LowerKeepsWord(s: string, w: string, i: int)
    requires OccursAt(s, w, i)
    requires forall k | 0 <= k < |w| :: LowerChar(w[k]) == w[k]
    ensures OccursAt(ToLowerAscii(s), w, i)
  {
    var lower := ToLowerAscii(s);
    forall k | 0 <= k < |w| ensures lower[i..i + |w|][k] == w[k] {
      assert s[i + k] == w[k];
    }
  }

  /** A mention of the word, however it is capitalised. */
  lemma MentionFound(a: string, w: string)
    requires Contains(a, w)
    requires forall k | 0 <= k < |w| :: LowerChar(w[k]) == w[k]
    ensures Contains(ToLowerAscii(a), w)
  {
    var i :| 0 <= i <= |a| && OccursAt(a, w, i);
    LowerKeepsWord(a, w, i);
  }

  /** The failure test ignores ASCII case, and an activity with "rechazo", "error" or
      "falla" written in lower case anywhere in it is a failure. */
  lemma FailureIgnoresCase(a: string)
    ensures IsFailureActivity(ToUpperAscii(a)) == IsFailureActivity(a)
    ensures Contains(a, "rechazo") || Contains(a, "error") || Contains(a, "falla") ==>
      IsFailureActivity(a)
  {
    assert ToLowerAscii(ToUpperAscii(a)) == ToLowerAscii(a);
    if Contains(a, "rechazo") {
      MentionFound(a, "rechazo");
    } else if Contains(a, "error") {
      MentionFound(a, "error");
    } else if Contains(a, "falla") {
      MentionFound(a, "falla");
    }
  }

  /** The median is one of the case durations: the one at index `floor(n / 2)` of the
      durations in ascending order, the upper of the two middle values for an even count. */
  lemma MedianPosition(fileName: string, events: seq<Event>)
    requires |events| > 0
    ensures var durations := Durations(Cases(events));
      var m := Summarize(fileName, events).stats.medianDurationMs;
      && m in durations
      && exists sorted: seq<int> ::
        && multiset(sorted) == multiset(durations)
        && (forall i, j | 0 <= i < j < |sorted| :: sorted[i] <= sorted[j])
        && |sorted| == |durations| && sorted[|durations| / 2] == m
  {
    var durations := Durations(Cases(events));
    DistinctMembers(CaseIdColumn(events));
    assert CaseIdColumn(events)[0] in CaseOrder(events);
    var sorted := InsertionSort(durations, Itself);
    InsertionSortSorted(durations, Itself);
    InsertionSortPermutes(durations, Itself);
    assert |sorted| == |multiset(sorted)| == |durations|;
    var m := sorted[|durations| / 2];
    assert m == Summarize(fileName, events).stats.medianDurationMs;
    assert m in multiset(durations) by {
      assert m in multiset(sorted);
    }
    forall i, j | 0 <= i < j < |sorted| ensures sorted[i] <= sorted[j] {
      assert Itself(sorted[i]) <= Itself(sorted[j]);
    }
  }

  /** The ids of a node list, in order. */
  function NodeIds(nodes: seq<ProcessNode>): seq<string> {
    seq(|nodes|, i requires 0 <= i < |nodes| => nodes[i].id)
  }

  /** The node list holds every activity of the log exactly once. */
  lemma ActivityList(events: seq<Event>)
    ensures var nodes := NodesOf(Activities(events));
      && |nodes| == |set e | e in events :: e.activity|
      && (forall i, j | 0 <= i < j < |nodes| :: nodes[i].id != nodes[j].id)
      && (forall a :: a in NodeIds(nodes) <==> exists e | e in events :: e.activity == a)
  {
    var nodes := NodesOf(Activities(events));
    var acts := ActivityColumn(events);
    DistinctSize(acts);
    DistinctMembers(acts);
    assert NodeIds(nodes) == Activities(events);
    forall a ensures a in acts <==> exists e | e in events :: e.activity == a {
      if e :| e in events && e.activity == a {
        var i :| 0 <= i < |events| && events[i] == e;
        assert acts[i] == a;
      }
    }
    assert (set e | e in events :: e.activity) == (set x | x in acts);
  }

  /** The nodes are the activities of the log, each exactly once, and `stats.activities`
      counts them. */
  lemma ActivityNodes(fileName: string, events: seq<Event>)
    requires |events| > 0
    ensures var d := Summarize(fileName, events);
      && d.stats.activities == |d.nodes| == |set e | e in events :: e.activity|
      && (forall i, j | 0 <= i < j < |d.nodes| :: d.nodes[i].id != d.nodes[j].id)
      && (forall a :: a in NodeIds(d.nodes) <==> exists e | e in events :: e.activity == a)
  {
    ActivityList(events);
  }

  // ---------------------------------------------------------------------------------------
  // Time span
  // ---------------------------------------------------------------------------------------

  /** In a time-ordered log the first and the last event bound every timestamp. */
  lemma SortedBounds(events: seq<Event>)
    requires |events| > 0 && SortedBy(events, TimeOf)
    ensures forall e | e in events :: events[0].timestamp <= e.timestamp <= events[|events| - 1].timestamp
  {
    forall e | e in events ensures events[0].timestamp <= e.timestamp <= events[|events| - 1].timestamp {
      var i :| 0 <= i < |events| && events[i] == e;
      assert TimeOf(events[0]) <= TimeOf(events[i]) || i == 0;
      assert TimeOf(events[i]) <= TimeOf(events[|events| - 1]) || i == |events| - 1;
    }
  }

  /** With the events in time order, `start` and `end` are the earliest and the latest
      timestamps of the log. */
  lemma TimeSpan(fileName: string, events: seq<Event>)
    requires |events| > 0 && SortedBy(events, TimeOf)
    ensures var st := Summarize(fileName, events).stats;
      && (forall e | e in events :: st.startMs <= e.timestamp <= st.endMs)
      && events[0].timestamp == st.startMs && events[|events| - 1].timestamp == st.endMs
  {
    SortedBounds(events);
  }

  /** The span of the dataset built from events sorted by time: `start` and `end` bound every
      event and are timestamps of events. */
  lemma SortedSpan(fileName: string, events: seq<Event>)
    requires |events| > 0
    ensures var st := Summarize(fileName, InsertionSort(events, TimeOf)).stats;
      && (forall e | e in events :: st.startMs <= e.timestamp <= st.endMs)
      && (exists e | e in events :: e.timestamp == st.startMs)
      && (exists e | e in events :: e.timestamp == st.endMs)
  {
    var sorted := InsertionSort(events, TimeOf);
    TimeOrder(events);
    TimeSpan(fileName, sorted);
    assert forall e | e in events :: e in multiset(sorted);
    assert sorted[0] in multiset(events) && sorted[|sorted| - 1] in multiset(events);
  }

  /** For a parse that succeeds, `start` and `end` bound the timestamps of every retained
      event and are themselves timestamps of retained events. */
  lemma DatasetTimeSpan(csvText: string, fileName: string, parseDate: DateParser)
    requires ValidatedEvents(csvText, parseDate).Ok?
    ensures var events := ValidatedEvents(csvText, parseDate).value;
      var st := DatasetOf(csvText, fileName, parseDate).value.stats;
      && (forall e | e in events :: st.startMs <= e.timestamp <= st.endMs)
      && (exists e | e in events :: e.timestamp == st.startMs)
      && (exists e | e in events :: e.timestamp == st.endMs)
  {
    var events := ValidatedEvents(csvText, parseDate).value;
    assert DatasetOf(csvText, fileName, parseDate).value == Summarize(fileName, InsertionSort(events, TimeOf));
    SortedSpan(fileName, events);
  }

  // ---------------------------------------------------------------------------------------
  // Links
  // ---------------------------------------------------------------------------------------

  /** The sum of the weights of a link list. */
  function TotalWeight(links: seq<ProcessLink>): int {
    if |links| == 0 then 0 else TotalWeight(links[..|links| - 1]) + links[|links| - 1].weight
  }

  /** The first `n` links weigh as much as the counts of the first `n` distinct keys. */
  lemma {:induction false} WeightPrefix(keys: seq<string>, n: int)
    requires 0 <= n <= |Distinct(keys)|
    ensures TotalWeight(LinksOf(keys)[..n]) == SumCounts(Distinct(keys)[..n], keys)
  {
    if n > 0 {
      WeightPrefix(keys, n - 1);
      var links := LinksOf(keys);
      var order := Distinct(keys);
      assert links[..n][..n - 1] == links[..n - 1];
      assert order[..n][..n - 1] == order[..n - 1];
    }
  }

  /** The link weights add up to the number of keys counted. */
  lemma LinksWeight(keys: seq<string>)
    ensures TotalWeight(LinksOf(keys)) == |keys|
  {
    var n := |Distinct(keys)|;
    WeightPrefix(keys, n);
    TakeAll(LinksOf(keys));
    TakeAll(Distinct(keys));
    CountsAddUp(keys);
  }

  /** A list of non-empty cases has one transition fewer per case than it has events. */
  lemma {:induction false} TransitionCount(cases: seq<seq<Event>>)
    requires forall k | 0 <= k < |cases| :: |cases[k]| > 0
    ensures |TransitionKeys(cases)| + |cases| == TotalLength(cases)
  {
    if |cases| > 0 {
      TransitionCount(cases[..|cases| - 1]);
    }
  }

  /** Every link has a positive weight, and the weights account for every transition: their
      sum is the number of events minus the number of cases. */
  lemma LinkWeights(fileName: string, events: seq<Event>)
    requires |events| > 0
    ensures var d := Summarize(fileName, events);
      && (forall i | 0 <= i < |d.links| :: d.links[i].weight > 0)
      && TotalWeight(d.links) == |events| - d.stats.cases
  {
    var keys := TransitionKeys(Cases(events));
    LinksWeight(keys);
    TransitionCount(Cases(events));
    CasesTotal(events);
    DistinctMembers(keys);
  }

  /** A transition key contains the arrow, so the split gives a second piece. */
  lemma KeyHasArrow(source: string, target: string)
    ensures Contains(LinkKey(source, target), "->")
    ensures |Split(LinkKey(source, target), "->")| >= 2
  {
    var key := LinkKey(source, target);
    assert key[|source|..|source| + 2] == "->";
    assert OccursAt(key, "->", |source|);
    SplitPieces(key, "->");
  }

  /** Decoding a key gives back the two activities when neither contains "->". */
  lemma KeyRoundTrip(source: string, target: string)
    requires !Contains(source, "->") && !Contains(target, "->")
    ensures DecodeKey(LinkKey(source, target)) == (source, target)
  {
    SplitPair(source, "->", target);
  }

  /** An activity that contains the arrow is cut at it: the link from "a->b" to "c" is
      decoded as the link from "a" to "b", and "c" is lost. */
  lemma ArrowInActivity(a: string, b: string, c: string)
    requires !Contains(a, "->") && !Contains(b, "->") && !Contains(c, "->")
    ensures DecodeKey(LinkKey(a + "->" + b, c)) == (a, b)
  {
    var key := LinkKey(a + "->" + b, c);
    var rest := b + "->" + c;
    assert key == a + "->" + rest;
    FirstOccurrenceAfter(a, "->", rest);
    assert key[..|a|] == a && key[|a| + 2..] == rest;
    SplitPair(b, "->", c);
    assert Split(key, "->") == [a] + [b, c];
  }

  /** `key` joins the activities of two consecutive events of case `c`. */
  predicate KeyOfCase(c: seq<Event>, key: string) {
    exists j | 0 <= j < |c| - 1 :: key == LinkKey(c[j].activity, c[j + 1].activity)
  }

  /** Every counted key joins the activities of two consecutive events of one case. */
  lemma {:induction false} KeyOrigin(cases: seq<seq<Event>>, key: string)
    requires key in TransitionKeys(cases)
    ensures exists k | 0 <= k < |cases| :: KeyOfCase(cases[k], key)
  {
    var init := cases[..|cases| - 1];
    var last := cases[|cases| - 1];
    assert TransitionKeys(cases) == TransitionKeys(init) + CaseKeys(last);
    if key in TransitionKeys(init) {
      KeyOrigin(init, key);
      var k :| 0 <= k < |init| && KeyOfCase(init[k], key);
      assert cases[k] == init[k];
    } else {
      var j :| 0 <= j < |CaseKeys(last)| && CaseKeys(last)[j] == key;
      assert KeyOfCase(cases[|cases| - 1], key);
    }
  }

  /** When no activity contains "->", every link built from the cases joins two activities
      of the log. */
  lemma CaseLinkEndpoints(events: seq<Event>)
    requires forall e | e in events :: !Contains(e.activity, "->")
    ensures var links := LinksOf(TransitionKeys(Cases(events)));
      forall i | 0 <= i < |links| ::
        (exists e | e in events :: e.activity == links[i].source)
        && (exists e | e in events :: e.activity == links[i].target)
  {
    var cases := Cases(events);
    var keys := TransitionKeys(cases);
    var links := LinksOf(keys);
    DistinctMembers(keys);
    forall i | 0 <= i < |links| ensures
        (exists e | e in events :: e.activity == links[i].source)
        && (exists e | e in events :: e.activity == links[i].target)
    {
      var key := Distinct(keys)[i];
      KeyOrigin(cases, key);
      var k :| 0 <= k < |cases| && KeyOfCase(cases[k], key);
      var j :| 0 <= j < |cases[k]| - 1 && key == LinkKey(cases[k][j].activity, cases[k][j + 1].activity);
      var x, y := cases[k][j], cases[k][j + 1];
      CaseEventsMembers(events, CaseOrder(events)[k]);
      assert x in cases[k] && y in cases[k];
      KeyRoundTrip(x.activity, y.activity);
    }
  }

  /** When no activity contains "->", every link joins two activities of the log, that is
      two nodes. */
  lemma LinkEndpoints(fileName: string, events: seq<Event>)
    requires |events| > 0
    requires forall e | e in events :: !Contains(e.activity, "->")
    ensures var d := Summarize(fileName, events);
      forall i | 0 <= i < |d.links| ::
        (exists e | e in events :: e.activity == d.links[i].source)
        && (exists e | e in events :: e.activity == d.links[i].target)
  {
    CaseLinkEndpoints(events);
    assert Summarize(fileName, events).links == LinksOf(TransitionKeys(Cases(events)));
  }

  /** When no activity contains "->", every counted key is the key of its decoded pair. */
  lemma KeyDecodes(events: seq<Event>, key: string)
    requires forall e | e in events :: !Contains(e.activity, "->")
    requires key in TransitionKeys(Cases(events))
    ensures LinkKey(DecodeKey(key).0, DecodeKey(key).1) == key
  {
    var cases := Cases(events);
    KeyOrigin(cases, key);
    var k :| 0 <= k < |cases| && KeyOfCase(cases[k], key);
    var j :| 0 <= j < |cases[k]| - 1 && key == LinkKey(cases[k][j].activity, cases[k][j + 1].activity);
    var x, y := cases[k][j], cases[k][j + 1];
    CaseEventsMembers(events, CaseOrder(events)[k]);
    assert x in cases[k] && y in cases[k];
    KeyRoundTrip(x.activity, y.activity);
  }

  /** When no activity contains "->", no two links join the same pair of activities: one
      link per transition. */
  lemma LinksUnique(fileName: string, events: seq<Event>)
    requires |events| > 0
    requires forall e | e in events :: !Contains(e.activity, "->")
    ensures var d := Summarize(fileName, events);
      forall i, j | 0 <= i < j < |d.links| ::
        d.links[i].source != d.links[j].source || d.links[i].target != d.links[j].target
  {
    var keys := TransitionKeys(Cases(events));
    var links := LinksOf(keys);
    var order := Distinct(keys);
    assert Summarize(fileName, events).links == links;
    DistinctMembers(keys);
    forall i, j | 0 <= i < j < |links|
      ensures links[i].source != links[j].source || links[i].target != links[j].target
    {
      KeyDecodes(events, order[i]);
      KeyDecodes(events, order[j]);
    }
  }

  // ---------------------------------------------------------------------------------------
  // Name
  // ---------------------------------------------------------------------------------------

  /** The dataset name drops the ".csv" extension, and a name without ".csv" is kept. */
  lemma NameStripsExtension(base: string)
    requires !Contains(base, ".csv")
    ensures DatasetName(base + ".csv") == base
    ensures DatasetName(base) == base
  {
    FirstOccurrenceAfter(base, ".csv", "");
    assert base + ".csv" + "" == base + ".csv";
    assert (base + ".csv")[..|base|] == base;
  }
}
