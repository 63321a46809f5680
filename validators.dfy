/**
 * `validateDataset`: the integrity checks run on a dataset before it is shown. The checks are
 * made in a fixed order and every failing check adds one error; the dataset is valid exactly
 * when none fails.
 */
module Validators {
  import opened JsText
  import opened Sequences
  import opened ProcessTypes
  import opened DataProcessor
  import opened ParserProperties
  import opened SummaryProperties

  /** The errors `validateDataset` can report; `Message` gives their text. */
  datatype ValidationError =
    | ShortName
    | TooFewNodes
    | NoLinks
    | OrphanSource(source: string)
    | OrphanTarget(target: string)
    | NoCases
    | EfficiencyOutOfRange

  function Message(e: ValidationError): string {
    match e
    case ShortName => "Dataset name must be at least 3 characters long."
    case TooFewNodes => "Dataset must contain at least 2 process nodes."
    case NoLinks => "Dataset must contain at least one transition (link)."
    case OrphanSource(source) => "Orphaned link source detected: " + source
    case OrphanTarget(target) => "Orphaned link target detected: " + target
    case NoCases => "Dataset must contain at least 1 case."
    case EfficiencyOutOfRange => "Efficiency score must be between 0 and 100."
  }

  /** `{ valid, errors }`. */
  datatype ValidationResult = ValidationResult(valid: bool, errors: seq<ValidationError>)

  /** `new Set(dataset.nodes.map(n => n.id))`. */
  function NodeIdSet(nodes: seq<ProcessNode>): set<string> {
    set i | 0 <= i < |nodes| :: nodes[i].id
  }

  /** The errors of one link: its source, then its target, when missing from the node ids. */
  function LinkErrors(link: ProcessLink, ids: set<string>): seq<ValidationError> {
    (if link.source !in ids then [OrphanSource(link.source)] else [])
    + (if link.target !in ids then [OrphanTarget(link.target)] else [])
  }

  /** The errors of the `forEach` over the links, link by link. */
  function OrphanErrors(links: seq<ProcessLink>, ids: set<string>): seq<ValidationError> {
    if |links| == 0 then []
    else OrphanErrors(links[..|links| - 1], ids) + LinkErrors(links[|links| - 1], ids)
  }

  /** The checks before the links, in their order. */
  function ShapeErrors(d: Dataset): seq<ValidationError> {
    (if |d.name| < 3 then [ShortName] else [])
    + (if |d.nodes| < 2 then [TooFewNodes] else [])
    + (if |d.links| == 0 then [NoLinks] else [])
  }

  /** The numeric checks after the links, in their order. */
  function NumericErrors(d: Dataset): seq<ValidationError> {
    (if d.stats.cases <= 0 then [NoCases] else [])
    + (if d.stats.efficiency < 0 || d.stats.efficiency > 100 then [EfficiencyOutOfRange] else [])
  }

  /** Every error `validateDataset` reports for `d`, in the order it reports them. */
  function ExpectedErrors(d: Dataset): seq<ValidationError> {
    ShapeErrors(d) + OrphanErrors(d.links, NodeIdSet(d.nodes)) + NumericErrors(d)
  }

  /** `validateDataset`: the checks in order, one loop over the links. */
  method ValidateDataset(d: Dataset) returns (r: ValidationResult)
    ensures r.errors == ExpectedErrors(d)
    ensures r.valid <==> r.errors == []
  {
    var errors := CheckShape(d);
    var nodeIds := NodeIdSet(d.nodes);
    for i := 0 to |d.links|
      invariant errors == ShapeErrors(d) + OrphanErrors(d.links[..i], nodeIds)
    {
      errors := CheckLink(d.links[i], nodeIds, errors);
      TakeSnoc(d.links, i);
      OrphanErrorsSnoc(d.links[..i], d.links[i], nodeIds);
    }
    TakeAll(d.links);
    errors := CheckNumbers(d, errors);
    r := ValidationResult(|errors| == 0, errors);
  }

  /** The name, node and link checks, each pushing its error when it fails. */
  method CheckShape(d: Dataset) returns (errors: seq<ValidationError>)
    ensures errors == ShapeErrors(d)
  {
    errors := [];
    if |d.name| < 3 {
      errors := errors + [ShortName];
    }
    if |d.nodes| < 2 {
      errors := errors + [TooFewNodes];
    }
    if |d.links| == 0 {
      errors := errors + [NoLinks];
    }
  }

  /** One round of the `forEach`: the source check, then the target check. */
  method CheckLink(link: ProcessLink, nodeIds: set<string>, before: seq<ValidationError>)
    returns (errors: seq<ValidationError>)
    ensures errors == before + LinkErrors(link, nodeIds)
  {
    errors := before;
    if link.source !in nodeIds {
      errors := errors + [OrphanSource(link.source)];
    }
    if link.target !in nodeIds {
      errors := errors + [OrphanTarget(link.target)];
    }
  }

  /** The case and efficiency checks. */
  method CheckNumbers(d: Dataset, before: seq<ValidationError>) returns (errors: seq<ValidationError>)
    ensures errors == before + NumericErrors(d)
  {
    errors := before;
    if d.stats.cases <= 0 {
      errors := errors + [NoCases];
    }
    if d.stats.efficiency < 0 || d.stats.efficiency > 100 {
      errors := errors + [EfficiencyOutOfRange];
    }
  }

  lemma OrphanErrorsSnoc(links: seq<ProcessLink>, link: ProcessLink, ids: set<string>)
    ensures OrphanErrors(links + [link], ids) == OrphanErrors(links, ids) + LinkErrors(link, ids)
  {
    assert (links + [link])[..|links|] == links;
  }

  // ---------------------------------------------------------------------------------------
  // Properties
  // ---------------------------------------------------------------------------------------

  /** Every link's endpoints are node ids. */
  predicate LinksResolve(links: seq<ProcessLink>, ids: set<string>) {
    forall i | 0 <= i < |links| :: links[i].source in ids && links[i].target in ids
  }

  /** The integrity the validator asks for, stated directly. */
  predicate WellFormed(d: Dataset) {
    && |d.name| >= 3
    && |d.nodes| >= 2
    && |d.links| >= 1
    && LinksResolve(d.links, NodeIdSet(d.nodes))
    && d.stats.cases >= 1
    && 0 <= d.stats.efficiency <= 100
  }

  /** The link loop reports nothing exactly when every endpoint is a node id. */
  lemma {:induction false} OrphansEmpty(links: seq<ProcessLink>, ids: set<string>)
    ensures OrphanErrors(links, ids) == [] <==> LinksResolve(links, ids)
  {
    if |links| > 0 {
      var init := links[..|links| - 1];
      OrphansEmpty(init, ids);
      assert forall i | 0 <= i < |init| :: init[i] == links[i];
    }
  }

  /** `valid` holds exactly for a well-formed dataset. */
  lemma ValidExactly(d: Dataset)
    ensures ExpectedErrors(d) == [] <==> WellFormed(d)
  {
    OrphansEmpty(d.links, NodeIdSet(d.nodes));
  }

  /** Each link adds at most two errors. */
  lemma {:induction false} OrphanBound(links: seq<ProcessLink>, ids: set<string>)
    ensures |OrphanErrors(links, ids)| <= 2 * |links|
  {
    if |links| > 0 {
      OrphanBound(links[..|links| - 1], ids);
    }
  }

  /** At most five checks besides the two per link can fail. */
  lemma ErrorBound(d: Dataset)
    ensures |ExpectedErrors(d)| <= 5 + 2 * |d.links|
  {
    OrphanBound(d.links, NodeIdSet(d.nodes));
  }

  /** The link loop reports only orphaned endpoints: a missing source `x` is reported exactly
      when some link has source `x` and `x` is not a node id, and likewise for targets. */
  lemma {:induction false} OrphanReports(links: seq<ProcessLink>, ids: set<string>, e: ValidationError)
    ensures e in OrphanErrors(links, ids) <==>
      || (e.OrphanSource? && e.source !in ids && exists i | 0 <= i < |links| :: links[i].source == e.source)
      || (e.OrphanTarget? && e.target !in ids && exists i | 0 <= i < |links| :: links[i].target == e.target)
  {
    if |links| > 0 {
      var init := links[..|links| - 1];
      var last := links[|links| - 1];
      OrphanReports(init, ids, e);
      if e.OrphanSource? && e.source !in ids && !(e in OrphanErrors(init, ids)) && last.source != e.source {
        forall i | 0 <= i < |links| ensures links[i].source != e.source {
          if i < |init| {
            assert init[i] == links[i];
          }
        }
      }
      if e.OrphanTarget? && e.target !in ids && !(e in OrphanErrors(init, ids)) && last.target != e.target {
        forall i | 0 <= i < |links| ensures links[i].target != e.target {
          if i < |init| {
            assert init[i] == links[i];
          }
        }
      }
      if e.OrphanSource? && e in OrphanErrors(init, ids) {
        var i :| 0 <= i < |init| && init[i].source == e.source;
        assert links[i].source == e.source;
      }
      if e.OrphanTarget? && e in OrphanErrors(init, ids) {
        var i :| 0 <= i < |init| && init[i].target == e.target;
        assert links[i].target == e.target;
      }
    }
  }

  /** An error other than an orphaned endpoint comes from the checks outside the loop. */
  lemma OutsideLoop(d: Dataset, e: ValidationError)
    requires !e.OrphanSource? && !e.OrphanTarget?
    ensures e in ExpectedErrors(d) <==> e in ShapeErrors(d) || e in NumericErrors(d)
  {
    OrphanReports(d.links, NodeIdSet(d.nodes), e);
    InConcat(ShapeErrors(d), OrphanErrors(d.links, NodeIdSet(d.nodes)), NumericErrors(d), e);
  }

  lemma InConcat<T>(a: seq<T>, b: seq<T>, c: seq<T>, x: T)
    ensures x in a + b + c <==> x in a || x in b || x in c
  {
  }

  /** What the checks before the loop report. */
  lemma ShapeMembers(d: Dataset, e: ValidationError)
    ensures e in ShapeErrors(d) <==>
      || (e == ShortName && |d.name| < 3)
      || (e == TooFewNodes && |d.nodes| < 2)
      || (e == NoLinks && |d.links| == 0)
  {
    InConcat(if |d.name| < 3 then [ShortName] else [],
             if |d.nodes| < 2 then [TooFewNodes] else [],
             if |d.links| == 0 then [NoLinks] else [], e);
  }

  /** What the checks after the loop report. */
  lemma NumericMembers(d: Dataset, e: ValidationError)
    ensures e in NumericErrors(d) <==>
      || (e == NoCases && d.stats.cases <= 0)
      || (e == EfficiencyOutOfRange && (d.stats.efficiency < 0 || d.stats.efficiency > 100))
  {
    InConcat(if d.stats.cases <= 0 then [NoCases] else [],
             if d.stats.efficiency < 0 || d.stats.efficiency > 100 then [EfficiencyOutOfRange] else [],
             [], e);
  }

  /** A non-orphan error is reported exactly when its check fails. */
  lemma ReportedExactly(d: Dataset, e: ValidationError)
    requires !e.OrphanSource? && !e.OrphanTarget?
    ensures e in ExpectedErrors(d) <==>
      || (e == ShortName && |d.name| < 3)
      || (e == TooFewNodes && |d.nodes| < 2)
      || (e == NoLinks && |d.links| == 0)
      || (e == NoCases && d.stats.cases <= 0)
      || (e == EfficiencyOutOfRange && (d.stats.efficiency < 0 || d.stats.efficiency > 100))
  {
    OutsideLoop(d, e);
    ShapeMembers(d, e);
    NumericMembers(d, e);
  }

  /** The name, node and link checks report their error exactly when they fail. */
  lemma ShapeReports(d: Dataset)
    ensures ShortName in ExpectedErrors(d) <==> |d.name| < 3
    ensures TooFewNodes in ExpectedErrors(d) <==> |d.nodes| < 2
    ensures NoLinks in ExpectedErrors(d) <==> |d.links| == 0
  {
    ReportedExactly(d, ShortName);
    ReportedExactly(d, TooFewNodes);
    ReportedExactly(d, NoLinks);
  }

  /** The case and efficiency checks report their error exactly when they fail. */
  lemma NumericReports(d: Dataset)
    ensures NoCases in ExpectedErrors(d) <==> d.stats.cases <= 0
    ensures EfficiencyOutOfRange in ExpectedErrors(d) <==> d.stats.efficiency < 0 || d.stats.efficiency > 100
  {
    ReportedExactly(d, NoCases);
    ReportedExactly(d, EfficiencyOutOfRange);
  }

  /** In a dataset built by the parser from activities without "->", every link joins two
      nodes. */
  lemma ParsedLinksResolve(fileName: string, events: seq<Event>)
    requires |events| > 0
    requires forall e | e in events :: !Contains(e.activity, "->")
    ensures var d := Summarize(fileName, events);
      LinksResolve(d.links, NodeIdSet(d.nodes))
  {
    var d := Summarize(fileName, events);
    var ids := NodeIdSet(d.nodes);
    LinkEndpoints(fileName, events);
    ActivityNodes(fileName, events);
    forall i | 0 <= i < |d.links| ensures d.links[i].source in ids && d.links[i].target in ids {
      var x :| x in events && x.activity == d.links[i].source;
      var y :| y in events && y.activity == d.links[i].target;
      assert x.activity in NodeIds(d.nodes);
      assert y.activity in NodeIds(d.nodes);
      var j :| 0 <= j < |d.nodes| && NodeIds(d.nodes)[j] == x.activity;
      var k :| 0 <= k < |d.nodes| && NodeIds(d.nodes)[k] == y.activity;
      assert d.nodes[j].id == x.activity && d.nodes[k].id == y.activity;
    }
  }

  /** A parsed dataset has a link exactly when some case has more than one event. */
  lemma ParsedLinksPresent(fileName: string, events: seq<Event>)
    requires |events| > 0
    ensures var d := Summarize(fileName, events);
      |d.links| >= 1 <==> |events| > d.stats.cases
  {
    var keys := TransitionKeys(Cases(events));
    TransitionCount(Cases(events));
    CasesTotal(events);
    DistinctMembers(keys);
    if |keys| > 0 {
      assert keys[0] in Distinct(keys);
    }
  }

  /** A dataset built by the parser from activities without "->" always passes the link,
      case and efficiency checks, so it is valid exactly when its name has three characters,
      it has two activities, and some case has more than one event. */
  lemma ParsedDatasetValidity(fileName: string, events: seq<Event>)
    requires |events| > 0
    requires forall e | e in events :: !Contains(e.activity, "->")
    ensures var d := Summarize(fileName, events);
      ExpectedErrors(d) == [] <==>
        |DatasetName(fileName)| >= 3 && |d.nodes| >= 2 && |events| > d.stats.cases
  {
    var d := Summarize(fileName, events);
    ValidExactly(d);
    ParsedLinksResolve(fileName, events);
    ParsedLinksPresent(fileName, events);
    CaseFigures(fileName, events);
  }
}
