/**
 * The selection the process graph view draws (`filteredData`) and its criticality rule.
 * The links are sorted by weight, heaviest first; the top share of them, set by the
 * simplification slider, is kept; the nodes kept are those touching a kept link, plus the
 * first and last node of the dataset, ranked by their position. The slider value is an
 * integer percentage.
 */
module ProcessGraph {
  import opened Wrappers
  import opened Sequences
  import opened ProcessTypes

  /** The slider's initial value, 0.85, as a percentage. */
  const DefaultSimplification: int := 85

  /** A node of the view: the dataset node, with the `rank` (and the equal `index`) the
      selection gives it; `None` when the selection leaves the nodes as they are. */
  datatype ViewNode = ViewNode(node: ProcessNode, rank: Option<int>)

  /** The nodes and links the graph is drawn from. */
  datatype GraphView = GraphView(nodes: seq<ViewNode>, links: seq<ProcessLink>)

  /** `Math.ceil(a / b)` for a positive divisor (Dafny's `/` rounds down for one). */
  function CeilDiv(a: int, b: int): (r: int)
    requires b > 0
    ensures (r - 1) * b < a <= r * b
  {
    -((-a) / b)
  }

  /** `Math.max(1, Math.ceil(s * n))` for `s` = `percent` / 100, the number of links kept. */
  function Limit(percent: int, n: int): int {
    var c := CeilDiv(percent * n, 100);
    if c < 1 then 1 else c
  }

  /** The sort key of `(a, b) => b.weight - a.weight`: the heaviest link first. */
  function Heaviness(l: ProcessLink): int { -l.weight }

  /** `[...dataset.links].sort(...)`: a sorted copy; the dataset is a value and is not changed. */
  function SortedLinks(links: seq<ProcessLink>): seq<ProcessLink> {
    InsertionSort(links, Heaviness)
  }

  /** `sortedLinks.slice(0, limit)`: a slice past the end stops at the end. */
  function ActiveLinks(links: seq<ProcessLink>, percent: int): seq<ProcessLink> {
    var sorted := SortedLinks(links);
    var limit := Limit(percent, |sorted|);
    if limit <= |sorted| then sorted[..limit] else sorted
  }

  /** The endpoints of the given links. */
  function Endpoints(links: seq<ProcessLink>): set<string> {
    (set i | 0 <= i < |links| :: links[i].source) + (set i | 0 <= i < |links| :: links[i].target)
  }

  /** `usedIds`: the endpoints of the kept links, plus the first and last node's id. */
  function UsedIds(nodes: seq<ProcessNode>, active: seq<ProcessLink>): set<string> {
    Endpoints(active) + (if |nodes| > 0 then {nodes[0].id, nodes[|nodes| - 1].id} else {})
  }

  /** `nodes.filter(n => usedIds.has(n.id))`. */
  function KeepNodes(nodes: seq<ProcessNode>, used: set<string>): seq<ProcessNode> {
    if |nodes| == 0 then []
    else KeepNodes(nodes[..|nodes| - 1], used) + (if nodes[|nodes| - 1].id in used then [nodes[|nodes| - 1]] else [])
  }

  /** `.map((n, i) => ({ ...n, rank: i, index: i }))`. */
  function Ranked(nodes: seq<ProcessNode>): seq<ViewNode> {
    seq(|nodes|, i requires 0 <= i < |nodes| => ViewNode(nodes[i], Some(i)))
  }

  /** The nodes as they are, with no rank. */
  function Unranked(nodes: seq<ProcessNode>): seq<ViewNode> {
    seq(|nodes|, i requires 0 <= i < |nodes| => ViewNode(nodes[i], None))
  }

  /** `filteredData` for the dataset and a simplification percentage. */
  function FilteredData(d: Dataset, percent: int): GraphView {
    if |d.links| == 0 then GraphView(Unranked(d.nodes), [])
    else
      var active := ActiveLinks(d.links, percent);
      GraphView(Ranked(KeepNodes(d.nodes, UsedIds(d.nodes, active))), active)
  }

  /** `d3.max(dataset.links, d => d.weight) || 1`: the largest weight over all links of the
      dataset, or 1 when there are none or the largest is 0. */
  function MaxWeight(links: seq<ProcessLink>): (r: int)
    ensures r != 0
    ensures |links| == 0 ==> r == 1
  {
    if |links| == 0 then 1
    else
      var m := LargestWeight(links);
      if m == 0 then 1 else m
  }

  /** The largest weight of a non-empty list. */
  function LargestWeight(links: seq<ProcessLink>): (m: int)
    requires |links| > 0
    ensures forall i | 0 <= i < |links| :: links[i].weight <= m
    ensures exists i | 0 <= i < |links| :: links[i].weight == m
  {
    if |links| == 1 then links[0].weight
    else
      var m := LargestWeight(links[..|links| - 1]);
      var w := links[|links| - 1].weight;
      assert forall i | 0 <= i < |links| - 1 :: links[..|links| - 1][i] == links[i];
      if w > m then w else m
  }

  /** `link.weight > maxWeight * 0.7`, in integers. */
  predicate IsCritical(weight: int, maxWeight: int) {
    10 * weight > 7 * maxWeight
  }

  // ---------------------------------------------------------------------------------------
  // Properties
  // ---------------------------------------------------------------------------------------

  /** With no links the view is every node, unranked, and no link. */
  lemma NoLinksView(d: Dataset, percent: int)
    requires |d.links| == 0
    ensures |FilteredData(d, percent).nodes| == |d.nodes|
    ensures forall i | 0 <= i < |d.nodes| :: FilteredData(d, percent).nodes[i] == ViewNode(d.nodes[i], None)
    ensures FilteredData(d, percent).links == []
  {
  }

  /** For a slider value in (0, 100] the view keeps between one link and all of them; at
      100 it keeps every link. */
  lemma LimitBounds(percent: int, n: int)
    requires 0 < percent <= 100 && n > 0
    ensures 1 <= Limit(percent, n) <= n
    ensures percent == 100 ==> Limit(percent, n) == n
  {
    var c := CeilDiv(percent * n, 100);
    assert percent * n <= 100 * n;
    assert (c - 1) * 100 < 100 * n;
  }

  /** The kept links are the dataset's links at the full setting, in weight order. */
  lemma FullSetting(d: Dataset)
    requires |d.links| > 0
    ensures multiset(FilteredData(d, 100).links) == multiset(d.links)
  {
    LimitBounds(100, |d.links|);
    InsertionSortPermutes(d.links, Heaviness);
    TakeAll(SortedLinks(d.links));
  }

  /** A larger share keeps at least as many links. */
  lemma LimitMonotone(p1: int, p2: int, n: int)
    requires p1 <= p2 && n >= 0
    ensures Limit(p1, n) <= Limit(p2, n)
  {
    var a, b := p1 * n, p2 * n;
    assert a <= b by {
      assert (p2 - p1) * n >= 0;
    }
    var c1, c2 := CeilDiv(a, 100), CeilDiv(b, 100);
    assert (c1 - 1) * 100 < a <= b <= c2 * 100;
  }

  /** The kept links at a smaller share are a prefix of the kept links at a larger one. */
  lemma ActiveLinksPrefix(links: seq<ProcessLink>, p1: int, p2: int)
    requires p1 <= p2
    ensures ActiveLinks(links, p1) <= ActiveLinks(links, p2)
  {
    LimitMonotone(p1, p2, |links|);
  }

  /** The kept links are in non-increasing weight order, and no dropped link is heavier than
      a kept one; they are links of the dataset. */
  lemma ActiveLinksHeaviest(links: seq<ProcessLink>, percent: int)
    ensures var active := ActiveLinks(links, percent);
      && (forall i, j | 0 <= i < j < |active| :: active[i].weight >= active[j].weight)
      && (forall i, j | 0 <= i < |active| <= j < |links| ::
            SortedLinks(links)[j].weight <= active[i].weight)
      && multiset(active) <= multiset(links)
  {
    var sorted := SortedLinks(links);
    InsertionSortSorted(links, Heaviness);
    InsertionSortPermutes(links, Heaviness);
    var active := ActiveLinks(links, percent);
    assert sorted == active + sorted[|active|..];
    assert forall i, j | 0 <= i < j < |sorted| :: Heaviness(sorted[i]) <= Heaviness(sorted[j]);
  }

  /** With links present, the view keeps at least one and at most all of them, heaviest
      first; every kept link is a dataset link, and a dataset link heavier than a kept one
      is kept too. */
  lemma FilteredLinks(d: Dataset, percent: int)
    requires |d.links| > 0
    ensures var v := FilteredData(d, percent);
      && 1 <= |v.links| <= |d.links|
      && (forall i, j | 0 <= i < j < |v.links| :: v.links[i].weight >= v.links[j].weight)
      && multiset(v.links) <= multiset(d.links)
      && (forall l, i | l in d.links && 0 <= i < |v.links| && l.weight > v.links[i].weight ::
            l in v.links)
  {
    var sorted := SortedLinks(d.links);
    var active := ActiveLinks(d.links, percent);
    ActiveLinksHeaviest(d.links, percent);
    InsertionSortPermutes(d.links, Heaviness);
    assert |sorted| == |d.links| by {
      assert |multiset(sorted)| == |multiset(d.links)|;
    }
    forall l, i | l in d.links && 0 <= i < |active| && l.weight > active[i].weight
      ensures l in active
    {
      assert l in multiset(sorted);
      var j :| 0 <= j < |sorted| && sorted[j] == l;
      assert j < |active|;
      assert active[j] == l;
    }
  }

  /** A node is kept exactly when it is a dataset node whose id is used. */
  lemma {:induction false} KeepNodesMembers(nodes: seq<ProcessNode>, used: set<string>, n: ProcessNode)
    ensures n in KeepNodes(nodes, used) <==> n in nodes && n.id in used
  {
    if |nodes| > 0 {
      var init := nodes[..|nodes| - 1];
      KeepNodesMembers(init, used, n);
      assert nodes == init + [nodes[|nodes| - 1]];
    }
  }

  /** The nodes kept from a prefix of the list are a prefix of the nodes kept: the filter
      keeps the dataset's order. */
  lemma {:induction false} KeepNodesPrefix(nodes: seq<ProcessNode>, used: set<string>, k: int)
    requires 0 <= k <= |nodes|
    ensures KeepNodes(nodes[..k], used) <= KeepNodes(nodes, used)
    decreases |nodes| - k
  {
    if k < |nodes| {
      var init := nodes[..|nodes| - 1];
      KeepNodesPrefix(init, used, k);
      assert init[..k] == nodes[..k];
    } else {
      TakeAll(nodes);
    }
  }

  /** With links present, the view's node list holds exactly the dataset nodes that touch a
      kept link or are the first or last node, each ranked by its position. */
  lemma ViewNodes(d: Dataset, percent: int)
    requires |d.links| > 0
    ensures var view := FilteredData(d, percent);
      && (forall i | 0 <= i < |view.nodes| :: view.nodes[i].rank == Some(i))
      && (forall n :: (exists i | 0 <= i < |view.nodes| :: view.nodes[i].node == n) <==>
            n in d.nodes && (n.id in Endpoints(view.links) || n.id == d.nodes[0].id || n.id == d.nodes[|d.nodes| - 1].id))
  {
    var view := FilteredData(d, percent);
    var kept := KeepNodes(d.nodes, UsedIds(d.nodes, view.links));
    forall n ensures (exists i | 0 <= i < |view.nodes| :: view.nodes[i].node == n) <==> n in kept {
      if n in kept {
        var i :| 0 <= i < |kept| && kept[i] == n;
        assert view.nodes[i].node == n;
      }
    }
    forall n ensures n in kept <==> n in d.nodes && n.id in UsedIds(d.nodes, view.links) {
      KeepNodesMembers(d.nodes, UsedIds(d.nodes, view.links), n);
    }
  }

  /** With links present, the first and the last node are always shown. */
  lemma AnchorsKept(d: Dataset, percent: int)
    requires |d.links| > 0 && |d.nodes| > 0
    ensures var view := FilteredData(d, percent);
      && (exists i | 0 <= i < |view.nodes| :: view.nodes[i].node == d.nodes[0])
      && (exists i | 0 <= i < |view.nodes| :: view.nodes[i].node == d.nodes[|d.nodes| - 1])
  {
    ViewNodes(d, percent);
    assert d.nodes[0] in d.nodes && d.nodes[|d.nodes| - 1] in d.nodes;
  }

  /** The heaviest link of a dataset with a positive largest weight is critical, and a
      critical link has a positive weight then. */
  lemma HeaviestIsCritical(links: seq<ProcessLink>)
    requires |links| > 0 && LargestWeight(links) > 0
    ensures exists i | 0 <= i < |links| :: IsCritical(links[i].weight, MaxWeight(links))
    ensures forall i | 0 <= i < |links| :: IsCritical(links[i].weight, MaxWeight(links)) ==> links[i].weight > 0
  {
    var i :| 0 <= i < |links| && links[i].weight == LargestWeight(links);
    assert IsCritical(links[i].weight, MaxWeight(links));
  }
}
