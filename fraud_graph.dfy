/**
 * FraudGraph3D: the component's state (the loaded graph, the "only fraud"
 * checkbox, the clicked node), the `visibleGraph` filter, and the
 * decision functions behind node spheres, link colours and link widths.
 * Rendering, the camera and the layout engine are not modelled; the
 * layout engine's one visible effect, replacing a link's bare endpoint id
 * by the node object, is kept as the two kinds of endpoint.
 */
module FraudGraph {
  import opened Wrappers
  import opened JsValues

  datatype GraphNode = GraphNode(id: JsValue, isAnomalous: JsValue, color: string)

  /** A link end: a node object (after layout) or the bare id the backend sent. */
  datatype Endpoint = NodeRef(nodeId: JsValue) | BareId(id: JsValue)

  datatype Link = Link(source: Endpoint, target: Endpoint, amount: real)

  datatype Graph = Graph(nodes: seq<GraphNode>, links: seq<Link>)

  /** `Array.prototype.filter`. */
  function Filter<T>(s: seq<T>, p: T -> bool): seq<T> {
    if s == [] then []
    else (if p(s[0]) then [s[0]] else []) + Filter(s[1..], p)
  }

  /** Filtering keeps exactly the elements satisfying the predicate. */
  lemma {:induction false} FilterMembers<T>(s: seq<T>, p: T -> bool)
    ensures forall x :: x in Filter(s, p) <==> x in s && p(x)
    ensures |Filter(s, p)| <= |s|
  {
    if s != [] {
      FilterMembers(s[1..], p);
    }
  }

  /** Filtering commutes with concatenation, so it keeps the original order. */
  lemma {:induction false} FilterAppend<T>(a: seq<T>, b: seq<T>, p: T -> bool)
    ensures Filter(a + b, p) == Filter(a, p) + Filter(b, p)
  {
    if a == [] {
      assert a + b == b;
    } else {
      var head := if p(a[0]) then [a[0]] else [];
      calc {
        Filter(a + b, p);
        { assert (a + b)[0] == a[0]; assert (a + b)[1..] == a[1..] + b; }
        head + Filter(a[1..] + b, p);
        { FilterAppend(a[1..], b, p); }
        head + (Filter(a[1..], p) + Filter(b, p));
        (head + Filter(a[1..], p)) + Filter(b, p);
      }
    }
  }

  /** Two predicates that agree on the elements filter alike. */
  lemma {:induction false} FilterAgree<T>(s: seq<T>, p: T -> bool, q: T -> bool)
    requires forall i :: 0 <= i < |s| ==> p(s[i]) == q(s[i])
    ensures Filter(s, p) == Filter(s, q)
  {
    if s != [] {
      assert forall i :: 0 <= i < |s[1..]| ==> s[1..][i] == s[i + 1];
      FilterAgree(s[1..], p, q);
    }
  }

  /** `n.is_anomalous === 1`. */
  predicate Flagged(n: GraphNode) {
    StrictEq(n.isAnomalous, JNum(1))
  }

  /** `fraudIds`: the set of ids of flagged nodes. */
  function FraudIds(nodes: seq<GraphNode>): set<JsValue> {
    set n | n in nodes && Flagged(n) :: n.id
  }

  /** `typeof e === "object" ? e.id : e` raises only on a bare null (typeof null is "object"). */
  predicate Resolves(e: Endpoint) {
    !(e.BareId? && e.id.JNull?)
  }

  /** The id the filter reads from an endpoint. */
  function FilterId(e: Endpoint): JsValue {
    match e
    case NodeRef(id) => id
    case BareId(v) =>
      if v.JObject? then (if "id" in v.fields then v.fields["id"] else JUndefined)
      else if v.JArray? then JUndefined
      else v
  }

  /** The link filter's test: both ends are fraud ids. */
  predicate JoinsFraud(l: Link, ids: set<JsValue>) {
    FilterId(l.source) in ids && FilterId(l.target) in ids
  }

  /**
   * `visibleGraph`: null while nothing is loaded, the raw graph when the
   * filter is off, else the flagged nodes and the links between fraud ids.
   */
  function VisibleGraph(raw: Option<Graph>, showOnlyFraud: bool): Result<Option<Graph>, JsError> {
    if raw.None? then Ok(None)
    else if !showOnlyFraud then Ok(raw)
    else
      var ids := FraudIds(raw.value.nodes);
      if exists l :: l in raw.value.links && !(Resolves(l.source) && Resolves(l.target)) then Err(TypeError)
      else Ok(Some(Graph(
        Filter(raw.value.nodes, (n: GraphNode) => n.id in ids),
        Filter(raw.value.links, (l: Link) => JoinsFraud(l, ids)))))
  }

  /**
   * With the filter on, a visible node is a node sharing its id with a
   * flagged node, and a visible link is a link whose two ends are fraud
   * ids; both lists keep their original order. The filter fails only on a
   * bare null endpoint.
   */
  lemma VisibleFiltered(g: Graph)
    ensures VisibleGraph(Some(g), true).Err? <==>
      exists l :: l in g.links && !(Resolves(l.source) && Resolves(l.target))
    ensures VisibleGraph(Some(g), true).Ok? ==>
      var v := VisibleGraph(Some(g), true).value.value;
      var ids := FraudIds(g.nodes);
      && (forall n :: n in v.nodes <==> n in g.nodes && exists m :: m in g.nodes && Flagged(m) && m.id == n.id)
      && (forall l :: l in v.links <==> l in g.links && JoinsFraud(l, ids))
  {
    if VisibleGraph(Some(g), true).Ok? {
      var ids := FraudIds(g.nodes);
      FilterMembers(g.nodes, (n: GraphNode) => n.id in ids);
      FilterMembers(g.links, (l: Link) => JoinsFraud(l, ids));
    }
  }

  /** Nothing loaded shows nothing; with the filter off the raw graph shows unchanged. */
  lemma VisibleUnfiltered(raw: Option<Graph>, showOnlyFraud: bool)
    ensures raw.None? ==> VisibleGraph(raw, showOnlyFraud) == Ok(None)
    ensures !showOnlyFraud ==> VisibleGraph(raw, showOnlyFraud) == Ok(raw)
  {
  }

  predicate UniqueNodeIds(nodes: seq<GraphNode>) {
    forall i, j :: 0 <= i < j < |nodes| ==> nodes[i].id != nodes[j].id
  }

  /** With unique ids, the visible nodes are exactly the flagged ones, in order. */
  lemma FlaggedNodesOnly(g: Graph)
    requires UniqueNodeIds(g.nodes)
    requires VisibleGraph(Some(g), true).Ok?
    ensures VisibleGraph(Some(g), true).value.value.nodes == Filter(g.nodes, Flagged)
  {
    var ids := FraudIds(g.nodes);
    forall i | 0 <= i < |g.nodes|
      ensures (g.nodes[i].id in ids) == Flagged(g.nodes[i])
    {
      if g.nodes[i].id in ids {
        var m :| m in g.nodes && Flagged(m) && m.id == g.nodes[i].id;
        var j :| 0 <= j < |g.nodes| && g.nodes[j] == m;
        assert i == j;
      }
    }
    FilterAgree(g.nodes, (n: GraphNode) => n.id in ids, Flagged);
  }

  /** Every visible link joins two visible nodes. */
  lemma VisibleLinksJoinVisibleNodes(g: Graph)
    requires VisibleGraph(Some(g), true).Ok?
    ensures var v := VisibleGraph(Some(g), true).value.value;
      forall l :: l in v.links ==>
        (exists n :: n in v.nodes && n.id == FilterId(l.source)) &&
        (exists n :: n in v.nodes && n.id == FilterId(l.target))
  {
    var v := VisibleGraph(Some(g), true).value.value;
    var ids := FraudIds(g.nodes);
    VisibleFiltered(g);
    forall l | l in v.links
      ensures (exists n :: n in v.nodes && n.id == FilterId(l.source))
      ensures (exists n :: n in v.nodes && n.id == FilterId(l.target))
    {
      var s :| s in g.nodes && Flagged(s) && s.id == FilterId(l.source);
      var t :| t in g.nodes && Flagged(t) && t.id == FilterId(l.target);
      assert s in v.nodes && t in v.nodes;
    }
  }

  /** A node sphere: radius, emissive colour and its intensity. */
  datatype SphereStyle = SphereStyle(radius: nat, emissive: string, emissiveIntensity: real)

  /** `selectedNode?.id`. */
  function SelectedId(selected: JsValue): JsValue {
    if Nullish(selected) then JUndefined else Prop(selected, "id").value
  }

  /** `nodeThreeObject`: the alert colours size only; the selection sizes and lights. */
  function NodeStyle(node: GraphNode, selected: JsValue, alertedNodeId: JsValue): SphereStyle {
    var isSelected := StrictEq(SelectedId(selected), node.id);
    var isAlerted := StrictEq(alertedNodeId, node.id);
    SphereStyle(
      if isAlerted then 7 else if isSelected then 6 else 3,
      if isSelected then node.color else "#000000",
      if isSelected then 0.9 else 0.0)
  }

  /**
   * The radius is 7 for the alerted node, else 6 for the selected one, else
   * 3; the sphere glows in its own colour exactly when selected.
   */
  lemma NodeStyleRule(node: GraphNode, selected: JsValue, alertedNodeId: JsValue)
    ensures var st := NodeStyle(node, selected, alertedNodeId);
      var isSelected := StrictEq(SelectedId(selected), node.id);
      && (st.radius == 7 <==> StrictEq(alertedNodeId, node.id))
      && (st.radius == 6 <==> isSelected && !StrictEq(alertedNodeId, node.id))
      && (st.radius == 3 <==> !isSelected && !StrictEq(alertedNodeId, node.id))
      && (st.emissiveIntensity > 0.0 <==> isSelected)
      && (isSelected ==> st.emissive == node.color)
      && (!isSelected ==> st.emissive == "#000000")
  {
  }

  const GREY_STRONG := "rgba(180,180,180,0.35)"
  const GREY_FAINT := "rgba(180,180,180,0.15)"
  const RED := "rgba(255,80,80,0.9)"

  /** `link.source.id`: a node object's id; a bare id has no `id` property. */
  function EndId(e: Endpoint): Result<JsValue, JsError> {
    match e
    case NodeRef(id) => Ok(id)
    case BareId(v) => Prop(v, "id")
  }

  /** `nodes.find(n => n.id === id)`. */
  function Find(nodes: seq<GraphNode>, id: JsValue): (r: Option<GraphNode>)
    ensures r.Some? ==> r.value in nodes && StrictEq(r.value.id, id)
    ensures r.None? <==> forall n :: n in nodes ==> !StrictEq(n.id, id)
    ensures r.Some? ==> exists i :: (0 <= i < |nodes| && nodes[i] == r.value
      && forall j :: 0 <= j < i ==> !StrictEq(nodes[j].id, id))
  {
    if nodes == [] then None
    else if StrictEq(nodes[0].id, id) then Some(nodes[0])
    else
      var rest := Find(nodes[1..], id);
      assert rest.Some? ==> exists i :: (0 <= i < |nodes| && nodes[i] == rest.value
        && forall j :: 0 <= j < i ==> !StrictEq(nodes[j].id, id)) by {
        if rest.Some? {
          var k :| 0 <= k < |nodes[1..]| && nodes[1..][k] == rest.value
            && forall j :: 0 <= j < k ==> !StrictEq(nodes[1..][j].id, id);
          forall j | 0 <= j < k + 1 ensures !StrictEq(nodes[j].id, id) {
            if j > 0 { assert nodes[j] == nodes[1..][j - 1]; }
          }
          assert nodes[k + 1] == rest.value;
        }
      }
      rest
  }

  /** `linkColor`, against the visible nodes; `||` reads the target only when the source misses. */
  function LinkColor(activeNodeId: JsValue, link: Link, nodes: seq<GraphNode>): Result<string, JsError> {
    if !Truthy(activeNodeId) then Ok(GREY_STRONG)
    else
      var src := EndId(link.source);
      if src.Err? then Err(src.error)
      else
        var connected: Result<bool, JsError> :=
          if StrictEq(src.value, activeNodeId) then Ok(true)
          else
            var tgt := EndId(link.target);
            if tgt.Err? then Err(tgt.error) else Ok(StrictEq(tgt.value, activeNodeId));
        if connected.Err? then Err(connected.error)
        else if !connected.value then Ok(GREY_FAINT)
        else
          var found := Find(nodes, activeNodeId);
          if found.Some? && Truthy(found.value.isAnomalous) then Ok(RED)
          else Ok(GREY_STRONG)
  }

  /** A link touches a node through the `.id` of either end. */
  predicate Touches(link: Link, id: JsValue) {
    (EndId(link.source).Ok? && StrictEq(EndId(link.source).value, id)) ||
    (EndId(link.target).Ok? && StrictEq(EndId(link.target).value, id))
  }

  /**
   * With no active node (or a falsy id such as 0) every link is strong grey.
   * Otherwise a link that resolves is faint grey when it does not touch the
   * active node, red when it does and the first visible node with that id
   * is anomalous, and strong grey when it touches a node that is not.
   */
  lemma LinkColorRule(activeNodeId: JsValue, link: Link, nodes: seq<GraphNode>)
    ensures !Truthy(activeNodeId) ==> LinkColor(activeNodeId, link, nodes) == Ok(GREY_STRONG)
    ensures Truthy(activeNodeId) && EndId(link.source).Ok? && EndId(link.target).Ok? ==>
      && LinkColor(activeNodeId, link, nodes).Ok?
      && (LinkColor(activeNodeId, link, nodes).value == GREY_FAINT <==> !Touches(link, activeNodeId))
      && (LinkColor(activeNodeId, link, nodes).value == RED <==>
            Touches(link, activeNodeId) && exists n :: n in nodes && StrictEq(n.id, activeNodeId) && Truthy(Find(nodes, activeNodeId).value.isAnomalous))
  {
  }

  /** A link whose ends are both bare, non-null ids is never lit by the active node. */
  lemma BareLinksStayFaint(activeNodeId: JsValue, source: JsValue, target: JsValue, amount: real, nodes: seq<GraphNode>)
    requires Truthy(activeNodeId)
    requires !Nullish(source) && !source.JObject? && !Nullish(target) && !target.JObject?
    ensures LinkColor(activeNodeId, Link(BareId(source), BareId(target), amount), nodes) == Ok(GREY_FAINT)
  {
  }

  function Min(a: real, b: real): real {
    if a <= b then a else b
  }

  /** `e.id ?? e`, the value linkWidth compares: the id when there is one, else the end itself. */
  function WidthKey(e: Endpoint): Result<JsValue, JsError> {
    match e
    case NodeRef(id) => Ok(if Nullish(id) then JObject(map["id" := id]) else id)
    case BareId(v) =>
      var p := Prop(v, "id");
      if p.Err? then Err(p.error) else Ok(if Nullish(p.value) then v else p.value)
  }

  /**
   * `linkWidth`: with no selected node, the log of the amount capped at 1.2
   * (`log` is Math.log, a parameter here); else 2.5 for a link whose either
   * end is the selected node and 0.2 for the rest.
   */
  function LinkWidth(selected: JsValue, link: Link, log: real -> real): Result<real, JsError> {
    if !Truthy(selected) then Ok(Min(1.2, log(link.amount + 1.0)))
    else
      var src := WidthKey(link.source);
      var tgt := WidthKey(link.target);
      if src.Err? then Err(src.error)
      else if tgt.Err? then Err(tgt.error)
      else
        var id := Prop(selected, "id").value;
        Ok(if StrictEq(src.value, id) || StrictEq(tgt.value, id) then 2.5 else 0.2)
  }

  /**
   * With no selection the width is at most 1.2; with one, a link whose ends
   * resolve is 2.5 wide exactly when either end's id (or bare id) is the
   * selected node's id, and 0.2 otherwise.
   */
  lemma LinkWidthRule(selected: JsValue, link: Link, log: real -> real)
    ensures !Truthy(selected) ==> LinkWidth(selected, link, log).Ok? && LinkWidth(selected, link, log).value <= 1.2
    ensures Truthy(selected) && WidthKey(link.source).Ok? && WidthKey(link.target).Ok? ==>
      var id := SelectedId(selected);
      && LinkWidth(selected, link, log).Ok?
      && (LinkWidth(selected, link, log).value == 2.5 <==> StrictEq(WidthKey(link.source).value, id) || StrictEq(WidthKey(link.target).value, id))
      && (LinkWidth(selected, link, log).value == 0.2 <==> !(StrictEq(WidthKey(link.source).value, id) || StrictEq(WidthKey(link.target).value, id)))
  {
  }

  /** The component's state hooks. */
  class GraphView {
    var rawGraph: Option<Graph>
    var showOnlyFraud: bool
    var activeNodeId: JsValue

    /** `useState(null)`, `useState(false)`, `useState(null)`. */
    constructor()
      ensures rawGraph == None && !showOnlyFraud && activeNodeId == JNull
    {
      rawGraph := None;
      showOnlyFraud := false;
      activeNodeId := JNull;
    }

    /** What the component renders from. */
    function Visible(): Result<Option<Graph>, JsError>
      reads this
    {
      VisibleGraph(rawGraph, showOnlyFraud)
    }

    /**
     * `loadGraph`: a non-OK status or a body that is not JSON leaves the
     * graph as it was (the error is only logged); else the body replaces it.
     */
    method LoadGraph(ok: bool, body: Result<Option<Graph>, JsError>)
      modifies this`rawGraph
      ensures rawGraph == if ok && body.Ok? then body.value else old(rawGraph)
    {
      if ok && body.Ok? {
        rawGraph := body.value;
      }
    }

    /** The checkbox's `onChange`. */
    method SetShowOnlyFraud(checked: bool)
      modifies this`showOnlyFraud
      ensures showOnlyFraud == checked
    {
      showOnlyFraud := checked;
    }

    /**
     * `onNodeClick`: hands the node to `onNodeSelect` (returned here) and
     * makes it the active node; what is visible does not change.
     */
    method ClickNode(node: GraphNode) returns (handedOn: GraphNode)
      modifies this`activeNodeId
      ensures handedOn == node && activeNodeId == node.id
      ensures Visible() == old(Visible())
    {
      handedOn := node;
      activeNodeId := node.id;
    }
  }
}
