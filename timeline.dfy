/** The timeline of packages/dashboard/src/components/TraceTimeline.tsx: `buildGraph`
    lays the tool calls out left to right as nodes joined by edges, dimming what lies
    past the replay step; `ToolNode` picks a node's look from its status; a click on a
    node toggles the selection. */
module Timeline {
  import opened Wrappers
  import opened Text
  import opened Rpc
  import opened Db
  import opened ToolCalls

  const NodeWidth: int := 200
  const NodeHeight: int := 80
  const GapX: int := 60
  const GapY: int := 30

  const DimmedStroke: string := "#333"
  const ErrorStroke: string := "#ef4444"
  const OkStroke: string := "#3b82f6"

  /** A node with its `ToolNodeData` and whether it is selected. */
  datatype Node = Node(
    id: string,
    x: int,
    y: int,
    methodName: string,
    latency: string,
    isError: bool,
    isPending: bool,
    dimmed: bool,
    index: nat,
    selected: bool)

  datatype Edge = Edge(id: string, source: string, target: string, animated: bool, stroke: string)

  /** Whether call `i` lies past the replay step. */
  predicate Dimmed(replayStep: Option<int>, i: nat) {
    replayStep.Some? && i > replayStep.value
  }

  /** Node `i` of the graph: `formatDuration` turns a latency into its label. */
  function NodeAt(calls: seq<ToolCall>, replayStep: Option<int>, formatDuration: int -> string, i: nat): Node
    requires i < |calls|
  {
    var c := calls[i];
    Node(c.id, i * (NodeWidth + GapX), GapY, c.methodName,
         if c.latencyMs.Some? then formatDuration(c.latencyMs.value) else "",
         c.isError, c.response.None?, Dimmed(replayStep, i), c.index,
         replayStep.Some? && i == replayStep.value)
  }

  /** The edge that enters node `i`, from node `i - 1`. */
  function EdgeInto(calls: seq<ToolCall>, replayStep: Option<int>, i: nat): Edge
    requires 0 < i < |calls|
  {
    var c := calls[i];
    var dimmed := Dimmed(replayStep, i);
    Edge("e-" + DecimalString(i - 1) + "-" + DecimalString(i), calls[i - 1].id, c.id,
         !dimmed && c.response.None?,
         if dimmed then DimmedStroke else if c.isError then ErrorStroke else OkStroke)
  }

  /** `buildGraph`: one node per call and one edge into every call but the first, in
      call order. */
  method BuildGraph(calls: seq<ToolCall>, replayStep: Option<int>, formatDuration: int -> string)
    returns (nodes: seq<Node>, edges: seq<Edge>)
    ensures |nodes| == |calls|
    ensures forall i :: 0 <= i < |calls| ==> nodes[i] == NodeAt(calls, replayStep, formatDuration, i)
    ensures |edges| == if |calls| == 0 then 0 else |calls| - 1
    ensures forall i :: 0 <= i < |edges| ==> edges[i] == EdgeInto(calls, replayStep, i + 1)
  {
    nodes := [];
    edges := [];
    var i := 0;
    while i < |calls|
      invariant 0 <= i <= |calls|
      invariant |nodes| == i
      invariant forall k :: 0 <= k < i ==> nodes[k] == NodeAt(calls, replayStep, formatDuration, k)
      invariant |edges| == if i == 0 then 0 else i - 1
      invariant forall k :: 0 <= k < |edges| ==> edges[k] == EdgeInto(calls, replayStep, k + 1)
    {
      ghost var nodes0, edges0 := nodes, edges;
      nodes, edges := AddCall(calls, replayStep, formatDuration, i, nodes, edges);
      NodesSnoc(calls, replayStep, formatDuration, nodes0);
      if i > 0 {
        EdgesSnoc(calls, replayStep, edges0, i);
      }
      i := i + 1;
    }
  }

  lemma NodesSnoc(calls: seq<ToolCall>, replayStep: Option<int>, formatDuration: int -> string, nodes: seq<Node>)
    requires |nodes| < |calls|
    requires forall k :: 0 <= k < |nodes| ==> nodes[k] == NodeAt(calls, replayStep, formatDuration, k)
    ensures var nodes' := nodes + [NodeAt(calls, replayStep, formatDuration, |nodes|)];
      forall k :: 0 <= k < |nodes'| ==> nodes'[k] == NodeAt(calls, replayStep, formatDuration, k)
  {
  }

  lemma EdgesSnoc(calls: seq<ToolCall>, replayStep: Option<int>, edges: seq<Edge>, i: nat)
    requires 0 < i < |calls| && |edges| == i - 1
    requires forall k :: 0 <= k < |edges| ==> edges[k] == EdgeInto(calls, replayStep, k + 1)
    ensures var edges' := edges + [EdgeInto(calls, replayStep, i)];
      forall k :: 0 <= k < |edges'| ==> edges'[k] == EdgeInto(calls, replayStep, k + 1)
  {
  }

  /** One turn of `buildGraph`'s loop: the node of call `i` and, past the first call, the
      edge into it. */
  method AddCall(calls: seq<ToolCall>, replayStep: Option<int>, formatDuration: int -> string, i: nat,
                 nodes: seq<Node>, edges: seq<Edge>)
    returns (nodes': seq<Node>, edges': seq<Edge>)
    requires i < |calls|
    ensures nodes' == nodes + [NodeAt(calls, replayStep, formatDuration, i)]
    ensures edges' == if i == 0 then edges else edges + [EdgeInto(calls, replayStep, i)]
  {
    var c := calls[i];
    var dimmed := replayStep.Some? && i > replayStep.value;
    var selected := replayStep.Some? && i == replayStep.value;
    nodes' := nodes + [Node(c.id, i * (NodeWidth + GapX), GapY, c.methodName,
                            if c.latencyMs.Some? then formatDuration(c.latencyMs.value) else "",
                            c.isError, c.response.None?, dimmed, c.index, selected)];
    edges' := edges;
    if i > 0 {
      edges' := edges + [Edge("e-" + DecimalString(i - 1) + "-" + DecimalString(i), calls[i - 1].id, c.id,
                              !dimmed && c.response.None?,
                              if dimmed then DimmedStroke else if c.isError then ErrorStroke else OkStroke)];
    }
  }

  /** The layout: a row at height 30, 260 apart, keeping each call's id and number. */
  lemma NodesInARow(calls: seq<ToolCall>, replayStep: Option<int>, formatDuration: int -> string, i: nat)
    requires i < |calls|
    ensures var n := NodeAt(calls, replayStep, formatDuration, i);
      n.id == calls[i].id && n.x == 260 * i && n.y == 30 && n.index == calls[i].index
  {
  }

  /** Edges chain the nodes in order: edge `i - 1` leaves node `i - 1` and enters node
      `i`, and no two edges share an id. */
  lemma EdgesChainNodes(calls: seq<ToolCall>, replayStep: Option<int>, formatDuration: int -> string, i: nat, j: nat)
    requires 0 < i < |calls| && 0 < j < |calls|
    ensures EdgeInto(calls, replayStep, i).source == NodeAt(calls, replayStep, formatDuration, i - 1).id
    ensures EdgeInto(calls, replayStep, i).target == NodeAt(calls, replayStep, formatDuration, i).id
    ensures EdgeInto(calls, replayStep, i).id == EdgeInto(calls, replayStep, j).id ==> i == j
  {
    if EdgeInto(calls, replayStep, i).id == EdgeInto(calls, replayStep, j).id {
      var a, b := DecimalString(i - 1), DecimalString(j - 1);
      assert "e-" + a + "-" + DecimalString(i) == "e-" + b + "-" + DecimalString(j);
      DashedPairInjective(a, DecimalString(i), b, DecimalString(j));
      DecimalInjective(i - 1, j - 1);
    }
  }

  /** The digits before the second dash of an edge id are read back unambiguously. */
  lemma DashedPairInjective(a: string, c: string, b: string, d: string)
    requires AllDigits(a) && AllDigits(b)
    requires "e-" + a + "-" + c == "e-" + b + "-" + d
    ensures a == b
  {
    var s, t := "e-" + a + "-" + c, "e-" + b + "-" + d;
    forall k | 0 <= k < |a| ensures s[2 + k] == a[k] {}
    forall k | 0 <= k < |b| ensures t[2 + k] == b[k] {}
    assert s[2 + |a|] == '-';
    assert t[2 + |b|] == '-';
    if |a| < |b| {
      assert false;
    } else if |b| < |a| {
      assert false;
    } else {
      assert s[2..2 + |a|] == a;
      assert t[2..2 + |b|] == b;
    }
  }

  /** Replay dims exactly the calls after the step and selects exactly the step; in live
      mode nothing is dimmed or selected. */
  lemma ReplayDimsTheFuture(calls: seq<ToolCall>, replayStep: Option<int>, formatDuration: int -> string, i: nat)
    requires i < |calls|
    ensures var n := NodeAt(calls, replayStep, formatDuration, i);
      && (n.dimmed <==> replayStep.Some? && i > replayStep.value)
      && (n.selected <==> replayStep == Some(i))
      && (replayStep.None? ==> !n.dimmed && !n.selected)
      && !(n.dimmed && n.selected)
  {
  }

  /** A node waits exactly when its call has no response, and shows no latency exactly
      when its call has none (a formatted duration is never empty). */
  lemma PendingAndLatency(calls: seq<ToolCall>, replayStep: Option<int>, formatDuration: int -> string, i: nat)
    requires i < |calls|
    requires calls[i].latencyMs.Some? ==> formatDuration(calls[i].latencyMs.value) != ""
    ensures var n := NodeAt(calls, replayStep, formatDuration, i);
      && (n.isPending <==> calls[i].response.None?)
      && (n.latency == "" <==> calls[i].latencyMs.None?)
  {
  }

  /** An edge runs its animation exactly when it enters a waiting call that is not
      dimmed; it is grey when dimmed, else red into an erroring call, else blue. */
  lemma EdgeLook(calls: seq<ToolCall>, replayStep: Option<int>, i: nat)
    requires 0 < i < |calls|
    ensures var e := EdgeInto(calls, replayStep, i);
      && (e.animated <==> !Dimmed(replayStep, i) && calls[i].response.None?)
      && (e.stroke == DimmedStroke <==> Dimmed(replayStep, i))
      && (e.stroke == ErrorStroke <==> !Dimmed(replayStep, i) && calls[i].isError)
  {
  }

  /** The status `ToolNode` draws, in order of precedence. */
  datatype Status = Failed | Waiting | Succeeded

  function StatusOf(n: Node): Status {
    if n.isError then Failed else if n.isPending then Waiting else Succeeded
  }

  /** The border class `ToolNode` gives a node. */
  function Border(n: Node): string {
    if n.isError then "border-error"
    else if n.isPending then "border-accent animate-pulse"
    else "border-success"
  }

  /** The background class `ToolNode` gives a node. */
  function Background(n: Node): string {
    if n.isError then "bg-error-dim" else if n.isPending then "bg-accent-dim" else "bg-success-dim"
  }

  /** Whether `ToolNode` adds the `node-error-pulse` class. */
  predicate Pulses(n: Node) {
    n.isError && !n.dimmed
  }

  /** The badges `ToolNode` shows, left to right, before the latency. */
  function Badges(n: Node): seq<string> {
    (if n.isError then ["ERROR"] else [])
    + (if n.isPending then ["pending..."] else [])
    + (if !n.isPending && !n.isError then ["OK"] else [])
  }

  /** The look follows the status: an error wins over waiting, which wins over success,
      "OK" shows exactly when the node neither failed nor waits, and only a failed node
      that is not dimmed pulses. */
  lemma LookFollowsStatus(n: Node)
    ensures Border(n) == (match StatusOf(n)
                          case Failed => "border-error"
                          case Waiting => "border-accent animate-pulse"
                          case Succeeded => "border-success")
    ensures Background(n) == (match StatusOf(n)
                              case Failed => "bg-error-dim"
                              case Waiting => "bg-accent-dim"
                              case Succeeded => "bg-success-dim")
    ensures ("OK" in Badges(n)) <==> StatusOf(n) == Succeeded
    ensures ("ERROR" in Badges(n)) <==> n.isError
    ensures Pulses(n) <==> StatusOf(n) == Failed && !n.dimmed
  {
  }

  /** On a timeline built from paired calls a node shows exactly one status badge: an
      erroring call always has its response, so it never also waits. */
  lemma OneBadgeForPairedCalls(calls: seq<ToolCall>, replayStep: Option<int>, formatDuration: int -> string,
                               i: nat, parse: Parser, ms: seq<MessageRow>, req: MessageRow, k: nat)
    requires i < |calls| && calls[i] == CallOf(parse, ms, req, k)
    ensures |Badges(NodeAt(calls, replayStep, formatDuration, i))| == 1
  {
    ErrorNeedsResponse(parse, ms, req, k);
  }

  /** `onNodeClick`: a click on the selected node clears the selection, a click on any
      other node selects it. */
  function Click(selectedCallId: Option<string>, nodeId: string): Option<string> {
    if selectedCallId == Some(nodeId) then None else Some(nodeId)
  }

  /** Clicking a node twice leaves the selection as it was when that node was selected
      or nothing was; the first click always selects or clears that node. */
  lemma ClickToggles(selectedCallId: Option<string>, nodeId: string)
    ensures Click(selectedCallId, nodeId) == None <==> selectedCallId == Some(nodeId)
    ensures Click(selectedCallId, nodeId) != None ==> Click(selectedCallId, nodeId) == Some(nodeId)
    ensures selectedCallId == None || selectedCallId == Some(nodeId) ==>
      Click(Click(selectedCallId, nodeId), nodeId) == selectedCallId
  {
  }
}
