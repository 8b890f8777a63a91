/**
 * MindMapApp: the application object whose event handlers update its fields
 * in place. Each handler is proved to take the state to what the matching
 * Session transition says; update_connections is a loop over all nodes and
 * their targets proved to draw exactly ConnectionLines.
 */
module App {
  import opened Wrappers
  import opened Graph
  import opened Session
  import opened Connections

  class MindMapApp {
    var nodes: map<int, Node>
    var nextNodeId: int
    var selectedNode: Option<int>
    var connectingSource: Option<int>
    var resizeMode: bool
    var resizeStart: Option<(int, int)>

    function State(): AppState
      reads this
    {
      AppState(nodes, nextNodeId, selectedNode, connectingSource, resizeMode, resizeStart)
    }

    ghost predicate Valid()
      reads this
    {
      Inv(State())
    }

    constructor ()
      ensures Valid() && State() == Initial
    {
      nodes := map[];
      nextNodeId := 1;
      selectedNode := None;
      connectingSource := None;
      resizeMode := false;
      resizeStart := None;
    }

    method AddNode(x: int, y: int)
      requires Valid()
      modifies this
      ensures Valid() && State() == Session.AddNode(old(State()), x, y)
    {
      var node := NewNode(nextNodeId, x, y);
      var nodeId := nextNodeId;
      nodes := nodes[nodeId := node];
      nextNodeId := nextNodeId + 1;
    }

    method SelectNode(nodeId: int)
      requires Valid() && nodeId in nodes
      modifies this
      ensures Valid() && State() == Session.SelectNode(old(State()), nodeId)
    {
      selectedNode := Some(nodeId);
      if connectingSource.Some? && connectingSource.value != nodeId {
        var sourceId := connectingSource.value;
        var source := nodes[sourceId];
        if nodeId !in source.connections {
          nodes := nodes[sourceId := source.(connections := source.connections + [nodeId])];
        }
        connectingSource := None;
      }
    }

    method StartConnecting()
      requires Valid()
      modifies this
      ensures Valid() && State() == Session.StartConnecting(old(State()))
    {
      if selectedNode.Some? {
        connectingSource := selectedNode;
      }
    }

    method StartResize(nodeId: int, px: int, py: int)
      requires Valid() && nodeId in nodes
      modifies this
      ensures Valid() && State() == Session.StartResize(old(State()), nodeId, px, py)
    {
      resizeMode := true;
      resizeStart := Some((px, py));
      SelectNode(nodeId);
    }

    method OnResize(nodeId: int, px: int, py: int)
      requires Valid() && nodeId in nodes
      modifies this
      ensures Valid() && State() == Session.OnResize(old(State()), nodeId, px, py)
    {
      if resizeMode && resizeStart.Some? {
        var node := nodes[nodeId];
        var dx := px - resizeStart.value.0;
        var dy := py - resizeStart.value.1;
        var width := if node.width + dx < MinWidth then MinWidth else node.width + dx;
        var height := if node.height + dy < MinHeight then MinHeight else node.height + dy;
        nodes := nodes[nodeId := node.(width := width, height := height)];
        resizeStart := Some((px, py));
      }
    }

    method OnDrag(px: int, py: int)
      requires Valid()
      modifies this
      ensures Valid() && State() == Session.OnDrag(old(State()), px, py)
    {
      if selectedNode.Some? && !resizeMode {
        var id := selectedNode.value;
        nodes := nodes[id := nodes[id].(x := px, y := py)];
      }
    }

    method OnRelease()
      requires Valid()
      modifies this
      ensures Valid() && State() == Session.OnRelease(old(State()))
    {
      resizeMode := false;
      resizeStart := None;
    }

    /** `confirmed` is the answer of the yes/no dialog. */
    method ClearAll(confirmed: bool)
      requires Valid()
      modifies this
      ensures Valid() && State() == Session.ClearAll(old(State()), confirmed)
    {
      if confirmed {
        nodes := map[];
        nextNodeId := 1;
        selectedNode := None;
        connectingSource := None;
      }
    }

    /** `hitNothing` says whether the small box around the pointer overlaps no canvas item. */
    method OnCanvasClick(hitNothing: bool)
      requires Valid()
      modifies this
      ensures Valid() && State() == Session.CanvasClick(old(State()), hitNothing)
    {
      if hitNothing {
        if selectedNode.Some? {
          selectedNode := None;
        }
      }
    }

    /** `hit` is the node under the pointer, if any. */
    method OnRightClick(hit: Option<int>)
      requires Valid() && (hit.Some? ==> hit.value in nodes)
      modifies this
      ensures Valid() && State() == Session.RightClick(old(State()), hit)
    {
      if hit.Some? {
        SelectNode(hit.value);
      }
    }

    /** `text` is the contents of the node's text region when it loses focus. */
    method OnTextChanged(nodeId: int, text: string)
      requires Valid() && nodeId in nodes
      modifies this
      ensures Valid() && State() == Session.TextChanged(old(State()), nodeId, text)
    {
      var node := nodes[nodeId];
      nodes := nodes[nodeId := node.(title := text)];
    }

    /** `chosen` is the colour dialog's result, `None` when it was cancelled. */
    method ChangeNodeColor(nodeId: int, chosen: Option<string>)
      requires Valid() && nodeId in nodes
      modifies this
      ensures Valid() && State() == Session.ChangeColor(old(State()), nodeId, chosen)
    {
      var node := nodes[nodeId];
      if chosen.Some? && chosen.value != "" {
        nodes := nodes[nodeId := node.(color := chosen.value)];
      }
    }

    /** The lines update_connections draws, in drawing order. */
    method UpdateConnections() returns (lines: seq<Line>)
      requires Valid()
      ensures lines == ConnectionLines(State())
    {
      lines := [];
      var id := 1;
      while id < nextNodeId
        invariant 1 <= id <= nextNodeId
        invariant lines == LinesBelow(nodes, id)
      {
        var node := nodes[id];
        assert NodeOk(nodes, id);
        var j := 0;
        while j < |node.connections|
          invariant 0 <= j <= |node.connections|
          invariant lines == LinesBelow(nodes, id) + NodeLines(nodes, id)[..j]
        {
          var target := node.connections[j];
          assert target in node.connections;
          lines := lines + [Line(id, target, node.Geometry(), nodes[target].Geometry())];
          assert NodeLines(nodes, id)[..j + 1] == NodeLines(nodes, id)[..j] + [NodeLines(nodes, id)[j]];
          j := j + 1;
        }
        assert NodeLines(nodes, id)[..j] == NodeLines(nodes, id);
        id := id + 1;
      }
    }
  }
}
