/**
 * The arrows update_connections redraws: one line per (source, target) pair
 * of the store, computed from both nodes' current placement. The endpoint
 * trigonometry is not modelled; a line records what it is computed from.
 */
module Connections {
  import opened Graph
  import opened Session

  datatype Line = Line(source: int, target: int, from: Placement, to: Placement)

  /** The lines of one node's arrows, in the order of its target list. */
  function NodeLines(nodes: map<int, Node>, id: int): seq<Line>
    requires WellFormed(nodes) && id in nodes
  {
    var n := nodes[id];
    assert NodeOk(nodes, id);
    assert forall j :: 0 <= j < |n.connections| ==> n.connections[j] in n.connections && n.connections[j] in nodes;
    seq(|n.connections|, j requires 0 <= j < |n.connections| && n.connections[j] in nodes =>
      Line(id, n.connections[j], n.Geometry(), nodes[n.connections[j]].Geometry()))
  }

  /** The lines of nodes 1 .. n-1, in id order (the dict's insertion order). */
  function LinesBelow(nodes: map<int, Node>, n: int): seq<Line>
    requires WellFormed(nodes) && forall k :: 1 <= k < n ==> k in nodes
    decreases n
  {
    if n <= 1 then [] else LinesBelow(nodes, n - 1) + NodeLines(nodes, n - 1)
  }

  /** Every line update_connections draws in state s, in drawing order. */
  function ConnectionLines(s: AppState): seq<Line>
    requires Inv(s)
  {
    LinesBelow(s.nodes, s.nextId)
  }

  /** The line is an arrow of the store, placed at both nodes' current geometry. */
  predicate IsCurrentLine(nodes: map<int, Node>, l: Line) {
    && l.source in nodes
    && l.target in nodes[l.source].connections
    && l.target in nodes
    && l.from == nodes[l.source].Geometry()
    && l.to == nodes[l.target].Geometry()
  }

  ghost predicate Drawn(lines: seq<Line>, source: int, target: int) {
    exists i :: 0 <= i < |lines| && lines[i].source == source && lines[i].target == target
  }

  lemma {:induction false} LinesBelowAreEdges(nodes: map<int, Node>, n: int)
    requires WellFormed(nodes) && forall k :: 1 <= k < n ==> k in nodes
    ensures forall i :: 0 <= i < |LinesBelow(nodes, n)| ==>
      1 <= LinesBelow(nodes, n)[i].source < n && IsCurrentLine(nodes, LinesBelow(nodes, n)[i])
    ensures forall src, t :: 1 <= src < n && t in nodes[src].connections ==> Drawn(LinesBelow(nodes, n), src, t)
    decreases n
  {
    if n > 1 {
      LinesBelowAreEdges(nodes, n - 1);
      var prev := LinesBelow(nodes, n - 1);
      var last := NodeLines(nodes, n - 1);
      var all := LinesBelow(nodes, n);
      assert all == prev + last;
      forall i | 0 <= i < |all|
        ensures 1 <= all[i].source < n && IsCurrentLine(nodes, all[i])
      {
        if i >= |prev| {
          var j := i - |prev|;
          assert all[i] == last[j];
          assert nodes[n - 1].connections[j] in nodes[n - 1].connections;
        } else {
          assert all[i] == prev[i];
        }
      }
      forall src, t | 1 <= src < n && t in nodes[src].connections
        ensures Drawn(all, src, t)
      {
        if src < n - 1 {
          assert Drawn(prev, src, t);
          var i :| 0 <= i < |prev| && prev[i].source == src && prev[i].target == t;
          assert all[i] == prev[i];
        } else {
          var j :| 0 <= j < |nodes[src].connections| && nodes[src].connections[j] == t;
          assert all[|prev| + j] == last[j];
        }
      }
    }
  }

  /**
   * The lines drawn are exactly the arrows of the store, each one placed at
   * the current geometry of its two nodes: no line is stale.
   */
  lemma ConnectionLinesAreEdges(s: AppState)
    requires Inv(s)
    ensures forall i :: 0 <= i < |ConnectionLines(s)| ==> IsCurrentLine(s.nodes, ConnectionLines(s)[i])
    ensures forall src, t :: Drawn(ConnectionLines(s), src, t) <==> src in s.nodes && t in s.nodes[src].connections
  {
    LinesBelowAreEdges(s.nodes, s.nextId);
  }

  /** After a drag, every line at the moved node starts or ends at the new centre. */
  lemma DragRedrawsLinesAtPointer(s: AppState, px: int, py: int)
    requires Inv(s) && s.selected.Some? && !s.resizeMode
    ensures var r := OnDrag(s, px, py); var id := s.selected.value;
      forall i :: 0 <= i < |ConnectionLines(r)| ==>
        (ConnectionLines(r)[i].source == id ==> ConnectionLines(r)[i].from.x == px && ConnectionLines(r)[i].from.y == py) &&
        (ConnectionLines(r)[i].target == id ==> ConnectionLines(r)[i].to.x == px && ConnectionLines(r)[i].to.y == py)
  {
    ConnectionLinesAreEdges(OnDrag(s, px, py));
  }
}
