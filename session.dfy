/**
 * The mind map's state as a value, and one transition function per event
 * handler. Each function's contract says what the handler does to the state;
 * the lemmas at the end relate several handlers.
 */
module Session {
  import opened Wrappers
  import opened Graph

  /**
   * The application's state: the node table and id counter, the selected
   * node, the pending connection source, and the resize gesture
   * (`resizeStart` is the anchor point of the gesture).
   */
  datatype AppState = AppState(
    nodes: map<int, Node>,
    nextId: int,
    selected: Option<int>,
    connecting: Option<int>,
    resizeMode: bool,
    resizeStart: Option<(int, int)>)

  /** The state when the window opens. */
  const Initial := AppState(map[], 1, None, None, false, None)

  /**
   * What every reachable state satisfies: ids are exactly 1 .. nextId-1
   * (none is ever removed on its own), the store is well formed, the selection
   * and the pending source exist, and a resize anchor is present exactly while
   * a resize is in progress.
   */
  ghost predicate Inv(s: AppState) {
    && s.nextId >= 1
    && (forall k :: k in s.nodes <==> 1 <= k < s.nextId)
    && WellFormed(s.nodes)
    && (s.selected.Some? ==> s.selected.value in s.nodes)
    && (s.connecting.Some? ==> s.connecting.value in s.nodes)
    && (s.resizeMode <==> s.resizeStart.Some?)
  }

  lemma InitialInv()
    ensures Inv(Initial) && Initial.nodes == map[]
  {
  }

  /** Only the node table changed, and only the given node in it. */
  ghost predicate OnlyNodeChanged(s: AppState, r: AppState, id: int)
    requires id in s.nodes
  {
    && r.nodes.Keys == s.nodes.Keys
    && (forall k :: k in s.nodes && k != id ==> r.nodes[k] == s.nodes[k])
    && r.nextId == s.nextId
    && r.selected == s.selected
    && r.connecting == s.connecting
    && r.resizeMode == s.resizeMode
    && r.resizeStart == s.resizeStart
  }

  // ---------------------------------------------------------------------
  // Graph store commands

  /** add_node(x, y): stores a default node under the next id and advances the counter. */
  function AddNode(s: AppState, x: int, y: int): (r: AppState)
    requires Inv(s)
    ensures Inv(r)
    ensures s.nextId !in s.nodes
    ensures r.nodes.Keys == s.nodes.Keys + {s.nextId} && r.nextId == s.nextId + 1
    ensures forall k :: k in s.nodes ==> r.nodes[k] == s.nodes[k]
    ensures r.nodes[s.nextId] == Node(DefaultTitle(s.nextId), x, y, 100, 60, "white", [])
    ensures r.selected == s.selected && r.connecting == s.connecting
    ensures r.resizeMode == s.resizeMode && r.resizeStart == s.resizeStart
  {
    s.(nodes := s.nodes[s.nextId := NewNode(s.nextId, x, y)], nextId := s.nextId + 1)
  }

  /**
   * clear_all: with the user's confirmation the store is emptied, the counter
   * restarts at 1 and selection and connect mode end; the resize fields are
   * left as they are. Declined, nothing changes.
   */
  function ClearAll(s: AppState, confirmed: bool): (r: AppState)
    requires Inv(s)
    ensures Inv(r)
    ensures confirmed ==> r.nodes == map[] && r.nextId == 1 && r.selected == None && r.connecting == None
    ensures r.resizeMode == s.resizeMode && r.resizeStart == s.resizeStart
    ensures !confirmed ==> r == s
  {
    if confirmed then s.(nodes := map[], nextId := 1, selected := None, connecting := None) else s
  }

  // ---------------------------------------------------------------------
  // Selection and connections

  /** Whether selecting `id` completes a pending connection. */
  predicate Commits(s: AppState, id: int) {
    s.connecting.Some? && s.connecting.value != id
  }

  /**
   * select_node(id): the node becomes the selection. If a connection is
   * pending from another node, the arrow source -> id is added unless it
   * already exists, and connect mode ends; selecting the pending source itself
   * adds nothing and leaves connect mode pending.
   */
  function SelectNode(s: AppState, id: int): (r: AppState)
    requires Inv(s) && id in s.nodes
    ensures Inv(r)
    ensures r.selected == Some(id)
    ensures r.nextId == s.nextId && r.resizeMode == s.resizeMode && r.resizeStart == s.resizeStart
    ensures Commits(s, id) ==>
      var src := s.connecting.value;
      && r.connecting == None
      && r.nodes.Keys == s.nodes.Keys
      && (forall k :: k in s.nodes && k != src ==> r.nodes[k] == s.nodes[k])
      && r.nodes[src] == s.nodes[src].(connections := r.nodes[src].connections)
      && r.nodes[src].connections == Commit(s.nodes[src].connections, id)
    ensures !Commits(s, id) ==> r.connecting == s.connecting && r.nodes == s.nodes
  {
    var s1 := s.(selected := Some(id));
    if Commits(s, id) then
      s1.(nodes := Connect(s.nodes, s.connecting.value, id), connecting := None)
    else
      s1
  }

  /** start_connecting: the selected node, if any, becomes the pending source. */
  function StartConnecting(s: AppState): (r: AppState)
    requires Inv(s)
    ensures Inv(r)
    ensures s.selected.Some? ==> r.connecting == s.selected && r == s.(connecting := r.connecting)
    ensures s.selected.None? ==> r == s
  {
    if s.selected.Some? then s.(connecting := s.selected) else s
  }

  /**
   * on_canvas_click: a click that hits no canvas item ends the selection;
   * any other click leaves the state alone here.
   */
  function CanvasClick(s: AppState, hitNothing: bool): (r: AppState)
    requires Inv(s)
    ensures Inv(r)
    ensures hitNothing ==> r == s.(selected := None)
    ensures !hitNothing ==> r == s
  {
    if hitNothing && s.selected.Some? then s.(selected := None) else s
  }

  /**
   * on_right_click: a right click on a node selects it exactly as a left click
   * does, committing a pending connection (the menu itself is not modelled).
   */
  function RightClick(s: AppState, hit: Option<int>): (r: AppState)
    requires Inv(s) && (hit.Some? ==> hit.value in s.nodes)
    ensures Inv(r)
    ensures hit.Some? ==> r.selected == hit && r == SelectNode(s, hit.value)
    ensures hit.None? ==> r == s
  {
    if hit.Some? then SelectNode(s, hit.value) else s
  }

  // ---------------------------------------------------------------------
  // Moving and resizing

  /** The clamped new size: max(minimum, size + delta). */
  function Grow(minimum: int, size: int, delta: int): (r: int)
    ensures r >= minimum && r >= size + delta
    ensures r == minimum || r == size + delta
  {
    if size + delta < minimum then minimum else size + delta
  }

  /** start_resize(id, pointer): records the anchor, enters resize mode and selects the node. */
  function StartResize(s: AppState, id: int, px: int, py: int): (r: AppState)
    requires Inv(s) && id in s.nodes
    ensures Inv(r)
    ensures r.resizeMode && r.resizeStart == Some((px, py)) && r.selected == Some(id)
    ensures r.nodes == SelectNode(s, id).nodes && r.connecting == SelectNode(s, id).connecting
    ensures r.nextId == s.nextId
  {
    SelectNode(s.(resizeMode := true, resizeStart := Some((px, py))), id)
  }

  /** Whether a resize gesture is in progress (on_resize's guard). */
  predicate Resizing(s: AppState) {
    s.resizeMode && s.resizeStart.Some?
  }

  /**
   * on_resize(id, pointer): while resizing, grows the node by the pointer's
   * movement since the anchor, never below 100 x 60, and moves the anchor to
   * the pointer; otherwise does nothing.
   */
  function OnResize(s: AppState, id: int, px: int, py: int): (r: AppState)
    requires Inv(s) && id in s.nodes
    ensures Inv(r)
    ensures !Resizing(s) ==> r == s
    ensures Resizing(s) ==>
      var n := s.nodes[id];
      var (ax, ay) := s.resizeStart.value;
      && OnlyNodeChanged(s, r.(resizeStart := s.resizeStart), id)
      && r.resizeStart == Some((px, py))
      && r.nodes[id] == n.(width := r.nodes[id].width, height := r.nodes[id].height)
      && r.nodes[id].width == Grow(MinWidth, n.width, px - ax)
      && r.nodes[id].height == Grow(MinHeight, n.height, py - ay)
  {
    if Resizing(s) then
      var n := s.nodes[id];
      var (ax, ay) := s.resizeStart.value;
      var n' := n.(width := Grow(MinWidth, n.width, px - ax), height := Grow(MinHeight, n.height, py - ay));
      s.(nodes := s.nodes[id := n'], resizeStart := Some((px, py)))
    else
      s
  }

  /**
   * on_drag(pointer): with a node selected and no resize in progress, moves
   * the selected node's centre to the pointer; nothing else changes.
   */
  function OnDrag(s: AppState, px: int, py: int): (r: AppState)
    requires Inv(s)
    ensures Inv(r)
    ensures s.selected.Some? && !s.resizeMode ==>
      var id := s.selected.value;
      && OnlyNodeChanged(s, r, id)
      && r.nodes[id] == s.nodes[id].(x := px, y := py)
    ensures !(s.selected.Some? && !s.resizeMode) ==> r == s
  {
    if s.selected.Some? && !s.resizeMode then
      var id := s.selected.value;
      s.(nodes := s.nodes[id := s.nodes[id].(x := px, y := py)])
    else
      s
  }

  /** on_release: ends any resize gesture. */
  function OnRelease(s: AppState): (r: AppState)
    requires Inv(s)
    ensures Inv(r)
    ensures !r.resizeMode && r.resizeStart == None
    ensures r == s.(resizeMode := false, resizeStart := None)
  {
    s.(resizeMode := false, resizeStart := None)
  }

  // ---------------------------------------------------------------------
  // Editing

  /** on_text_changed(id): the text region's contents become the node's title. */
  function TextChanged(s: AppState, id: int, text: string): (r: AppState)
    requires Inv(s) && id in s.nodes
    ensures Inv(r)
    ensures OnlyNodeChanged(s, r, id) && r.nodes[id] == s.nodes[id].(title := text)
  {
    s.(nodes := s.nodes[id := s.nodes[id].(title := text)])
  }

  /**
   * change_node_color(id): the colour the dialog returned, unless it was
   * cancelled (`None`) or empty, becomes the node's colour.
   */
  function ChangeColor(s: AppState, id: int, chosen: Option<string>): (r: AppState)
    requires Inv(s) && id in s.nodes
    ensures Inv(r)
    ensures chosen.Some? && chosen.value != "" ==>
      OnlyNodeChanged(s, r, id) && r.nodes[id] == s.nodes[id].(color := chosen.value)
    ensures !(chosen.Some? && chosen.value != "") ==> r == s
  {
    if chosen.Some? && chosen.value != "" then
      s.(nodes := s.nodes[id := s.nodes[id].(color := chosen.value)])
    else
      s
  }

  // ---------------------------------------------------------------------
  // Properties relating several events

  /** A run of add_node calls at the given positions. */
  function AddNodes(s: AppState, positions: seq<(int, int)>): (r: AppState)
    requires Inv(s)
    ensures Inv(r)
    decreases |positions|
  {
    if positions == [] then s
    else AddNodes(AddNode(s, positions[0].0, positions[0].1), positions[1..])
  }

  /**
   * The i-th of a run of add_node calls stores a default node under
   * nextId + i; existing nodes are untouched.
   */
  lemma {:induction false} AddNodesNumbersInOrder(s: AppState, positions: seq<(int, int)>)
    requires Inv(s)
    ensures AddNodes(s, positions).nextId == s.nextId + |positions|
    ensures forall k :: k in s.nodes ==> AddNodes(s, positions).nodes[k] == s.nodes[k]
    ensures forall i :: 0 <= i < |positions| ==>
      AddNodes(s, positions).nodes[s.nextId + i] == NewNode(s.nextId + i, positions[i].0, positions[i].1)
    decreases |positions|
  {
    if positions != [] {
      var s1 := AddNode(s, positions[0].0, positions[0].1);
      var rest := positions[1..];
      var r := AddNodes(s1, rest);
      assert r == AddNodes(s, positions);
      AddNodesNumbersInOrder(s1, rest);
      assert s.nextId in s1.nodes;
      forall i | 1 <= i < |positions|
        ensures r.nodes[s.nextId + i] == NewNode(s.nextId + i, positions[i].0, positions[i].1)
      {
        assert rest[i - 1] == positions[i];
        assert s1.nextId + (i - 1) == s.nextId + i;
      }
    }
  }

  /**
   * From a fresh or cleared map, N add_node calls give the ids 1..N in call
   * order, each with title "Node {id}" and the default size and colour.
   */
  lemma FreshMapNumbersFromOne(s: AppState, positions: seq<(int, int)>)
    requires Inv(s) && s.nodes == map[]
    ensures forall k :: k in AddNodes(s, positions).nodes <==> 1 <= k <= |positions|
    ensures forall i :: 0 <= i < |positions| ==>
      AddNodes(s, positions).nodes[i + 1] == NewNode(i + 1, positions[i].0, positions[i].1)
  {
    assert s.nextId == 1 by {
      assert 1 !in s.nodes;
    }
    AddNodesNumbersInOrder(s, positions);
  }

  /** After a confirmed Clear All the next node is number 1 again. */
  lemma ClearThenAddStartsAtOne(s: AppState, x: int, y: int)
    requires Inv(s)
    ensures AddNode(ClearAll(s, true), x, y).nodes.Keys == {1}
    ensures AddNode(ClearAll(s, true), x, y).nodes[1].title == "Node 1"
  {
    assert DefaultTitle(1) == "Node " + Format.Decimal(1);
  }

  /**
   * Clicking the pending source itself adds no arrow and keeps connect mode
   * pending, so no self-loop can arise.
   */
  lemma SelectingPendingSourceAddsNoArrow(s: AppState)
    requires Inv(s) && s.connecting.Some?
    ensures SelectNode(s, s.connecting.value).nodes == s.nodes
    ensures SelectNode(s, s.connecting.value).connecting == s.connecting
  {
  }

  /** Select a, press Connect Nodes, select b. */
  function ConnectGesture(s: AppState, a: int, b: int): (r: AppState)
    requires Inv(s) && a in s.nodes && b in s.nodes
    ensures Inv(r)
  {
    SelectNode(StartConnecting(SelectNode(s, a)), b)
  }

  /**
   * Connecting a to b makes the arrow a -> b; doing it a second time changes
   * no node, so the arrow is present exactly once.
   */
  lemma ConnectingTwiceAddsOneArrow(s: AppState, a: int, b: int)
    requires Inv(s) && a in s.nodes && b in s.nodes && a != b
    ensures b in ConnectGesture(s, a, b).nodes[a].connections
    ensures ConnectGesture(s, a, b).nodes[a].connections ==
      Commit(SelectNode(s, a).nodes[a].connections, b)
    ensures ConnectGesture(ConnectGesture(s, a, b), a, b).nodes == ConnectGesture(s, a, b).nodes
  {
    var s1 := ConnectGesture(s, a, b);
    var t := StartConnecting(SelectNode(s1, a));
    assert t.nodes == s1.nodes;
    assert b in t.nodes[a].connections;
    var s2 := SelectNode(t, b);
    assert s2.nodes[a] == s1.nodes[a];
    assert s2.nodes == s1.nodes;
  }

  /** A stream of on_resize events on one node. */
  function ResizeMoves(s: AppState, id: int, moves: seq<(int, int)>): (r: AppState)
    requires Inv(s) && id in s.nodes
    ensures Inv(r) && id in r.nodes
    decreases |moves|
  {
    if moves == [] then s
    else ResizeMoves(OnResize(s, id, moves[0].0, moves[0].1), id, moves[1..])
  }

  /**
   * After any stream of resize moves the node is at least 100 x 60, the anchor
   * is the last pointer position, and the node has grown at least by the
   * pointer's total displacement from the original anchor. Outside a resize
   * gesture the moves change nothing.
   */
  lemma {:induction false} ResizeMovesBounds(s: AppState, id: int, moves: seq<(int, int)>)
    requires Inv(s) && id in s.nodes
    ensures !Resizing(s) ==> ResizeMoves(s, id, moves) == s
    ensures Resizing(s) && moves != [] ==>
      var r := ResizeMoves(s, id, moves);
      var last := moves[|moves| - 1];
      && Resizing(r)
      && r.resizeStart == Some(last)
      && r.nodes[id].width >= MinWidth
      && r.nodes[id].height >= MinHeight
      && r.nodes[id].width >= s.nodes[id].width + (last.0 - s.resizeStart.value.0)
      && r.nodes[id].height >= s.nodes[id].height + (last.1 - s.resizeStart.value.1)
    decreases |moves|
  {
    if moves != [] {
      var s1 := OnResize(s, id, moves[0].0, moves[0].1);
      ResizeMovesBounds(s1, id, moves[1..]);
      if Resizing(s) && |moves| > 1 {
        assert moves[1..][|moves[1..]| - 1] == moves[|moves| - 1];
      }
    }
  }

  /**
   * Resizing is incremental: as long as neither step is clamped, moving the
   * pointer to p and then to q leaves the same state as moving straight to q.
   */
  lemma ResizeIsIncremental(s: AppState, id: int, p: (int, int), q: (int, int))
    requires Inv(s) && id in s.nodes && Resizing(s)
    requires s.nodes[id].width + (p.0 - s.resizeStart.value.0) >= MinWidth
    requires s.nodes[id].height + (p.1 - s.resizeStart.value.1) >= MinHeight
    requires s.nodes[id].width + (q.0 - s.resizeStart.value.0) >= MinWidth
    requires s.nodes[id].height + (q.1 - s.resizeStart.value.1) >= MinHeight
    ensures OnResize(OnResize(s, id, p.0, p.1), id, q.0, q.1) == OnResize(s, id, q.0, q.1)
  {
  }
}
