# Mind map editor: graph store and interaction state, in Dafny

This project models the state behind the Tk mind-map editor `mindmap_tk.py`.
The editor keeps a table of nodes keyed by integer id, together with the id
counter. Each node has a title, a centre, a size, a colour and an ordered list
of arrow targets. It also keeps a small interaction state: the selected node,
the pending source of a connection, and the current resize gesture with its
anchor point. The model covers every handler that changes that state, the
integer layout of a node's visuals, and the set of arrows that
`update_connections` redraws.

Modules:

- `Wrappers` (wrappers.dfy): `Option` for Python's value-or-`None` attributes.
- `Format` (format.dfy): Python's `str(int)`, used for the default title
  `"Node {id}"`. It comes with a parser and the round-trip and injectivity
  lemmas.
- `Layout` (layout.dfy): box corners `x ± width//2`, text cells
  `max(1, (size-8)//cell)` and the 6-px resize handle. Python's `//` with a
  positive divisor rounds toward negative infinity, and so does Dafny's `/`.
- `Graph` (graph.dfy): the `Node` record, the defaults (100×60, `"white"`),
  `Commit` (appending a target unless it is already listed) and the store's
  well-formedness.
- `Session` (session.dfy): the whole application state as a value `AppState`.
  It has one transition function per handler, each with a contract saying what
  that handler does. `Inv` is the invariant all of them preserve. The lemmas at
  the end of the file relate several events.
- `Connections` (connections.dfy): the lines `update_connections` draws. Each
  line is one (source, target) arrow, computed from both nodes' current
  placement.
- `App` (app.dfy): class `MindMapApp`. Its fields are the Python attributes.
  Each handler method updates them in place, and its contract proves the new
  state equals the matching `Session` transition applied to the old state.
  `UpdateConnections` is the nested loop over nodes and targets, proved to
  produce exactly `ConnectionLines`.

The invariant `Session.Inv` says:

- the ids in use are exactly `1 .. next_node_id-1`, because nodes are never
  deleted one by one;
- every arrow target is a stored node;
- no node has an arrow to itself;
- no target list has duplicates;
- every node is at least 100×60;
- the selected node and the pending source both exist;
- the resize anchor is present exactly while `resize_mode` is set.

Since ids are inserted in increasing order and never removed, the dict's
iteration order is ascending id. `UpdateConnections` therefore walks ids
`1 .. next_node_id-1` in that order.

Inputs the toolkit supplies are plain parameters:

- the pointer position;
- whether the click hit nothing;
- which node a right-click hit;
- the yes/no answer of the Clear All dialog;
- the colour dialog's result, as an `Option<string>`;
- the text region's contents when it loses focus;
- the position of a new node.

Behaviour of the code worth noting:

- A click on empty canvas only clears `selected_node`. A pending connection
  stays pending (`Session.CanvasClick`); it does not return the editor to a
  fully idle state.
- Clear All does not reset `resize_mode` or `resize_start` (`Session.ClearAll`).
- A connection to a missing id is never reached, because every id a handler
  receives comes from a drawn node. Handlers that index `self.nodes[...]`
  require the id to be present instead of ignoring it.
- `change_node_color` keeps the colour when the dialog returns `None` and also
  when it returns an empty string (Python's `if color:`).

## Model

| member | source | states |
|---|---|---|
| `Format.Decimal` | mindmap_tk.py:78 | the rendering of a natural number is a non-empty string of decimal digits with no leading zero |
| `Format.ParseDecimalOfDecimal` | mindmap_tk.py:78 | parsing the decimal rendering of n gives back n |
| `Format.ParseIntOfFormatInt` | mindmap_tk.py:78 | parsing `str(i)` gives back i, for negative i as well |
| `Format.FormatIntInjective` | mindmap_tk.py:78 | distinct integers render to distinct strings |
| `Graph.DefaultTitleInjective` | mindmap_tk.py:78 | distinct ids get distinct default titles `"Node {id}"` |
| `Layout.BoxCorners` | mindmap_tk.py:91-94 | the box is centred on (x, y), and for a non-negative size it spans width-1 or width pixels across (height likewise) |
| `Layout.TextColumns` | mindmap_tk.py:106-111 | the text width is at least one cell; it is the largest count of 8-px cells fitting in width-8, or 1 when fewer than 8 px remain |
| `Layout.TextRows` | mindmap_tk.py:106-112 | the text height is at least one line; it is the largest count of 20-px lines fitting in height-8, or 1 when fewer than 20 px remain |
| `Layout.HandleRect` | mindmap_tk.py:135-140 | the handle is a 6×6 square sharing the box's bottom-right corner |
| `Layout.ViewFitsBox` | mindmap_tk.py:90-140 | for a box larger than the handle: the handle lies inside the box, the padded text cells fit the box once there is room for one cell, and the text window is no wider and no taller than the drawn box |
| `Graph.Commit` | mindmap_tk.py:260-261 | committing keeps the old list as a prefix and adds at most one element; afterwards the target is listed; the list is unchanged if the target was already there; a duplicate-free list stays duplicate-free |
| `Graph.CommitIdempotent` | mindmap_tk.py:260-261 | committing the same arrow twice is the same as committing it once |
| `Graph.CommitAppends` | mindmap_tk.py:260-261 | a target not yet listed is appended at the end |
| `Graph.Connect` | mindmap_tk.py:255-262 | only the source's target list changes, and all ids stay the same; a well-formed store stays well formed when the target exists and differs from the source |
| `Session.InitialInv` | mindmap_tk.py:33-41 | the start-up state is empty and satisfies the invariant |
| `Session.AddNode` | mindmap_tk.py:70-84 | the new node is stored under the current counter, an id not in use, with title "Node {id}", size 100×60, white and no arrows; the counter goes up by one; nothing else changes |
| `Session.ClearAll` | mindmap_tk.py:323-330 | confirmed: no nodes, counter 1, no selection, no pending source, resize fields untouched; declined: no change |
| `Session.SelectNode` | mindmap_tk.py:244-266 | the node becomes selected; with a connection pending from another node, that source's list gets the target committed, no other node changes and connect mode ends; otherwise the nodes and connect mode stay as they were; the invariant (no self-loops, no duplicates) is preserved |
| `Session.StartConnecting` | mindmap_tk.py:305-309 | with a selection, the pending source becomes the selected node and nothing else changes; without one, nothing changes |
| `Session.CanvasClick` | mindmap_tk.py:332-339 | a click that hits nothing clears only the selection; any other click changes nothing |
| `Session.RightClick` | mindmap_tk.py:341-361 | a right click on a node has exactly the effect of selecting it: it becomes the selection, and a connection pending from another node is committed and connect mode ends; one that hits nothing changes nothing |
| `Session.Grow` | mindmap_tk.py:164-165 | the new size is the maximum of the minimum and size+delta |
| `Session.StartResize` | mindmap_tk.py:148-152 | resize mode is on, the anchor is the pointer, the node is selected; nodes and connect mode change exactly as selecting the node would change them |
| `Session.OnResize` | mindmap_tk.py:154-172 | while resizing, only the node's width and height change, to max(100, w+dx) and max(60, h+dy), and the anchor moves to the pointer; otherwise nothing changes |
| `Session.OnDrag` | mindmap_tk.py:287-298 | with a selection and no resize, only the selected node's centre changes, to the pointer position; otherwise nothing changes |
| `Session.OnRelease` | mindmap_tk.py:300-303 | resize mode and the anchor are cleared, and nothing else changes |
| `Session.TextChanged` | mindmap_tk.py:268-272 | only the node's title changes, to the text given |
| `Session.ChangeColor` | mindmap_tk.py:371-379 | a non-empty chosen colour replaces only that node's colour; a cancelled or empty choice changes nothing |
| `Session.AddNodes` | mindmap_tk.py:70-84 | the invariant holds after any run of add_node calls |
| `Session.AddNodesNumbersInOrder` | mindmap_tk.py:77-81 | the i-th call of a run stores a default node under nextId+i; existing nodes are untouched; the counter advances by the number of calls |
| `Session.FreshMapNumbersFromOne` | mindmap_tk.py:77-81 | from an empty map, N calls give exactly the ids 1..N in call order, each a default node at its position |
| `Session.ClearThenAddStartsAtOne` | mindmap_tk.py:325-330 | after a confirmed clear, the next node gets id 1 and title "Node 1" |
| `Session.SelectingPendingSourceAddsNoArrow` | mindmap_tk.py:255 | selecting the pending source leaves every node unchanged and keeps connect mode pending |
| `Session.ConnectGesture` | mindmap_tk.py:244-266 | the invariant holds after the gesture select a, Connect Nodes, select b |
| `Session.ConnectingTwiceAddsOneArrow` | mindmap_tk.py:255-265 | connecting a to b lists b in a's targets; repeating the gesture changes no node |
| `Session.ResizeMoves` | mindmap_tk.py:154-172 | the invariant holds after any stream of resize moves |
| `Session.ResizeMovesBounds` | mindmap_tk.py:156-172 | after any stream of moves: the node is at least 100×60, the anchor is the last pointer position, and the node has grown by at least the pointer's total displacement; outside a gesture the moves change nothing |
| `Session.ResizeIsIncremental` | mindmap_tk.py:160-172 | with no clamping, resizing to p and then to q equals resizing straight to q |
| `Connections.LinesBelowAreEdges` | mindmap_tk.py:318-321 | every line drawn for nodes below n is an arrow of the store at current geometry, and every arrow from such a node is drawn |
| `Connections.ConnectionLinesAreEdges` | mindmap_tk.py:311-321 | a (source, target) pair is drawn if and only if it is an arrow of the store, and every line carries both nodes' current placement |
| `Connections.DragRedrawsLinesAtPointer` | mindmap_tk.py:287-298 | after a drag, every line starting or ending at the moved node uses its new centre |
| `App.MindMapApp.constructor` | mindmap_tk.py:33-41 | the new application is in the start-up state |
| `App.MindMapApp.AddNode` | mindmap_tk.py:70-84 | the fields change as `Session.AddNode` says |
| `App.MindMapApp.SelectNode` | mindmap_tk.py:244-266 | the fields change as `Session.SelectNode` says |
| `App.MindMapApp.StartConnecting` | mindmap_tk.py:305-309 | the fields change as `Session.StartConnecting` says |
| `App.MindMapApp.StartResize` | mindmap_tk.py:148-152 | the fields change as `Session.StartResize` says |
| `App.MindMapApp.OnResize` | mindmap_tk.py:154-172 | the fields change as `Session.OnResize` says |
| `App.MindMapApp.OnDrag` | mindmap_tk.py:287-298 | the fields change as `Session.OnDrag` says |
| `App.MindMapApp.OnRelease` | mindmap_tk.py:300-303 | the fields change as `Session.OnRelease` says |
| `App.MindMapApp.ClearAll` | mindmap_tk.py:323-330 | the fields change as `Session.ClearAll` says |
| `App.MindMapApp.OnCanvasClick` | mindmap_tk.py:332-339 | the fields change as `Session.CanvasClick` says |
| `App.MindMapApp.OnRightClick` | mindmap_tk.py:341-361 | the fields change as `Session.RightClick` says |
| `App.MindMapApp.OnTextChanged` | mindmap_tk.py:268-272 | the fields change as `Session.TextChanged` says |
| `App.MindMapApp.ChangeNodeColor` | mindmap_tk.py:371-379 | the fields change as `Session.ChangeColor` says |
| `App.MindMapApp.UpdateConnections` | mindmap_tk.py:311-321 | the loop over nodes, in id order, and over their targets, in list order, draws exactly `ConnectionLines` of the current state |

## Left out

- Canvas and widget work: creating, moving and deleting rectangles, text windows and lines; outline highlighting; cursor changes; `tag_bind` wiring; the toolbar; posting the context menu; `main`. This is toolkit plumbing with no effect on the modelled state.
- Hit-testing with `find_overlapping` and `gettags`: its result is a handler parameter (`hitNothing`, `hit`).
- The order in which Tk fires the item and canvas bindings for a single event: each handler is modelled as one call.
- `on_double_click`: it only moves keyboard focus to a text widget and changes no modelled state.
- `Node.text_widget`: `draw_node` always sets it before any handler can run, so `if node.text_widget:` is taken as true.
- `add_node`'s default position, the canvas centre from `winfo_width()//2`: it depends on the window size, so the position is a parameter.
- The modal dialogs (`askyesno`, `askcolor`) and the text region's contents: they are parameters.
- Connections.ConnectionLinesAreEdges: a line records its two nodes' ids and placements, not its float endpoints. `draw_connection` computes those with `atan2`, `cos` and `sin`, and floating point is not modelled.
- Nodes are values in a map, and arrows store target ids instead of `Node` references. Python compares arrow targets by identity, and each id has its own object, so the two agree.
- The unused imports `json` and `simpledialog` are not modelled.
