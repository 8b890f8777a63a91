/**
 * The graph store: nodes keyed by integer id, each with its title, centre,
 * size, colour and the ordered list of ids it has arrows to.
 */
module Graph {
  import opened Format

  const DefaultWidth := 100
  const DefaultHeight := 60
  const DefaultColor := "white"
  const MinWidth := 100
  const MinHeight := 60

  /** Where a node's box is: what a connection line is computed from. */
  datatype Placement = Placement(x: int, y: int, width: int, height: int)

  /**
   * A node. `connections` holds the ids of the targets of its outgoing
   * arrows in the order they were made.
   */
  datatype Node = Node(
    title: string,
    x: int,
    y: int,
    width: int,
    height: int,
    color: string,
    connections: seq<int>)
  {
    function Geometry(): Placement {
      Placement(x, y, width, height)
    }
  }

  /** The title a node gets when it is created: "Node {id}". */
  function DefaultTitle(id: int): string {
    "Node " + FormatInt(id)
  }

  lemma DefaultTitleInjective(a: int, b: int)
    ensures DefaultTitle(a) == DefaultTitle(b) ==> a == b
  {
    if DefaultTitle(a) == DefaultTitle(b) {
      assert DefaultTitle(a)[5..] == FormatInt(a);
      assert DefaultTitle(b)[5..] == FormatInt(b);
      FormatIntInjective(a, b);
    }
  }

  function NewNode(id: int, x: int, y: int): Node {
    Node(DefaultTitle(id), x, y, DefaultWidth, DefaultHeight, DefaultColor, [])
  }

  predicate NoDuplicates(s: seq<int>) {
    forall i, j :: 0 <= i < j < |s| ==> s[i] != s[j]
  }

  /**
   * The target list after committing an arrow to `target`: appended at the
   * end unless it is already there.
   */
  function Commit(conns: seq<int>, target: int): (r: seq<int>)
    ensures forall t :: t in r <==> t in conns || t == target
    ensures |conns| <= |r| <= |conns| + 1 && r[..|conns|] == conns
    ensures target in conns ==> r == conns
    ensures NoDuplicates(conns) ==> NoDuplicates(r)
  {
    if target in conns then conns else conns + [target]
  }

  lemma CommitIdempotent(conns: seq<int>, target: int)
    ensures Commit(Commit(conns, target), target) == Commit(conns, target)
  {
  }

  /** Committing to a target that is not yet listed lengthens the list by exactly that target. */
  lemma CommitAppends(conns: seq<int>, target: int)
    requires target !in conns
    ensures Commit(conns, target) == conns + [target]
  {
  }

  /** What every node of the store satisfies. */
  predicate NodeOk(nodes: map<int, Node>, id: int)
    requires id in nodes
  {
    var n := nodes[id];
    && n.width >= MinWidth
    && n.height >= MinHeight
    && NoDuplicates(n.connections)
    && (forall t :: t in n.connections ==> t in nodes && t != id)
  }

  predicate WellFormed(nodes: map<int, Node>) {
    forall id :: id in nodes ==> NodeOk(nodes, id)
  }

  /** Adds the arrow source -> target to the store (no-op if it is already there). */
  function Connect(nodes: map<int, Node>, source: int, target: int): (r: map<int, Node>)
    requires source in nodes
    ensures r.Keys == nodes.Keys
    ensures forall k :: k in nodes && k != source ==> r[k] == nodes[k]
    ensures r[source] == nodes[source].(connections := Commit(nodes[source].connections, target))
    ensures WellFormed(nodes) && target in nodes && target != source ==> WellFormed(r)
  {
    var n := nodes[source];
    nodes[source := n.(connections := Commit(n.connections, target))]
  }
}
