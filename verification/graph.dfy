/** The state a run accumulates: the graph built through the graph library and
    the plugin's own registry of subgraph parents (gcc-ompinfo.c, globals at
    lines 21-32, new_subgraph, mk_omp_node, mk_omp_for_node).

    The graph library is a foreign collaborator; creating a subgraph or a node
    is modelled as taking a fresh handle and recording what it was created
    with. The registry stands in for the parent query the library lacks: it is
    written only when a subgraph is created and read only when a region is
    closed. */
module Graph {
  import opened Wrappers
  import opened Names
  import opened Markers

  type Handle = nat

  /** The root graph opened at plugin start-up. */
  const Root: Handle := 0

  /** First construct id of a run (`omp_constructs_cnt` starts at 1). */
  const InitialCounter: nat := 1

  /** What a subgraph was created for: one procedure, or the region opened by
      the marker with the given id. */
  datatype Origin = ProcedureOf(fn: string) | RegionOf(marker: Marker, id: nat)

  datatype Sub = Sub(parent: Handle, origin: Origin)

  /** A node is either the entry node of a procedure or the node of one
      construct, which carries the construct's marker and global id. */
  datatype Kind = Entry(fn: string) | Construct(marker: Marker, id: nat)

  datatype Node = Node(container: Handle, kind: Kind, recordLabel: Option<string>)

  /** A kind whose name the builders can form: entry nodes, and constructs
      whose marker is in the dispatch table. */
  predicate Named(k: Kind) {
    k.Construct? ==> ClassOf(k.marker) != Invalid
  }

  /** The name the graph library receives for a node (mk_entry_node,
      mk_omp_node, mk_omp_for_node). */
  function NodeNameOf(k: Kind): string
    requires Named(k)
  {
    match k
    case Entry(fn) => EntryNodeName(fn)
    case Construct(m, id) =>
      if m.For? then ForNodeName(id)
      else RecognisedNamesLongEnough(m); NodeName(CodeName(m), id)
  }

  /** The name the graph library receives for a subgraph (mk_function_subgraph,
      mk_omp_subgraph). */
  function SubgraphNameOf(o: Origin): string
    requires o.RegionOf? ==> ClassOf(o.marker) != Invalid
  {
    match o
    case ProcedureOf(fn) => FunctionSubgraphName(fn)
    case RegionOf(m, id) => RecognisedNamesLongEnough(m); SubgraphName(CodeName(m), id)
  }

  datatype Session = Session(
    counter: nat,                      // next construct id
    nextHandle: nat,                        // next unused handle
    registry: map<Handle, Handle>,     // subgraph -> parent subgraph
    subgraphs: map<Handle, Sub>,
    nodes: map<Handle, Node>,
    edges: set<(Handle, Handle)>)

  /** The state before the first procedure: an empty root graph and registry. */
  function Initial(): (s: Session)
    ensures Valid(s)
    ensures s.counter == InitialCounter
  {
    Session(InitialCounter, 1, map[], map[], map[], {})
  }

  predicate IsGraph(s: Session, h: Handle) {
    h == Root || h in s.subgraphs
  }

  /** Creates a subgraph of `parent` and records `parent` in the registry. */
  function NewSubgraph(s: Session, parent: Handle, origin: Origin): (Handle, Session) {
    var g := s.nextHandle;
    (g, s.(nextHandle := g + 1,
           subgraphs := s.subgraphs[g := Sub(parent, origin)],
           registry := s.registry[g := parent]))
  }

  /** Creates a node inside `container` and, when there is an anchor, an edge
      from the anchor to the new node. */
  function NewNode(s: Session, container: Handle, kind: Kind,
                   recordLabel: Option<string>, anchor: Option<Handle>): (Handle, Session)
  {
    var n := s.nextHandle;
    (n, s.(nextHandle := n + 1,
           nodes := s.nodes[n := Node(container, kind, recordLabel)],
           edges := if anchor.Some? then s.edges + {(anchor.value, n)} else s.edges))
  }

  /** Registry lookup: the parent a subgraph was created with, if it is registered. */
  function ParentOf(s: Session, g: Handle): Option<Handle> {
    if g in s.registry then Some(s.registry[g]) else None
  }

  // ---------------------------------------------------------------------------
  // Invariant of the accumulated state

  /** Entry nodes come before everything; construct nodes are ordered by id. */
  ghost predicate Precedes(a: Kind, b: Kind) {
    a.Entry? || (b.Construct? && a.id < b.id)
  }

  ghost predicate HandlesFresh(s: Session) {
    && 0 < s.nextHandle
    && (forall g :: g in s.subgraphs ==> 0 < g < s.nextHandle)
    && (forall n :: n in s.nodes ==> 0 < n < s.nextHandle)
    && (forall g :: g in s.subgraphs ==> g !in s.nodes)
  }

  /** The registry holds exactly the subgraphs, each with the parent it was created under. */
  ghost predicate RegistryMirrors(s: Session) {
    && s.registry.Keys == s.subgraphs.Keys
    && (forall g :: g in s.registry ==> s.registry[g] == s.subgraphs[g].parent)
  }

  ghost predicate Placed(s: Session) {
    && (forall g :: g in s.subgraphs ==> IsGraph(s, s.subgraphs[g].parent))
    && (forall n :: n in s.nodes ==> IsGraph(s, s.nodes[n].container))
  }

  /** Every edge ends at a construct node and goes forward in id order. */
  ghost predicate EdgesForward(s: Session) {
    forall a, b :: (a, b) in s.edges ==>
      a in s.nodes && b in s.nodes && s.nodes[b].kind.Construct?
      && Precedes(s.nodes[a].kind, s.nodes[b].kind)
  }

  ghost predicate HasIncoming(s: Session, n: Handle) {
    exists a :: (a, n) in s.edges
  }

  /** Every construct node has exactly one incoming edge. */
  ghost predicate OneIncoming(s: Session) {
    && (forall n :: n in s.nodes && s.nodes[n].kind.Construct? ==> HasIncoming(s, n))
    && (forall a1, a2, b :: (a1, b) in s.edges && (a2, b) in s.edges ==> a1 == a2)
  }

  ghost predicate IdUsed(s: Session, k: nat) {
    exists n :: n in s.nodes && s.nodes[n].kind.Construct? && s.nodes[n].kind.id == k
  }

  /** The construct ids are exactly InitialCounter .. next - 1, each used once. */
  ghost predicate IdsExact(s: Session, next: nat) {
    && (forall n :: n in s.nodes && s.nodes[n].kind.Construct? ==>
          InitialCounter <= s.nodes[n].kind.id < next)
    && (forall n1, n2 :: n1 in s.nodes && n2 in s.nodes && n1 != n2
          && s.nodes[n1].kind.Construct? && s.nodes[n2].kind.Construct?
          ==> s.nodes[n1].kind.id != s.nodes[n2].kind.id)
    && (forall k: nat :: InitialCounter <= k < next ==> IdUsed(s, k))
  }

  /** Every node has a name: construct nodes come from markers in the dispatch table. */
  ghost predicate AllNamed(s: Session) {
    forall n :: n in s.nodes ==> Named(s.nodes[n].kind)
  }

  /** Handles, registry and placement. */
  ghost predicate Shape(s: Session) {
    HandlesFresh(s) && RegistryMirrors(s) && Placed(s)
  }

  /** Edges, ids and names of the nodes. */
  ghost predicate NodesSound(s: Session, next: nat) {
    EdgesForward(s) && OneIncoming(s) && IdsExact(s, next) && AllNamed(s)
  }

  /** The invariant with `next` as the next construct id to hand out. */
  ghost predicate ValidAt(s: Session, next: nat) {
    Shape(s) && NodesSound(s, next)
  }

  ghost predicate Valid(s: Session) {
    InitialCounter <= s.counter && ValidAt(s, s.counter)
  }

  /** Nothing recorded is ever removed or changed; only additions happen. */
  ghost predicate Grows(s: Session, t: Session) {
    && s.counter <= t.counter
    && s.nextHandle <= t.nextHandle
    && (forall g :: g in s.registry ==> g in t.registry && t.registry[g] == s.registry[g])
    && (forall g :: g in s.subgraphs ==> g in t.subgraphs && t.subgraphs[g] == s.subgraphs[g])
    && (forall n :: n in s.nodes ==> n in t.nodes && t.nodes[n] == s.nodes[n])
    && s.edges <= t.edges
  }

  lemma GrowsTrans(a: Session, b: Session, c: Session)
    requires Grows(a, b) && Grows(b, c)
    ensures Grows(a, c)
  {
  }

  // ---------------------------------------------------------------------------
  // The primitive operations keep the invariant

  /** A new subgraph gets a handle nothing else has, and its registry entry is
      added without overwriting any other. */
  lemma NewSubgraphKeeps(s: Session, next: nat, parent: Handle, origin: Origin)
    requires ValidAt(s, next)
    requires IsGraph(s, parent)
    ensures var (g, t) := NewSubgraph(s, parent, origin);
      && ValidAt(t, next)
      && g != Root && g !in s.subgraphs && g !in s.nodes && g !in s.registry
      && t.registry == s.registry[g := parent]
      && t.subgraphs.Keys == s.subgraphs.Keys + {g}
      && t.subgraphs[g] == Sub(parent, origin)
      && t.nodes == s.nodes && t.edges == s.edges && t.counter == s.counter
      && Grows(s, t)
  {
    var (g, t) := NewSubgraph(s, parent, origin);
    AddSubgraphShape(s, t, g, Sub(parent, origin));
    SameNodesSound(s, t, next);
  }

  lemma AddSubgraphShape(s: Session, t: Session, g: Handle, sub: Sub)
    requires Shape(s) && IsGraph(s, sub.parent) && g == s.nextHandle
    requires t == s.(nextHandle := g + 1, subgraphs := s.subgraphs[g := sub],
                     registry := s.registry[g := sub.parent])
    ensures Shape(t)
  {
    assert t.registry.Keys == t.subgraphs.Keys;
  }

  lemma SameNodesSound(s: Session, t: Session, next: nat)
    requires NodesSound(s, next)
    requires t.nodes == s.nodes && t.edges == s.edges
    ensures NodesSound(t, next)
  {
    assert forall k: nat :: IdUsed(s, k) ==> IdUsed(t, k);
  }

  lemma AddNodeShape(s: Session, t: Session, n: Handle, node: Node)
    requires Shape(s) && IsGraph(s, node.container) && n == s.nextHandle
    requires t.nextHandle == n + 1 && t.nodes == s.nodes[n := node]
    requires t.subgraphs == s.subgraphs && t.registry == s.registry
    ensures Shape(t)
  {
  }

  /** A procedure entry node gets a fresh handle and no edge. */
  lemma NewEntryKeeps(s: Session, next: nat, container: Handle, fn: string)
    requires ValidAt(s, next)
    requires IsGraph(s, container)
    ensures var (n, t) := NewNode(s, container, Entry(fn), None, None);
      && ValidAt(t, next)
      && n !in s.nodes && n !in s.subgraphs
      && t.nodes == s.nodes[n := Node(container, Entry(fn), None)]
      && t.registry == s.registry && t.subgraphs == s.subgraphs && t.edges == s.edges
      && t.counter == s.counter
      && Grows(s, t)
  {
    var node := Node(container, Entry(fn), None);
    var (n, t) := NewNode(s, container, Entry(fn), None, None);
    assert n !in s.nodes;
    AddNodeShape(s, t, n, node);
    AddEntrySound(s, t, n, node, next);
  }

  lemma AddEntrySound(s: Session, t: Session, n: Handle, node: Node, next: nat)
    requires NodesSound(s, next) && n !in s.nodes && node.kind.Entry?
    requires t.nodes == s.nodes[n := node] && t.edges == s.edges
    ensures NodesSound(t, next)
  {
    AddEntryEdges(s, t, n, node);
    AddEntryIds(s, t, n, node, next);
  }

  lemma AddEntryEdges(s: Session, t: Session, n: Handle, node: Node)
    requires EdgesForward(s) && OneIncoming(s) && n !in s.nodes && node.kind.Entry?
    requires t.nodes == s.nodes[n := node] && t.edges == s.edges
    ensures EdgesForward(t) && OneIncoming(t)
  {
    forall m | m in t.nodes && t.nodes[m].kind.Construct?
      ensures HasIncoming(t, m)
    {
      assert HasIncoming(s, m);
    }
  }

  lemma AddEntryIds(s: Session, t: Session, n: Handle, node: Node, next: nat)
    requires IdsExact(s, next) && n !in s.nodes && node.kind.Entry?
    requires t.nodes == s.nodes[n := node]
    ensures IdsExact(t, next)
  {
    forall k: nat | IdUsed(s, k)
      ensures IdUsed(t, k)
    {
      var m :| m in s.nodes && s.nodes[m].kind.Construct? && s.nodes[m].kind.id == k;
      assert t.nodes[m] == s.nodes[m];
    }
  }

  /** The node of the construct with id `next` gets a fresh handle and exactly
      one incoming edge, from the anchor; afterwards `next` is used. */
  lemma NewConstructKeeps(s: Session, next: nat, container: Handle, m: Marker,
                          recordLabel: Option<string>, anchor: Handle)
    requires ValidAt(s, next)
    requires InitialCounter <= next
    requires IsGraph(s, container)
    requires anchor in s.nodes
    requires ClassOf(m) != Invalid
    ensures var (n, t) := NewNode(s, container, Construct(m, next), recordLabel, Some(anchor));
      && ValidAt(t, next + 1)
      && n !in s.nodes && n !in s.subgraphs
      && t.nodes == s.nodes[n := Node(container, Construct(m, next), recordLabel)]
      && t.edges == s.edges + {(anchor, n)}
      && (forall a :: (a, n) in t.edges ==> a == anchor)
      && t.registry == s.registry && t.subgraphs == s.subgraphs
      && t.counter == s.counter
      && Grows(s, t)
  {
    var node := Node(container, Construct(m, next), recordLabel);
    var (n, t) := NewNode(s, container, node.kind, recordLabel, Some(anchor));
    assert n !in s.nodes && n !in s.subgraphs;
    assert t.nodes == s.nodes[n := node];
    assert t.edges == s.edges + {(anchor, n)};
    assert forall a :: (a, n) !in s.edges;
    AddNodeShape(s, t, n, node);
    AddConstructEdgesForward(s, t, n, node, anchor, next);
    AddConstructOneIncoming(s, t, n, node, anchor);
    AddConstructIds(s, t, n, node, next);
  }

  lemma AddConstructEdgesForward(s: Session, t: Session, n: Handle, node: Node, anchor: Handle, next: nat)
    requires EdgesForward(s) && IdsExact(s, next)
    requires anchor in s.nodes && n !in s.nodes
    requires node.kind.Construct? && node.kind.id == next
    requires t.nodes == s.nodes[n := node] && t.edges == s.edges + {(anchor, n)}
    ensures EdgesForward(t)
  {
    assert Precedes(s.nodes[anchor].kind, node.kind);
  }

  lemma AddConstructOneIncoming(s: Session, t: Session, n: Handle, node: Node, anchor: Handle)
    requires OneIncoming(s) && EdgesForward(s)
    requires n !in s.nodes
    requires t.nodes == s.nodes[n := node] && t.edges == s.edges + {(anchor, n)}
    ensures OneIncoming(t)
  {
    assert HasIncoming(t, n);
    forall m | m in t.nodes && t.nodes[m].kind.Construct?
      ensures HasIncoming(t, m)
    {
      if m != n {
        assert HasIncoming(s, m);
        var a :| (a, m) in s.edges;
        assert (a, m) in t.edges;
      }
    }
  }

  lemma AddConstructIds(s: Session, t: Session, n: Handle, node: Node, next: nat)
    requires IdsExact(s, next) && InitialCounter <= next
    requires n !in s.nodes
    requires node.kind.Construct? && node.kind.id == next
    requires t.nodes == s.nodes[n := node]
    ensures IdsExact(t, next + 1)
  {
    forall k: nat | InitialCounter <= k < next + 1
      ensures IdUsed(t, k)
    {
      if k < next {
        assert IdUsed(s, k);
        var m :| m in s.nodes && s.nodes[m].kind.Construct? && s.nodes[m].kind.id == k;
        assert t.nodes[m] == s.nodes[m];
      } else {
        assert t.nodes[n].kind.id == k;
      }
    }
  }

  // ---------------------------------------------------------------------------
  // What the invariant gives the caller

  /** The registry answers the parent query of the graph library: a lookup
      succeeds exactly for created subgraphs and returns the parent they were
      created under. The root graph has no registered parent. */
  lemma ParentQuery(s: Session, g: Handle, p: Handle)
    requires Valid(s)
    ensures ParentOf(s, g) == Some(p) <==> g in s.subgraphs && s.subgraphs[g].parent == p
    ensures ParentOf(s, Root) == None
  {
  }

  /** A construct node is named by the general scheme, the OMP-for node included. */
  lemma ConstructNameScheme(m: Marker, id: nat)
    requires ClassOf(m) != Invalid
    ensures |CodeName(m)| > GimplePrefixLength
    ensures NodeNameOf(Construct(m, id)) == NodeName(CodeName(m), id)
  {
    RecognisedNamesLongEnough(m);
    if m.For? {
      ForNodeNameIsNodeName(m.dims, id);
    }
  }

  /** The subgraph of a region is "cluster_" followed by the name of the node
      that opens it. */
  lemma RegionSubgraphName(m: Marker, id: nat)
    requires ClassOf(m) == Push
    ensures SubgraphNameOf(RegionOf(m, id)) == "cluster_" + NodeNameOf(Construct(m, id))
  {
    ConstructNameScheme(m, id);
    var p, d := Strip(CodeName(m)), NatToString(id);
    assert "cluster_" + p + "." + d == "cluster_" + (p + "." + d);
  }

  /** Distinct construct nodes have distinct names, and no entry node shares
      a name with a construct node. */
  lemma ConstructNamesUnique(s: Session, n1: Handle, n2: Handle)
    requires Valid(s)
    requires n1 in s.nodes && n2 in s.nodes && n1 != n2
    requires s.nodes[n2].kind.Construct?
    ensures NodeNameOf(s.nodes[n1].kind) != NodeNameOf(s.nodes[n2].kind)
  {
    var k1, k2 := s.nodes[n1].kind, s.nodes[n2].kind;
    ConstructNameScheme(k2.marker, k2.id);
    if k1.Construct? {
      ConstructNameScheme(k1.marker, k1.id);
      NodeNameInjective(CodeName(k1.marker), k1.id, CodeName(k2.marker), k2.id);
    } else {
      EntryNameIsNotNodeName(k1.fn, CodeName(k2.marker), k2.id);
    }
  }
}
