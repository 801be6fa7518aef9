/** The region builder (gcc-ompinfo.c, do_omp_graph and omp_graph_execute).

    The dominator tree of a procedure is walked in pre-order. Only the last
    statement of a block matters: when it is an OpenMP marker, the marker gets
    the next global id and, by its class, opens a nested subgraph (push),
    returns to the registered parent subgraph (pop), or stays in the current
    one (flat). Each dominator child is then visited with the same context,
    passed by value: id, anchor node and current subgraph. */
module Builder {
  import opened Wrappers
  import opened Names
  import opened Label
  import opened Markers
  import opened Graph

  /** The last statement of a basic block. */
  datatype Stmt = NonOmp | Omp(marker: Marker)

  /** A node of the dominator tree: the block's last statement (`None` for an
      empty block) and its dominator children in sibling order. */
  datatype Block = Block(last: Option<Stmt>, kids: seq<Block>)

  /** The context threaded down the tree: `parent_id`, `parent_node`, `parent_graph`. */
  datatype Ctx = Ctx(id: nat, anchor: Option<Handle>, container: Handle)

  /** The ways a run aborts: an OpenMP code outside the dispatch table, a region
      closed whose subgraph has no registered parent, a procedure subgraph
      requested under something other than the root graph, a label that cannot
      be built. */
  datatype Fatal =
    | UnknownOmpCode
    | RegistryMiss(container: Handle)
    | FunctionParentNotRoot
    | BadLabel(error: LabelError)

  function MarkerOf(last: Option<Stmt>): Option<Marker> {
    if last.Some? && last.value.Omp? then Some(last.value.marker) else None
  }

  /** On the first construct of a path (no anchor yet) the procedure subgraph
      and its entry node are created; they become container and anchor. */
  function EnterFunction(fn: string, ctx: Ctx, s: Session): (r: Result<(Handle, Handle, Session), Fatal>)
    ensures r.Err? <==> ctx.anchor.None? && ctx.container != Root
    ensures r.Err? ==> r.error == FunctionParentNotRoot
    ensures r.Ok? && ctx.anchor.Some? ==> r.value == (ctx.container, ctx.anchor.value, s)
    ensures r.Ok? && ctx.anchor.None? ==>
      && r.value.2.registry == s.registry[r.value.0 := Root]
      && r.value.2.counter == s.counter
  {
    if ctx.anchor.Some? then Ok((ctx.container, ctx.anchor.value, s))
    else if ctx.container != Root then Err(FunctionParentNotRoot)
    else
      var (g, s1) := NewSubgraph(s, Root, ProcedureOf(fn));
      var (n, s2) := NewNode(s1, g, Entry(fn), None, None);
      Ok((g, n, s2))
  }

  /** Creates the node of marker `m` with id `id` inside `container`, with an
      edge from the anchor; the node becomes the anchor and `container` the
      current subgraph. */
  function Place(s: Session, container: Handle, m: Marker, id: nat,
                 recordLabel: Option<string>, anchor: Handle): Result<(Ctx, Session), Fatal>
  {
    var (n, s1) := NewNode(s, container, Construct(m, id), recordLabel, Some(anchor));
    Ok((Ctx(id, Some(n), container), s1))
  }

  /** The dispatch on the marker's class, for the marker with id `id`. An
      OMP-for node carries a record label built from its node name. */
  function Dispatch(m: Marker, id: nat, container: Handle, anchor: Handle, s: Session): (r: Result<(Ctx, Session), Fatal>)
    ensures ClassOf(m) == Invalid <==> r == Err(UnknownOmpCode)
    ensures ClassOf(m) == Flat ==> r.Ok?
    ensures r.Err? && r.error.RegistryMiss? ==> ClassOf(m) == Pop && container !in s.registry && r.error.container == container
    ensures r.Err? && r.error.BadLabel? ==> m.For?
    ensures r.Err? ==> !r.error.FunctionParentNotRoot?
    ensures r.Ok? ==>
      && r.value.0.id == id && r.value.0.anchor.Some?
      && s.nextHandle <= r.value.0.anchor.value && r.value.0.anchor.value in r.value.1.nodes
      && r.value.1.nodes[r.value.0.anchor.value].kind == Construct(m, id)
      && r.value.1.nodes[r.value.0.anchor.value].container == r.value.0.container
      && (r.value.1.nodes[r.value.0.anchor.value].recordLabel.Some? <==> m.For?)
      && (anchor, r.value.0.anchor.value) in r.value.1.edges
      && r.value.1.counter == s.counter
  {
    match ClassOf(m)
    case Push =>
      var (g, s1) := NewSubgraph(s, container, RegionOf(m, id));
      if m.For? then
        (match MkForLabel(ForNodeName(id), m.dims)
         case Err(e) => Err(BadLabel(e))
         case Ok(text) => Place(s1, g, m, id, Some(text), anchor))
      else
        Place(s1, g, m, id, None, anchor)
    case Pop =>
      (match ParentOf(s, container)
       case None => Err(RegistryMiss(container))
       case Some(p) => Place(s, p, m, id, None, anchor))
    case Flat =>
      Place(s, container, m, id, None, anchor)
    case Invalid =>
      Err(UnknownOmpCode)
  }

  /** What one block does to the context and the state before its children
      are visited. */
  function Step(fn: string, ctx: Ctx, last: Option<Stmt>, s: Session): (r: Result<(Ctx, Session), Fatal>)
    ensures MarkerOf(last).None? ==> r == Ok((ctx, s))
    ensures r.Ok? ==> r.value.1.counter == s.counter + (if MarkerOf(last).Some? then 1 else 0)
  {
    match MarkerOf(last)
    case None => Ok((ctx, s))
    case Some(m) =>
      match EnterFunction(fn, ctx, s)
      case Err(e) => Err(e)
      case Ok((container, anchor, s1)) =>
        var id := s1.counter;
        Dispatch(m, id, container, anchor, s1.(counter := id + 1))
  }

  /** Visits a block, then each dominator child in order with the same context. */
  function Visit(fn: string, b: Block, ctx: Ctx, s: Session): (r: Result<Session, Fatal>)
    ensures r.Ok? ==> r.value.counter == s.counter + MarkerCount(b)
    ensures r.Err? ==> MarkerCount(b) > 0
    decreases b
  {
    match Step(fn, ctx, b.last, s)
    case Err(e) => Err(e)
    case Ok((next, s1)) => VisitKids(fn, b.kids, next, s1)
  }

  function VisitKids(fn: string, kids: seq<Block>, ctx: Ctx, s: Session): (r: Result<Session, Fatal>)
    ensures r.Ok? ==> r.value.counter == s.counter + KidsMarkerCount(kids)
    ensures r.Err? ==> KidsMarkerCount(kids) > 0
    decreases kids
  {
    if |kids| == 0 then Ok(s)
    else
      match Visit(fn, kids[0], ctx, s)
      case Err(e) => Err(e)
      case Ok(s1) => VisitKids(fn, kids[1..], ctx, s1)
  }

  // ---------------------------------------------------------------------------
  // Driver

  /** One procedure of the compilation unit: its name and the entry block of
      its dominator tree. */
  datatype Proc = Proc(name: string, entry: Block)

  /** A procedure is walked from its entry block with no anchor, the root graph
      as container, and the running counter as id; the counter is not reset. */
  function RunFunction(p: Proc, s: Session): (r: Result<Session, Fatal>)
    ensures r.Ok? ==> r.value.counter == s.counter + MarkerCount(p.entry)
    ensures r.Err? ==> MarkerCount(p.entry) > 0
  {
    Visit(p.name, p.entry, Ctx(s.counter, None, Root), s)
  }

  /** The procedures of a compilation unit, in order, on one shared state. */
  function RunUnit(procs: seq<Proc>, s: Session): (r: Result<Session, Fatal>)
    ensures r.Ok? ==> r.value.counter == s.counter + UnitMarkerCount(procs)
    ensures r.Err? ==> UnitMarkerCount(procs) > 0
    decreases |procs|
  {
    if |procs| == 0 then Ok(s)
    else
      match RunFunction(procs[0], s)
      case Err(e) => Err(e)
      case Ok(t) => RunUnit(procs[1..], t)
  }

  // ---------------------------------------------------------------------------
  // Counting the markers of a tree

  function MarkerCount(b: Block): nat
    decreases b
  {
    (if MarkerOf(b.last).Some? then 1 else 0) + KidsMarkerCount(b.kids)
  }

  function KidsMarkerCount(kids: seq<Block>): nat
    decreases kids
  {
    if |kids| == 0 then 0 else MarkerCount(kids[0]) + KidsMarkerCount(kids[1..])
  }

  function UnitMarkerCount(procs: seq<Proc>): nat
    decreases |procs|
  {
    if |procs| == 0 then 0 else MarkerCount(procs[0].entry) + UnitMarkerCount(procs[1..])
  }
}
