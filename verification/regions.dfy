/** What one block does, class by class (gcc-ompinfo.c, do_omp_graph lines
    245-311), and what a block without a marker does not do. */
module Regions {
  import opened Wrappers
  import opened Names
  import opened Label
  import opened Markers
  import opened Graph
  import opened Builder
  import opened Invariants

  /** A pushing marker (task, critical, single, parallel, for) opens exactly
      one new subgraph inside the current one, registered with the current
      one as parent, and creates one node inside it whose only incoming edge
      comes from the anchor. The new subgraph and node become the context.
      Only the label of an OMP-for can make it fail. */
  lemma PushStep(fn: string, ctx: Ctx, m: Marker, s: Session)
    requires Valid(s) && WfCtx(ctx, s) && ctx.anchor.Some?
    requires ClassOf(m) == Push
    ensures var r := Step(fn, ctx, Some(Omp(m)), s);
      && (r.Ok? <==> (m.For? ==> MkForLabel(ForNodeName(s.counter), m.dims).Ok?))
      && (r.Err? ==> r.error == BadLabel(MkForLabel(ForNodeName(s.counter), m.dims).error))
      && (r.Ok? ==>
           var (next, t) := r.value;
           var g := next.container;
           && next.id == s.counter && next.anchor.Some?
           && g !in s.subgraphs && g !in s.registry && g != Root
           && t.subgraphs == s.subgraphs[g := Sub(ctx.container, RegionOf(m, s.counter))]
           && t.registry == s.registry[g := ctx.container]
           && next.anchor.value !in s.nodes
           && t.nodes == s.nodes[next.anchor.value := Node(g, Construct(m, s.counter),
                (if m.For? then Some(MkForLabel(ForNodeName(s.counter), m.dims).value) else None))]
           && t.edges == s.edges + {(ctx.anchor.value, next.anchor.value)}
           && t.counter == s.counter + 1)
  {
  }

  /** The end marker opens no subgraph. The registry lookup of the current
      subgraph must succeed, or the run aborts; the new container is the
      registered parent, where the end node is placed and becomes the anchor. */
  lemma PopStep(fn: string, ctx: Ctx, s: Session)
    requires Valid(s) && WfCtx(ctx, s) && ctx.anchor.Some?
    ensures var r := Step(fn, ctx, Some(Omp(Return)), s);
      && (r.Err? <==> ctx.container !in s.registry)
      && (r.Err? ==> r.error == RegistryMiss(ctx.container))
      && (r.Ok? ==>
           var (next, t) := r.value;
           && ctx.container in s.subgraphs
           && next.container == s.subgraphs[ctx.container].parent
           && next.id == s.counter && next.anchor.Some?
           && t.subgraphs == s.subgraphs && t.registry == s.registry
           && next.anchor.value !in s.nodes
           && t.nodes == s.nodes[next.anchor.value := Node(next.container, Construct(Return, s.counter), None)]
           && t.edges == s.edges + {(ctx.anchor.value, next.anchor.value)}
           && t.counter == s.counter + 1)
  {
  }

  /** A flat marker creates one node in the unchanged current subgraph, makes
      it the anchor, and leaves subgraphs and registry alone. */
  lemma FlatStep(fn: string, ctx: Ctx, m: Marker, s: Session)
    requires Valid(s) && WfCtx(ctx, s) && ctx.anchor.Some?
    requires ClassOf(m) == Flat
    ensures var r := Step(fn, ctx, Some(Omp(m)), s);
      && r.Ok?
      && var (next, t) := r.value;
         && next.container == ctx.container
         && next.id == s.counter && next.anchor.Some?
         && t.subgraphs == s.subgraphs && t.registry == s.registry
         && next.anchor.value !in s.nodes
         && t.nodes == s.nodes[next.anchor.value := Node(ctx.container, Construct(m, s.counter), None)]
         && t.edges == s.edges + {(ctx.anchor.value, next.anchor.value)}
         && t.counter == s.counter + 1
  {
  }

  /** Any other OpenMP code aborts the run. */
  lemma UnknownStep(fn: string, ctx: Ctx, code: string, s: Session)
    requires Valid(s) && WfCtx(ctx, s)
    ensures Step(fn, ctx, Some(Omp(OtherOmp(code))), s) == Err(UnknownOmpCode)
  {
    EnterFunctionKeeps(fn, ctx, s);
  }

  /** The first marker of a path (no anchor yet) first creates the procedure
      subgraph "cluster_<fn>" under the root graph, registered with the root
      as parent, and the entry node "<fn>()" inside it; the marker is then
      handled with these two as container and anchor. */
  lemma FirstConstructStep(fn: string, id: nat, m: Marker, s: Session)
    requires Valid(s)
    ensures var (f, s1) := NewSubgraph(s, Root, ProcedureOf(fn));
            var (e, s2) := NewNode(s1, f, Entry(fn), None, None);
      && f !in s.subgraphs && e !in s.nodes && f != e
      && s2.subgraphs == s.subgraphs[f := Sub(Root, ProcedureOf(fn))]
      && s2.registry == s.registry[f := Root]
      && s2.nodes == s.nodes[e := Node(f, Entry(fn), None)]
      && s2.edges == s.edges && s2.counter == s.counter
      && Step(fn, Ctx(id, None, Root), Some(Omp(m)), s) == Step(fn, Ctx(id, Some(e), f), Some(Omp(m)), s2)
  {
  }

  /** A tree none of whose blocks ends in an OpenMP marker creates nothing and
      leaves the state as it was, whatever the context. */
  lemma {:induction false} NoMarkersNoChange(fn: string, b: Block, ctx: Ctx, s: Session)
    requires MarkerCount(b) == 0
    ensures Visit(fn, b, ctx, s) == Ok(s)
    decreases b
  {
    assert Step(fn, ctx, b.last, s) == Ok((ctx, s));
    NoMarkersNoChangeKids(fn, b.kids, ctx, s);
  }

  lemma {:induction false} NoMarkersNoChangeKids(fn: string, kids: seq<Block>, ctx: Ctx, s: Session)
    requires KidsMarkerCount(kids) == 0
    ensures VisitKids(fn, kids, ctx, s) == Ok(s)
    decreases kids
  {
    if |kids| > 0 {
      NoMarkersNoChange(fn, kids[0], ctx, s);
      NoMarkersNoChangeKids(fn, kids[1..], ctx, s);
    }
  }
}
