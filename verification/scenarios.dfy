/** Small runs of the region builder worked out completely. */
module Scenarios {
  import opened Wrappers
  import opened Markers
  import opened Graph
  import opened Builder

  /** The procedure subgraph is requested per visit, not per procedure: two
      dominator siblings that each end in a marker both still see the context
      with no anchor, so each opens its own "cluster_<fn>" subgraph with its own
      entry node. The ids follow the visit order: the first sibling's
      construct gets id 1, the second's id 2. */
  lemma SiblingsEachOpenProcedure(fn: string)
    ensures var b := Block(None, [Block(Some(Omp(Master)), []), Block(Some(Omp(Ordered)), [])]);
            var r := RunFunction(Proc(fn, b), Initial());
      && r.Ok?
      && r.value.subgraphs == map[1 := Sub(Root, ProcedureOf(fn)), 4 := Sub(Root, ProcedureOf(fn))]
      && r.value.nodes == map[2 := Node(1, Entry(fn), None), 3 := Node(1, Construct(Master, 1), None),
                              5 := Node(4, Entry(fn), None), 6 := Node(4, Construct(Ordered, 2), None)]
      && r.value.edges == {(2, 3), (5, 6)}
      && r.value.counter == 3
  {
    var kid := Block(Some(Omp(Master)), []);
    var kid2 := Block(Some(Omp(Ordered)), []);
    var b := Block(None, [kid, kid2]);
    var ctx := Ctx(1, None, Root);
    var s0 := Initial();
    var s1 := Session(2, 4, map[1 := Root], map[1 := Sub(Root, ProcedureOf(fn))],
                      map[2 := Node(1, Entry(fn), None), 3 := Node(1, Construct(Master, 1), None)], {(2, 3)});
    var e1 := Session(1, 3, map[1 := Root], map[1 := Sub(Root, ProcedureOf(fn))],
                      map[2 := Node(1, Entry(fn), None)], {});
    assert EnterFunction(fn, ctx, s0) == Ok((1, 2, e1));
    assert ClassOf(Master) == Flat;
    var nn := NewNode(e1.(counter := 2), 1, Construct(Master, 1), None, Some(2));
    assert nn.0 == 3;
    assert nn.1.nodes == s1.nodes;
    assert nn.1.edges == s1.edges;
    assert NewNode(e1.(counter := 2), 1, Construct(Master, 1), None, Some(2)) == (3, s1);
    assert Place(e1.(counter := 2), 1, Master, 1, None, 2) == Ok((Ctx(1, Some(3), 1), s1));
    assert Dispatch(Master, 1, 1, 2, e1.(counter := 2)) == Ok((Ctx(1, Some(3), 1), s1));
    assert Step(fn, ctx, kid.last, s0) == Ok((Ctx(1, Some(3), 1), s1));
    assert Visit(fn, kid, ctx, s0) == Ok(s1);
    var s2 := Session(3, 7, map[1 := Root, 4 := Root],
                      map[1 := Sub(Root, ProcedureOf(fn)), 4 := Sub(Root, ProcedureOf(fn))],
                      map[2 := Node(1, Entry(fn), None), 3 := Node(1, Construct(Master, 1), None),
                          5 := Node(4, Entry(fn), None), 6 := Node(4, Construct(Ordered, 2), None)],
                      {(2, 3), (5, 6)});
    var e2 := Session(2, 6, map[1 := Root, 4 := Root],
                      map[1 := Sub(Root, ProcedureOf(fn)), 4 := Sub(Root, ProcedureOf(fn))],
                      map[2 := Node(1, Entry(fn), None), 3 := Node(1, Construct(Master, 1), None),
                          5 := Node(4, Entry(fn), None)], {(2, 3)});
    assert EnterFunction(fn, ctx, s1) == Ok((4, 5, e2));
    assert ClassOf(Ordered) == Flat;
    var nn2 := NewNode(e2.(counter := 3), 4, Construct(Ordered, 2), None, Some(5));
    assert nn2.0 == 6;
    assert nn2.1.nodes == s2.nodes;
    assert nn2.1.edges == s2.edges;
    assert nn2.1 == s2;
    assert Dispatch(Ordered, 2, 4, 5, e2.(counter := 3)) == Ok((Ctx(2, Some(6), 4), s2));
    assert Step(fn, ctx, kid2.last, s1) == Ok((Ctx(2, Some(6), 4), s2));
    assert Visit(fn, kid2, ctx, s1) == Ok(s2);
    assert [kid, kid2][1..] == [kid2] && [kid2][1..] == [];
    assert VisitKids(fn, [], ctx, s2) == Ok(s2);
    assert VisitKids(fn, [kid2], ctx, s1) == Ok(s2);
    assert VisitKids(fn, [kid, kid2], ctx, s0) == Ok(s2);
    assert Visit(fn, b, ctx, s0) == Ok(s2);
  }
}
