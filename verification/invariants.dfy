/** The region builder keeps the invariant of the accumulated state
    (`Graph.Valid`): fresh handles, a registry that mirrors the subgraph tree,
    one incoming edge per construct node from an earlier node, and construct
    ids that are exactly InitialCounter .. counter - 1, each used once. */
module Invariants {
  import opened Wrappers
  import opened Names
  import opened Label
  import opened Markers
  import opened Graph
  import opened Builder

  /** Before the first construct of a path the container is the root graph;
      afterwards the anchor is a created node inside an existing graph. */
  ghost predicate WfCtx(ctx: Ctx, s: Session) {
    if ctx.anchor.None? then ctx.container == Root
    else ctx.anchor.value in s.nodes && IsGraph(s, ctx.container)
  }

  lemma WfCtxGrows(ctx: Ctx, s: Session, t: Session)
    requires WfCtx(ctx, s) && Grows(s, t)
    ensures WfCtx(ctx, t)
  {
  }

  /** Entering a procedure never fails from a well-formed context and keeps the invariant. */
  lemma EnterFunctionKeeps(fn: string, ctx: Ctx, s: Session)
    requires Valid(s) && WfCtx(ctx, s)
    ensures EnterFunction(fn, ctx, s).Ok?
    ensures var (c, a, t) := EnterFunction(fn, ctx, s).value;
      Valid(t) && a in t.nodes && IsGraph(t, c) && Grows(s, t) && t.counter == s.counter
  {
    if ctx.anchor.None? {
      var (g, s1) := NewSubgraph(s, Root, ProcedureOf(fn));
      NewSubgraphKeeps(s, s.counter, Root, ProcedureOf(fn));
      var (n, s2) := NewNode(s1, g, Entry(fn), None, None);
      NewEntryKeeps(s1, s.counter, g, fn);
      GrowsTrans(s, s1, s2);
    }
  }

  /** What every step promises: on success the invariant holds, the new
      context is well formed, nothing was removed and `inc` ids were taken; a
      procedure subgraph is never requested under anything but the root graph. */
  ghost predicate Kept(s: Session, r: Result<(Ctx, Session), Fatal>, inc: nat) {
    && (r.Ok? ==> (Valid(r.value.1) && WfCtx(r.value.0, r.value.1) && Grows(s, r.value.1)
                   && r.value.1.counter == s.counter + inc))
    && (r.Err? ==> !r.error.FunctionParentNotRoot?)
  }

  lemma KeptFrom(s: Session, s1: Session, r: Result<(Ctx, Session), Fatal>, inc1: nat, inc: nat)
    requires Grows(s, s1) && Kept(s1, r, inc1) && s1.counter + inc1 == s.counter + inc
    ensures Kept(s, r, inc)
  {
    if r.Ok? {
      GrowsTrans(s, s1, r.value.1);
    }
  }

  /** The marker takes the next id; each class of marker then keeps the
      invariant, and the new context is well formed. */
  lemma DispatchKeeps(m: Marker, c: Handle, a: Handle, s0: Session, s: Session,
                      r: Result<(Ctx, Session), Fatal>)
    requires Valid(s0) && IsGraph(s0, c) && a in s0.nodes
    requires s == s0.(counter := s0.counter + 1)
    requires r == Dispatch(m, s0.counter, c, a, s)
    ensures Kept(s0, r, 1)
  {
    BumpKeeps(s0, s);
    match ClassOf(m) {
      case Push => PushKeeps(m, s0.counter, c, a, s, r);
      case Pop => PopKeeps(m, s0.counter, c, a, s, r);
      case Flat =>
        assert r == Place(s, c, m, s0.counter, None, a);
        PlaceKeeps(s, s, c, m, s0.counter, None, a);
      case Invalid =>
    }
    KeptFrom(s0, s, r, 0, 1);
  }

  /** A push opens a registered subgraph of the current one and places the node there. */
  lemma PushKeeps(m: Marker, id: nat, c: Handle, a: Handle, s: Session, r: Result<(Ctx, Session), Fatal>)
    requires ValidAt(s, id) && s.counter == id + 1 && InitialCounter <= id
    requires IsGraph(s, c) && a in s.nodes && ClassOf(m) == Push
    requires r == Dispatch(m, id, c, a, s)
    ensures Kept(s, r, 0)
  {
    var ns := NewSubgraph(s, c, RegionOf(m, id));
    var g, s1 := ns.0, ns.1;
    NewSubgraphKeeps(s, id, c, RegionOf(m, id));
    if m.For? {
      var l := MkForLabel(ForNodeName(id), m.dims);
      if l.Ok? {
        assert r == Place(s1, g, m, id, Some(l.value), a);
        PlaceKeeps(s, s1, g, m, id, Some(l.value), a);
      }
    } else {
      assert r == Place(s1, g, m, id, None, a);
      PlaceKeeps(s, s1, g, m, id, None, a);
    }
  }

  /** A pop places the node in the registered parent, when there is one. */
  lemma PopKeeps(m: Marker, id: nat, c: Handle, a: Handle, s: Session, r: Result<(Ctx, Session), Fatal>)
    requires ValidAt(s, id) && s.counter == id + 1 && InitialCounter <= id
    requires IsGraph(s, c) && a in s.nodes && ClassOf(m) == Pop
    requires r == Dispatch(m, id, c, a, s)
    ensures Kept(s, r, 0)
  {
    if c in s.registry {
      var p := s.registry[c];
      assert IsGraph(s, p);
      assert r == Place(s, p, m, id, None, a);
      PlaceKeeps(s, s, p, m, id, None, a);
    }
  }

  /** Placing the node of construct `id` keeps the invariant with `id` used. */
  lemma PlaceKeeps(s: Session, s1: Session, container: Handle, m: Marker, id: nat,
                   recordLabel: Option<string>, a: Handle)
    requires ValidAt(s1, id) && Grows(s, s1) && s1.counter == s.counter && s.counter == id + 1
    requires InitialCounter <= id
    requires IsGraph(s1, container) && a in s1.nodes && ClassOf(m) != Invalid
    ensures Kept(s, Place(s1, container, m, id, recordLabel, a), 0)
  {
    NewConstructKeeps(s1, id, container, m, recordLabel, a);
    var (n, t) := NewNode(s1, container, Construct(m, id), recordLabel, Some(a));
    GrowsTrans(s, s1, t);
  }

  /** Taking the next id changes nothing else. */
  lemma BumpKeeps(s: Session, t: Session)
    requires Valid(s) && t == s.(counter := s.counter + 1)
    ensures ValidAt(t, s.counter) && t.counter == s.counter + 1 && InitialCounter <= s.counter
    ensures Grows(s, t)
  {
    assert t.nodes == s.nodes && t.subgraphs == s.subgraphs && t.registry == s.registry && t.edges == s.edges;
    forall k: nat | IdUsed(s, k)
      ensures IdUsed(t, k)
    {
    }
  }

  /** One block keeps the invariant, takes one id per marker, and never asks
      for a procedure subgraph under anything but the root graph. */
  lemma StepKeeps(fn: string, ctx: Ctx, last: Option<Stmt>, s: Session)
    requires Valid(s) && WfCtx(ctx, s)
    ensures Kept(s, Step(fn, ctx, last, s), if MarkerOf(last).Some? then 1 else 0)
  {
    if MarkerOf(last).None? {
      assert Step(fn, ctx, last, s) == Ok((ctx, s));
    } else {
      var m := MarkerOf(last).value;
      EnterFunctionKeeps(fn, ctx, s);
      var e := EnterFunction(fn, ctx, s);
      var s1 := e.value.2;
      var r := Dispatch(m, s1.counter, e.value.0, e.value.1, s1.(counter := s1.counter + 1));
      MarkerStepKeeps(m, e.value.0, e.value.1, s, s1, r);
      StepUnfold(fn, ctx, last, s, m, e.value.0, e.value.1, s1, r);
    }
  }

  /** A block with a marker is entering the procedure, taking the next id, and
      the dispatch on the marker. */
  lemma StepUnfold(fn: string, ctx: Ctx, last: Option<Stmt>, s: Session,
                    m: Marker, c: Handle, a: Handle, s1: Session, r: Result<(Ctx, Session), Fatal>)
    requires MarkerOf(last) == Some(m) && EnterFunction(fn, ctx, s) == Ok((c, a, s1))
    requires r == Dispatch(m, s1.counter, c, a, s1.(counter := s1.counter + 1))
    ensures Step(fn, ctx, last, s) == r
  {
  }

  lemma MarkerStepKeeps(m: Marker, c: Handle, a: Handle, s: Session, s1: Session,
                        r: Result<(Ctx, Session), Fatal>)
    requires Valid(s1) && a in s1.nodes && IsGraph(s1, c) && Grows(s, s1) && s1.counter == s.counter
    requires r == Dispatch(m, s1.counter, c, a, s1.(counter := s1.counter + 1))
    ensures Kept(s, r, 1)
  {
    DispatchKeeps(m, c, a, s1, s1.(counter := s1.counter + 1), r);
    KeptFrom(s, s1, r, 1, 1);
  }

  /** Visiting a tree keeps the invariant and hands out exactly one id per marker. */
  lemma {:induction false} VisitKeeps(fn: string, b: Block, ctx: Ctx, s: Session)
    requires Valid(s) && WfCtx(ctx, s)
    ensures var r := Visit(fn, b, ctx, s);
      && (r.Ok? ==> Valid(r.value) && Grows(s, r.value) && r.value.counter == s.counter + MarkerCount(b))
      && (r.Err? ==> !r.error.FunctionParentNotRoot?)
    decreases b
  {
    StepKeeps(fn, ctx, b.last, s);
    var r := Step(fn, ctx, b.last, s);
    if r.Ok? {
      var (next, s1) := r.value;
      VisitKidsKeeps(fn, b.kids, next, s1);
      var k := VisitKids(fn, b.kids, next, s1);
      if k.Ok? {
        GrowsTrans(s, s1, k.value);
      }
    }
  }

  lemma {:induction false} VisitKidsKeeps(fn: string, kids: seq<Block>, ctx: Ctx, s: Session)
    requires Valid(s) && WfCtx(ctx, s)
    ensures var r := VisitKids(fn, kids, ctx, s);
      && (r.Ok? ==> Valid(r.value) && Grows(s, r.value) && r.value.counter == s.counter + KidsMarkerCount(kids))
      && (r.Err? ==> !r.error.FunctionParentNotRoot?)
    decreases kids
  {
    if |kids| > 0 {
      VisitKeeps(fn, kids[0], ctx, s);
      var r := Visit(fn, kids[0], ctx, s);
      if r.Ok? {
        WfCtxGrows(ctx, s, r.value);
        VisitKidsKeeps(fn, kids[1..], ctx, r.value);
        var k := VisitKids(fn, kids[1..], ctx, r.value);
        if k.Ok? {
          GrowsTrans(s, r.value, k.value);
        }
      }
    }
  }

  /** A compilation unit keeps the invariant; the counter is shared by all
      procedures, so it ends at its start plus the number of markers. */
  lemma {:induction false} RunUnitKeeps(procs: seq<Proc>, s: Session)
    requires Valid(s)
    ensures var r := RunUnit(procs, s);
      && (r.Ok? ==> Valid(r.value) && Grows(s, r.value) && r.value.counter == s.counter + UnitMarkerCount(procs))
      && (r.Err? ==> !r.error.FunctionParentNotRoot?)
    decreases |procs|
  {
    if |procs| > 0 {
      var ctx := Ctx(s.counter, None, Root);
      VisitKeeps(procs[0].name, procs[0].entry, ctx, s);
      var r := RunFunction(procs[0], s);
      if r.Ok? {
        RunUnitKeeps(procs[1..], r.value);
        var k := RunUnit(procs[1..], r.value);
        if k.Ok? {
          GrowsTrans(s, r.value, k.value);
        }
      }
    }
  }

  /** Over a whole run the construct ids are exactly 1 .. N for N markers,
      each on exactly one node; every construct node has exactly one incoming
      edge, from the procedure entry node or from a node with a smaller id. */
  lemma UnitIds(procs: seq<Proc>)
    requires RunUnit(procs, Initial()).Ok?
    ensures var t := RunUnit(procs, Initial()).value;
      && IdsExact(t, InitialCounter + UnitMarkerCount(procs))
      && EdgesForward(t) && OneIncoming(t)
  {
    RunUnitKeeps(procs, Initial());
  }
}
