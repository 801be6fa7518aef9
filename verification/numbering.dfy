/** The order in which ids are handed out, and what that makes unique.

    `omp_constructs_cnt` (gcc-ompinfo.c:27, 265) is incremented once per
    marker in the order `do_omp_graph` visits the blocks: a block before its
    dominator children (lines 253-311), and the children in sibling order
    (lines 314-319). Each region subgraph is named after the id of the marker
    that opens it (lines 89-108), so these names are unique as the ids are. */
module Numbering {
  import opened Wrappers
  import opened Names
  import opened Markers
  import opened Graph
  import opened Builder
  import opened Invariants
  import opened Regions

  // ---------------------------------------------------------------------------
  // Ids follow the visit order

  /** Every construct node in `t` that is not already in `s` has an id in `[lo, hi)`. */
  ghost predicate NewIdsIn(s: Session, t: Session, lo: nat, hi: nat) {
    forall n :: n in t.nodes && n !in s.nodes && t.nodes[n].kind.Construct? ==>
      lo <= t.nodes[n].kind.id < hi
  }

  /** Between two valid states, the construct nodes added take exactly the ids
      handed out in between: every smaller id already has its node. */
  lemma NewIdsFresh(s: Session, t: Session)
    requires Valid(s) && Valid(t) && Grows(s, t)
    ensures NewIdsIn(s, t, s.counter, t.counter)
  {
    forall n | n in t.nodes && n !in s.nodes && t.nodes[n].kind.Construct?
      ensures s.counter <= t.nodes[n].kind.id
    {
      if t.nodes[n].kind.id < s.counter {
        // the id's node in `s` is still in `t`, and ids are unique there
        var used := IdUsed(s, t.nodes[n].kind.id);
        assert false;
      }
    }
  }

  /** Visiting a tree numbers its constructs with the next `MarkerCount(b)` ids. */
  lemma VisitIds(fn: string, b: Block, ctx: Ctx, s: Session)
    requires Valid(s) && WfCtx(ctx, s)
    ensures var r := Visit(fn, b, ctx, s);
      r.Ok? ==> NewIdsIn(s, r.value, s.counter, s.counter + MarkerCount(b))
  {
    VisitKeeps(fn, b, ctx, s);
    var r := Visit(fn, b, ctx, s);
    if r.Ok? {
      NewIdsFresh(s, r.value);
    }
  }

  /** Dominator siblings are numbered in sibling order: the first child's
      constructs take the ids right after the current counter, and every
      construct of the later children gets a larger id. */
  lemma KidsIdsInOrder(fn: string, kids: seq<Block>, ctx: Ctx, s: Session)
    requires Valid(s) && WfCtx(ctx, s) && |kids| > 0
    ensures var r := VisitKids(fn, kids, ctx, s);
            var r1 := Visit(fn, kids[0], ctx, s);
      r.Ok? ==>
        && r1.Ok?
        && NewIdsIn(s, r1.value, s.counter, s.counter + MarkerCount(kids[0]))
        && NewIdsIn(r1.value, r.value, s.counter + MarkerCount(kids[0]), r.value.counter)
  {
    VisitKeeps(fn, kids[0], ctx, s);
    var r1 := Visit(fn, kids[0], ctx, s);
    if r1.Ok? {
      NewIdsFresh(s, r1.value);
      WfCtxGrows(ctx, s, r1.value);
      VisitKidsKeeps(fn, kids[1..], ctx, r1.value);
      var r2 := VisitKids(fn, kids[1..], ctx, r1.value);
      if r2.Ok? {
        NewIdsFresh(r1.value, r2.value);
      }
    }
  }

  // ---------------------------------------------------------------------------
  // Region subgraphs carry distinct ids

  ghost predicate IsRegion(s: Session, g: Handle) {
    g in s.subgraphs && s.subgraphs[g].origin.RegionOf?
  }

  /** Every region subgraph was opened by a pushing marker with an id already
      handed out, and no two region subgraphs share an id. */
  ghost predicate RegionsSound(s: Session) {
    && (forall g :: IsRegion(s, g) ==>
          ClassOf(s.subgraphs[g].origin.marker) == Push && s.subgraphs[g].origin.id < s.counter)
    && (forall g1, g2 :: IsRegion(s, g1) && IsRegion(s, g2) && g1 != g2 ==>
          s.subgraphs[g1].origin.id != s.subgraphs[g2].origin.id)
  }

  function RegionName(s: Session, g: Handle): string
    requires IsRegion(s, g) && ClassOf(s.subgraphs[g].origin.marker) != Invalid
  {
    SubgraphNameOf(s.subgraphs[g].origin)
  }

  /** No two region subgraphs get the same graphviz name. */
  ghost predicate RegionNamesDistinct(s: Session) {
    forall g1, g2 :: IsRegion(s, g1) && IsRegion(s, g2) && g1 != g2
      && ClassOf(s.subgraphs[g1].origin.marker) != Invalid
      && ClassOf(s.subgraphs[g2].origin.marker) != Invalid
      ==> RegionName(s, g1) != RegionName(s, g2)
  }

  /** A step with an anchor keeps the region subgraphs sound: only a push opens
      one, with the id being handed out. */
  lemma AnchoredStepRegions(fn: string, ctx: Ctx, m: Marker, s: Session)
    requires Valid(s) && WfCtx(ctx, s) && ctx.anchor.Some? && RegionsSound(s)
    ensures var r := Step(fn, ctx, Some(Omp(m)), s); r.Ok? ==> RegionsSound(r.value.1)
  {
    match ClassOf(m)
    case Push =>
      PushStep(fn, ctx, m, s);
    case Pop =>
      assert m == Return;
      PopStep(fn, ctx, s);
    case Flat =>
      FlatStep(fn, ctx, m, s);
    case Invalid =>
      UnknownStep(fn, ctx, m.code, s);
  }

  /** One block keeps the region subgraphs sound; the procedure subgraph that
      the first marker of a path may open is not a region. */
  lemma StepRegions(fn: string, ctx: Ctx, last: Option<Stmt>, s: Session)
    requires Valid(s) && WfCtx(ctx, s) && RegionsSound(s)
    ensures var r := Step(fn, ctx, last, s); r.Ok? ==> RegionsSound(r.value.1)
  {
    if MarkerOf(last).Some? {
      var m := MarkerOf(last).value;
      assert last == Some(Omp(m));
      if ctx.anchor.Some? {
        AnchoredStepRegions(fn, ctx, m, s);
      } else {
        EntryStepRegions(fn, ctx.id, m, s);
      }
    }
  }

  /** The procedure subgraph opened at the first marker of a path is no region. */
  lemma EntryStepRegions(fn: string, id: nat, m: Marker, s: Session)
    requires Valid(s) && RegionsSound(s)
    ensures var r := Step(fn, Ctx(id, None, Root), Some(Omp(m)), s); r.Ok? ==> RegionsSound(r.value.1)
  {
    var (f, s1) := NewSubgraph(s, Root, ProcedureOf(fn));
    var (e, s2) := NewNode(s1, f, Entry(fn), None, None);
    FirstConstructStep(fn, id, m, s);
    EntryReady(fn, id, s);
    EntryRegions(fn, s);
    AnchoredStepRegions(fn, Ctx(id, Some(e), f), m, s2);
  }

  /** After the procedure subgraph and entry node are created, the state is
      valid and they form a well-formed context. */
  lemma EntryReady(fn: string, id: nat, s: Session)
    requires Valid(s)
    ensures var (f, s1) := NewSubgraph(s, Root, ProcedureOf(fn));
            var (e, s2) := NewNode(s1, f, Entry(fn), None, None);
      Valid(s2) && WfCtx(Ctx(id, Some(e), f), s2)
  {
    var (f, s1) := NewSubgraph(s, Root, ProcedureOf(fn));
    var (e, s2) := NewNode(s1, f, Entry(fn), None, None);
    EnterFunctionKeeps(fn, Ctx(id, None, Root), s);
    assert EnterFunction(fn, Ctx(id, None, Root), s).value == (f, e, s2);
  }

  lemma EntryRegions(fn: string, s: Session)
    requires RegionsSound(s)
    ensures var (f, s1) := NewSubgraph(s, Root, ProcedureOf(fn));
            var (e, s2) := NewNode(s1, f, Entry(fn), None, None);
      RegionsSound(s2)
  {
    var (f, s1) := NewSubgraph(s, Root, ProcedureOf(fn));
    var (e, s2) := NewNode(s1, f, Entry(fn), None, None);
    assert forall g :: IsRegion(s2, g) ==> IsRegion(s, g) && s2.subgraphs[g] == s.subgraphs[g];
  }

  lemma {:induction false} VisitRegions(fn: string, b: Block, ctx: Ctx, s: Session)
    requires Valid(s) && WfCtx(ctx, s) && RegionsSound(s)
    ensures var r := Visit(fn, b, ctx, s); r.Ok? ==> RegionsSound(r.value)
    decreases b
  {
    StepKeeps(fn, ctx, b.last, s);
    StepRegions(fn, ctx, b.last, s);
    var r := Step(fn, ctx, b.last, s);
    if r.Ok? {
      var (next, s1) := r.value;
      VisitKidsRegions(fn, b.kids, next, s1);
    }
  }

  lemma {:induction false} VisitKidsRegions(fn: string, kids: seq<Block>, ctx: Ctx, s: Session)
    requires Valid(s) && WfCtx(ctx, s) && RegionsSound(s)
    ensures var r := VisitKids(fn, kids, ctx, s); r.Ok? ==> RegionsSound(r.value)
    decreases kids
  {
    if |kids| > 0 {
      VisitKeeps(fn, kids[0], ctx, s);
      VisitRegions(fn, kids[0], ctx, s);
      var r := Visit(fn, kids[0], ctx, s);
      if r.Ok? {
        WfCtxGrows(ctx, s, r.value);
        VisitKidsRegions(fn, kids[1..], ctx, r.value);
      }
    }
  }

  lemma {:induction false} RunUnitRegions(procs: seq<Proc>, s: Session)
    requires Valid(s) && RegionsSound(s)
    ensures var r := RunUnit(procs, s); r.Ok? ==> RegionsSound(r.value)
    decreases |procs|
  {
    if |procs| > 0 {
      var ctx := Ctx(s.counter, None, Root);
      VisitKeeps(procs[0].name, procs[0].entry, ctx, s);
      VisitRegions(procs[0].name, procs[0].entry, ctx, s);
      var r := RunFunction(procs[0], s);
      if r.Ok? {
        RunUnitRegions(procs[1..], r.value);
      }
    }
  }

  /** Region subgraphs with distinct ids have distinct names. */
  lemma RegionNamesUnique(s: Session)
    requires RegionsSound(s)
    ensures RegionNamesDistinct(s)
  {
    forall g1, g2 | IsRegion(s, g1) && IsRegion(s, g2) && g1 != g2
      && ClassOf(s.subgraphs[g1].origin.marker) != Invalid
      && ClassOf(s.subgraphs[g2].origin.marker) != Invalid
      ensures RegionName(s, g1) != RegionName(s, g2)
    {
      var o1, o2 := s.subgraphs[g1].origin, s.subgraphs[g2].origin;
      RecognisedNamesLongEnough(o1.marker);
      RecognisedNamesLongEnough(o2.marker);
      SubgraphNameInjective(CodeName(o1.marker), o1.id, CodeName(o2.marker), o2.id);
    }
  }

  /** Over a whole compilation unit, every region subgraph is opened by a
      pushing marker and no two of them share a graphviz name, so graphviz
      never merges two regions into one. */
  lemma UnitRegionNamesUnique(procs: seq<Proc>)
    ensures var r := RunUnit(procs, Initial());
      r.Ok? ==> RegionsSound(r.value) && RegionNamesDistinct(r.value)
  {
    RunUnitRegions(procs, Initial());
    var r := RunUnit(procs, Initial());
    if r.Ok? {
      RegionNamesUnique(r.value);
    }
  }
}
