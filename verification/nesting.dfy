/** Push/pop discipline of the region builder. A pushing marker records the
    current subgraph as the parent of the subgraph it opens; an end marker
    looks that parent up. Along one path of the dominator tree this behaves
    like a stack of subgraphs kept in the registry: a balanced sequence of
    markers returns to the subgraph it started in, and a lookup never misses
    as long as no path closes more regions than are open. */
module Nesting {
  import opened Wrappers
  import opened Names
  import opened Label
  import opened Markers
  import opened Graph
  import opened Builder
  import opened Invariants
  import opened Regions

  /** The markers met along one path, processed block after block. */
  function Run(fn: string, ctx: Ctx, ms: seq<Marker>, s: Session): Result<(Ctx, Session), Fatal>
    decreases |ms|, 0
  {
    if |ms| == 0 then Ok((ctx, s))
    else RunOn(fn, Step(fn, ctx, Some(Omp(ms[0])), s), ms[1..])
  }

  /** Continues a run with the outcome of its previous block. */
  function RunOn(fn: string, r: Result<(Ctx, Session), Fatal>, ms: seq<Marker>): Result<(Ctx, Session), Fatal>
    decreases |ms|, 1
  {
    match r
    case Err(e) => Err(e)
    case Ok((next, s1)) => Run(fn, next, ms, s1)
  }

  /** A dominator tree that is a single path: one marker per block. */
  function Chain(ms: seq<Marker>): Block
    decreases |ms|
  {
    if |ms| == 0 then Block(None, []) else Block(Some(Omp(ms[0])), [Chain(ms[1..])])
  }

  function SessionOf(r: Result<(Ctx, Session), Fatal>): Result<Session, Fatal> {
    match r
    case Ok((_, s)) => Ok(s)
    case Err(e) => Err(e)
  }

  /** Visiting a single-path tree is running its markers in order. */
  lemma {:induction false} ChainVisit(fn: string, ms: seq<Marker>, ctx: Ctx, s: Session)
    ensures Visit(fn, Chain(ms), ctx, s) == SessionOf(Run(fn, ctx, ms, s))
    decreases |ms|
  {
    if |ms| > 0 {
      var r := Step(fn, ctx, Some(Omp(ms[0])), s);
      if r.Ok? {
        var (next, s1) := r.value;
        ChainVisit(fn, ms[1..], next, s1);
        VisitOnlyKid(fn, Chain(ms[1..]), next, s1);
      }
    }
  }

  lemma VisitOnlyKid(fn: string, b: Block, ctx: Ctx, s: Session)
    ensures VisitKids(fn, [b], ctx, s) == Visit(fn, b, ctx, s)
  {
    assert [b][1..] == [];
  }

  // ---------------------------------------------------------------------------
  // Depth bookkeeping

  /** +1 for a pushing marker, -1 for the end marker, 0 otherwise. */
  function Delta(m: Option<Marker>): int {
    if m.None? then 0
    else match ClassOf(m.value)
      case Push => 1
      case Pop => -1
      case _ => 0
  }

  function Net(ms: seq<Marker>): int
    decreases |ms|
  {
    if |ms| == 0 then 0 else Delta(Some(ms[0])) + Net(ms[1..])
  }

  /** Starting `k` levels deep, no prefix of `ms` closes more regions than are open. */
  predicate Within(ms: seq<Marker>, k: nat)
    decreases |ms|
  {
    |ms| == 0 || (k + Delta(Some(ms[0])) >= 0 && Within(ms[1..], k + Delta(Some(ms[0]))))
  }

  /** Every path of the tree, starting `k` levels deep, stays within. */
  predicate TreeWithin(b: Block, k: nat)
    decreases b
  {
    var d := Delta(MarkerOf(b.last));
    k + d >= 0 && forall i :: 0 <= i < |b.kids| ==> TreeWithin(b.kids[i], k + d)
  }

  /** The subgraph reached by following registered parents `k` times. */
  function Ancestor(reg: map<Handle, Handle>, c: Handle, k: nat): Option<Handle>
    decreases k
  {
    if k == 0 then Some(c)
    else if c in reg then Ancestor(reg, reg[c], k - 1)
    else None
  }

  /** `reg2` keeps every entry of `reg`. */
  ghost predicate Extends(reg: map<Handle, Handle>, reg2: map<Handle, Handle>) {
    forall g :: g in reg ==> g in reg2 && reg2[g] == reg[g]
  }

  /** Every registered subgraph was created before the next fresh handle. */
  ghost predicate Below(s: Session) {
    forall g :: g in s.registry ==> g < s.nextHandle
  }

  lemma ValidBelow(s: Session)
    requires Valid(s)
    ensures Below(s)
  {
  }

  /** Registry entries are never overwritten, so ancestors once known stay. */
  lemma {:induction false} AncestorStays(reg: map<Handle, Handle>, reg2: map<Handle, Handle>, c: Handle, k: nat)
    requires Extends(reg, reg2)
    requires Ancestor(reg, c, k).Some?
    ensures Ancestor(reg2, c, k) == Ancestor(reg, c, k)
    decreases k
  {
    if k > 0 {
      AncestorStays(reg, reg2, reg[c], k - 1);
    }
  }

  /** The context is `k` levels below subgraph `a`. Before the first marker of
      a path the context is the root graph and only k == 1 and a == Root are
      possible: the procedure subgraph that the first marker creates is
      registered under the root graph. */
  ghost predicate Reach(ctx: Ctx, s: Session, k: nat, a: Handle) {
    if ctx.anchor.None? then ctx.container == Root && k == 1 && a == Root
    else Ancestor(s.registry, ctx.container, k) == Some(a)
  }

  lemma ReachStays(ctx: Ctx, s: Session, t: Session, k: nat, a: Handle)
    requires Reach(ctx, s, k, a) && Extends(s.registry, t.registry)
    ensures Reach(ctx, t, k, a)
  {
    if ctx.anchor.Some? {
      AncestorStays(s.registry, t.registry, ctx.container, k);
    }
  }

  /** What one block, or a run of blocks, promises about depth: on success
      the registry only grew and the context is `k2` levels below `a`; a
      failure is an unknown code or a label, never a registry lookup. */
  ghost predicate Moved(s: Session, r: Result<(Ctx, Session), Fatal>, k2: int, a: Handle) {
    && (r.Ok? ==> && k2 >= 0 && Below(r.value.1) && Extends(s.registry, r.value.1.registry)
                  && Reach(r.value.0, r.value.1, k2 as nat, a))
    && (r.Err? ==> r.error.UnknownOmpCode? || r.error.BadLabel?)
  }

  lemma MovedFrom(s: Session, s1: Session, r: Result<(Ctx, Session), Fatal>, k2: int, a: Handle)
    requires Extends(s.registry, s1.registry) && Moved(s1, r, k2, a)
    ensures Moved(s, r, k2, a)
  {
  }

  /** A push registers the new subgraph under the current one, one level
      deeper; an end marker whose lookup the depth allows returns to the
      registered parent, one level up; a flat marker stays. */
  lemma DispatchReach(m: Marker, id: nat, c: Handle, anchor: Handle, s: Session, k: nat, a: Handle)
    requires Below(s)
    requires Ancestor(s.registry, c, k) == Some(a)
    requires k + Delta(Some(m)) >= 0
    ensures Moved(s, Dispatch(m, id, c, anchor, s), k + Delta(Some(m)), a)
  {
    match ClassOf(m)
    case Push =>
      var (g, s1) := NewSubgraph(s, c, RegionOf(m, id));
      assert g !in s.registry;
      AncestorStays(s.registry, s1.registry, c, k);
      assert Ancestor(s1.registry, g, k + 1) == Ancestor(s1.registry, c, k);
    case Pop =>
      assert c in s.registry;
    case Flat =>
    case Invalid =>
  }

  /** Entering the procedure keeps the depth: with an anchor nothing changes;
      without one, the procedure subgraph it creates is one level below the
      root graph. */
  lemma EnterReach(fn: string, ctx: Ctx, s: Session, k: nat, a: Handle)
    requires Below(s) && Reach(ctx, s, k, a)
    ensures var e := EnterFunction(fn, ctx, s);
      && e.Ok?
      && Below(e.value.2) && Extends(s.registry, e.value.2.registry)
      && Ancestor(e.value.2.registry, e.value.0, k) == Some(a)
  {
    if ctx.anchor.None? {
      var (c, _, s1) := EnterFunction(fn, ctx, s).value;
      assert c !in s.registry;
      assert s1.registry[c] == Root;
      assert Ancestor(s1.registry, Root, 0) == Some(Root);
    }
  }

  /** One block moves the depth by the Delta of its marker and keeps the
      ancestor; it never fails on a registry lookup when the depth allows. */
  lemma StepReach(fn: string, ctx: Ctx, last: Option<Stmt>, s: Session, k: nat, a: Handle)
    requires Below(s) && Reach(ctx, s, k, a)
    requires k + Delta(MarkerOf(last)) >= 0
    ensures Moved(s, Step(fn, ctx, last, s), k + Delta(MarkerOf(last)), a)
  {
    if MarkerOf(last).None? {
      assert Step(fn, ctx, last, s) == Ok((ctx, s));
    } else {
      var m := MarkerOf(last).value;
      EnterReach(fn, ctx, s, k, a);
      var e := EnterFunction(fn, ctx, s);
      var s1 := e.value.2;
      var s2 := s1.(counter := s1.counter + 1);
      var r := Dispatch(m, s1.counter, e.value.0, e.value.1, s2);
      DispatchReach(m, s1.counter, e.value.0, e.value.1, s2, k, a);
      MovedFrom(s, s2, r, k + Delta(Some(m)), a);
      assert Step(fn, ctx, last, s) == r;
    }
  }

  // ---------------------------------------------------------------------------
  // Along one path

  /** Starting `k` levels below `a`, a run that never closes more regions than
      are open ends `k + Net(ms)` levels below `a`, and it can only abort on
      an unknown code or a label, never on a registry lookup. */
  lemma {:induction false} RunRestores(fn: string, ctx: Ctx, ms: seq<Marker>, s: Session, k: nat, a: Handle)
    requires Below(s) && Reach(ctx, s, k, a)
    requires Within(ms, k)
    ensures Moved(s, Run(fn, ctx, ms, s), k + Net(ms), a)
    decreases |ms|
  {
    if |ms| > 0 {
      var m := ms[0];
      var d := Delta(Some(m));
      StepReach(fn, ctx, Some(Omp(m)), s, k, a);
      var r := Step(fn, ctx, Some(Omp(m)), s);
      if r.Ok? {
        var (next, s1) := r.value;
        RunRestores(fn, next, ms[1..], s1, k + d, a);
        MovedFrom(s, s1, Run(fn, next, ms[1..], s1), k + d + Net(ms[1..]), a);
        assert Run(fn, ctx, ms, s) == Run(fn, next, ms[1..], s1);
      } else {
        assert Run(fn, ctx, ms, s) == Err(r.error);
      }
    }
  }

  /** A balanced sequence of markers (never closing more than it opened, and
      closing all it opened) returns to the subgraph it started in. */
  lemma BalancedRunRestores(fn: string, ctx: Ctx, ms: seq<Marker>, s: Session)
    requires Below(s) && ctx.anchor.Some?
    requires Within(ms, 0) && Net(ms) == 0
    ensures var r := Run(fn, ctx, ms, s);
      && (r.Ok? ==> r.value.0.container == ctx.container)
      && (r.Err? ==> !r.error.RegistryMiss?)
  {
    RunRestores(fn, ctx, ms, s, 0, ctx.container);
  }

  /** `push A; push B; pop; pop` along one path: the first pop returns to A's
      subgraph and the second to the subgraph current before A. */
  lemma NestedPushPop(fn: string, ctx: Ctx, ma: Marker, mb: Marker, s: Session)
    requires Below(s) && ctx.anchor.Some?
    requires ClassOf(ma) == Push && ClassOf(mb) == Push
    ensures var ra := Run(fn, ctx, [ma], s);
            var r3 := Run(fn, ctx, [ma, mb, Return], s);
            var r4 := Run(fn, ctx, [ma, mb, Return, Return], s);
      && (r3.Ok? ==> ra.Ok? && r3.value.0.container == ra.value.0.container)
      && (r4.Ok? ==> r4.value.0.container == ctx.container)
      && (r4.Err? ==> !r4.error.RegistryMiss?)
  {
    var ms4 := [ma, mb, Return, Return];
    assert ms4[1..] == [mb, Return, Return];
    assert ms4[1..][1..] == [Return, Return];
    assert ms4[1..][1..][1..] == [Return];
    assert ms4[1..][1..][1..][1..] == [];
    assert Net([Return]) == -1;
    assert Net([Return, Return]) == -2;
    assert Net([mb, Return, Return]) == -1;
    assert Within(ms4, 0);
    BalancedRunRestores(fn, ctx, ms4, s);
    StepReach(fn, ctx, Some(Omp(ma)), s, 0, ctx.container);
    var r := Step(fn, ctx, Some(Omp(ma)), s);
    if r.Ok? {
      var (c1, s1) := r.value;
      RunFirst(fn, ctx, [ma], s);
      RunFirst(fn, ctx, [ma, mb, Return], s);
      var ms2 := [mb, Return];
      assert [ma][1..] == [] && [ma, mb, Return][1..] == ms2;
      assert ms2[1..] == [Return] && ms2[1..][1..] == [];
      assert Net(ms2) == 0;
      assert Run(fn, ctx, [ma], s) == Ok((c1, s1));
      BalancedRunRestores(fn, c1, ms2, s1);
    }
  }

  /** Unfolds the first block of a run. */
  lemma RunFirst(fn: string, ctx: Ctx, ms: seq<Marker>, s: Session)
    requires |ms| > 0
    ensures var r := Step(fn, ctx, Some(Omp(ms[0])), s);
      Run(fn, ctx, ms, s) == if r.Ok? then Run(fn, r.value.0, ms[1..], r.value.1) else Err(r.error)
  {
  }

  /** A path that starts at procedure entry (no anchor yet) runs as if it
      started inside the procedure subgraph, anchored at the entry node. */
  lemma EntryRun(fn: string, id: nat, ms: seq<Marker>, s: Session)
    requires |ms| > 0
    ensures var (f, s1) := NewSubgraph(s, Root, ProcedureOf(fn));
            var (e, s2) := NewNode(s1, f, Entry(fn), None, None);
            Run(fn, Ctx(id, None, Root), ms, s) == Run(fn, Ctx(id, Some(e), f), ms, s2)
  {
    var (f, s1) := NewSubgraph(s, Root, ProcedureOf(fn));
    var (e, s2) := NewNode(s1, f, Entry(fn), None, None);
    RunFirst(fn, Ctx(id, None, Root), ms, s);
    RunFirst(fn, Ctx(id, Some(e), f), ms, s2);
    assert EnterFunction(fn, Ctx(id, None, Root), s) == Ok((f, e, s2));
    assert EnterFunction(fn, Ctx(id, Some(e), f), s2) == Ok((f, e, s2));
  }

  /** The procedure subgraph created at entry is registered under the root,
      and the state after entry keeps `Below`. */
  lemma EntryBelow(fn: string, s: Session)
    requires Below(s)
    ensures var (f, s1) := NewSubgraph(s, Root, ProcedureOf(fn));
            var (e, s2) := NewNode(s1, f, Entry(fn), None, None);
            f == s.nextHandle && Below(s2) && f in s2.registry && s2.registry[f] == Root
  {
  }

  /** A balanced path that starts at procedure entry ends in the procedure
      subgraph `cluster_<fn>`, which stays registered under the root graph;
      it never misses a lookup. */
  lemma BalancedRunFromEntry(fn: string, id: nat, ms: seq<Marker>, s: Session)
    requires Below(s) && |ms| > 0
    requires Within(ms, 0) && Net(ms) == 0
    ensures var r := Run(fn, Ctx(id, None, Root), ms, s);
      && (r.Ok? ==> && r.value.0.container == s.nextHandle
                    && s.nextHandle in r.value.1.registry && r.value.1.registry[s.nextHandle] == Root)
      && (r.Err? ==> r.error.UnknownOmpCode? || r.error.BadLabel?)
  {
    var (f, s1) := NewSubgraph(s, Root, ProcedureOf(fn));
    var (e, s2) := NewNode(s1, f, Entry(fn), None, None);
    EntryRun(fn, id, ms, s);
    EntryBelow(fn, s);
    var ctx := Ctx(id, Some(e), f);
    assert Reach(ctx, s2, 0, f);
    RunRestores(fn, ctx, ms, s2, 0, f);
  }

  /** `push A; push B; pop; pop` from procedure entry: A is the procedure's
      first construct, so the procedure subgraph is created first; the first
      pop returns to A's subgraph and the second to the procedure subgraph. */
  lemma NestedPushPopFromEntry(fn: string, id: nat, ma: Marker, mb: Marker, s: Session)
    requires Below(s)
    requires ClassOf(ma) == Push && ClassOf(mb) == Push
    ensures var ctx := Ctx(id, None, Root);
            var ra := Run(fn, ctx, [ma], s);
            var r3 := Run(fn, ctx, [ma, mb, Return], s);
            var r4 := Run(fn, ctx, [ma, mb, Return, Return], s);
      && (r3.Ok? ==> ra.Ok? && r3.value.0.container == ra.value.0.container)
      && (r4.Ok? ==> r4.value.0.container == s.nextHandle)
      && (r4.Err? ==> !r4.error.RegistryMiss?)
  {
    var (f, s1) := NewSubgraph(s, Root, ProcedureOf(fn));
    var (e, s2) := NewNode(s1, f, Entry(fn), None, None);
    EntryRun(fn, id, [ma], s);
    EntryRun(fn, id, [ma, mb, Return], s);
    EntryRun(fn, id, [ma, mb, Return, Return], s);
    EntryBelow(fn, s);
    NestedPushPop(fn, Ctx(id, Some(e), f), ma, mb, s2);
  }

  // ---------------------------------------------------------------------------
  // Over a whole dominator tree

  /** On a tree none of whose paths closes more regions than are open the
      registry lookup never misses. Siblings see the same context; what an
      earlier sibling adds to the registry does not disturb the ancestors a
      later sibling relies on. */
  lemma {:induction false} VisitNeverMisses(fn: string, b: Block, ctx: Ctx, s: Session, k: nat, a: Handle)
    requires Below(s) && Reach(ctx, s, k, a)
    requires TreeWithin(b, k)
    ensures var r := Visit(fn, b, ctx, s);
      && (r.Ok? ==> Below(r.value) && Extends(s.registry, r.value.registry))
      && (r.Err? ==> r.error.UnknownOmpCode? || r.error.BadLabel?)
    decreases b
  {
    var d := Delta(MarkerOf(b.last));
    StepReach(fn, ctx, b.last, s, k, a);
    var r := Step(fn, ctx, b.last, s);
    if r.Ok? {
      var (next, s1) := r.value;
      KidsNeverMiss(fn, b.kids, next, s1, k + d, a);
    }
  }

  lemma {:induction false} KidsNeverMiss(fn: string, kids: seq<Block>, ctx: Ctx, s: Session, k: nat, a: Handle)
    requires Below(s) && Reach(ctx, s, k, a)
    requires forall i :: 0 <= i < |kids| ==> TreeWithin(kids[i], k)
    ensures var r := VisitKids(fn, kids, ctx, s);
      && (r.Ok? ==> Below(r.value) && Extends(s.registry, r.value.registry))
      && (r.Err? ==> r.error.UnknownOmpCode? || r.error.BadLabel?)
    decreases kids
  {
    if |kids| > 0 {
      VisitNeverMisses(fn, kids[0], ctx, s, k, a);
      var r := Visit(fn, kids[0], ctx, s);
      if r.Ok? {
        ReachStays(ctx, s, r.value, k, a);
        KidsNeverMiss(fn, kids[1..], ctx, r.value, k, a);
      }
    }
  }

  /** A procedure none of whose paths closes more regions than it opens,
      counting the procedure subgraph itself, never aborts on a registry
      lookup, nor on the placement of the procedure subgraph. */
  lemma FunctionNeverMisses(p: Proc, s: Session)
    requires Below(s)
    requires TreeWithin(p.entry, 1)
    ensures var r := RunFunction(p, s); r.Err? ==> r.error.UnknownOmpCode? || r.error.BadLabel?
  {
    VisitNeverMisses(p.name, p.entry, Ctx(s.counter, None, Root), s, 1, Root);
  }

  /** The same for a whole compilation unit. */
  lemma {:induction false} UnitNeverMisses(procs: seq<Proc>, s: Session)
    requires Below(s)
    requires forall i :: 0 <= i < |procs| ==> TreeWithin(procs[i].entry, 1)
    ensures var r := RunUnit(procs, s); r.Err? ==> r.error.UnknownOmpCode? || r.error.BadLabel?
    decreases |procs|
  {
    if |procs| > 0 {
      var p := procs[0];
      VisitNeverMisses(p.name, p.entry, Ctx(s.counter, None, Root), s, 1, Root);
      var r := RunFunction(p, s);
      if r.Ok? {
        UnitNeverMisses(procs[1..], r.value);
      }
    }
  }

  // ---------------------------------------------------------------------------
  // Closing more regions than are open

  /** An end marker in the root graph finds no registered parent: the root
      graph was not created by the region builder. */
  lemma PopAtRootMisses(fn: string, ctx: Ctx, s: Session)
    requires Valid(s) && ctx.anchor.Some? && ctx.container == Root
    ensures Step(fn, ctx, Some(Omp(Return)), s) == Err(RegistryMiss(Root))
  {
    assert Root !in s.registry;
  }

  /** The converse of `RunRestores`: from `k` levels below the root graph, a
      run one of whose prefixes closes more regions than are open aborts. */
  lemma {:induction false} RunMissesWhenUnbalanced(fn: string, ctx: Ctx, ms: seq<Marker>, s: Session, k: nat)
    requires Valid(s) && WfCtx(ctx, s) && Reach(ctx, s, k, Root)
    requires !Within(ms, k)
    ensures Run(fn, ctx, ms, s).Err?
    decreases |ms|
  {
    var m := ms[0];
    var d := Delta(Some(m));
    RunFirst(fn, ctx, ms, s);
    if k + d < 0 {
      assert m == Return;
      PopAtRootMisses(fn, ctx, s);
    } else {
      var k2: nat := k + d;
      var r := Step(fn, ctx, Some(Omp(m)), s);
      StepKeepsReach(fn, ctx, Some(Omp(m)), s, k, k2);
      if r.Ok? {
        RunMissesWhenUnbalanced(fn, r.value.0, ms[1..], r.value.1, k2);
      }
    }
  }

  /** The converse of `VisitNeverMisses`: a tree one of whose paths closes
      more regions than are open makes the run abort. */
  lemma {:induction false} VisitMissesWhenUnbalanced(fn: string, b: Block, ctx: Ctx, s: Session, k: nat)
    requires Valid(s) && WfCtx(ctx, s) && Reach(ctx, s, k, Root)
    requires !TreeWithin(b, k)
    ensures Visit(fn, b, ctx, s).Err?
    decreases b, 1
  {
    if k + Delta(MarkerOf(b.last)) < 0 {
      assert b.last == Some(Omp(Return));
      PopAtRootMisses(fn, ctx, s);
    } else {
      var k2: nat := k + Delta(MarkerOf(b.last));
      var r := Step(fn, ctx, b.last, s);
      VisitUnfold(fn, b, ctx, s, r);
      StepKeepsReach(fn, ctx, b.last, s, k, k2);
      if r.Ok? {
        var i := UnbalancedKid(b, k, k2);
        KidsMissWhenUnbalanced(fn, b.kids, r.value.0, r.value.1, k2, i);
      }
    }
  }

  /** A tree that stays within at its root block leaves a child that does not. */
  lemma UnbalancedKid(b: Block, k: nat, k2: nat) returns (i: nat)
    requires !TreeWithin(b, k) && k2 == k + Delta(MarkerOf(b.last))
    ensures i < |b.kids| && !TreeWithin(b.kids[i], k2)
  {
    i :| 0 <= i < |b.kids| && !TreeWithin(b.kids[i], k2);
  }

  /** Visiting a block is its step followed by its children. */
  lemma VisitUnfold(fn: string, b: Block, ctx: Ctx, s: Session, r: Result<(Ctx, Session), Fatal>)
    requires r == Step(fn, ctx, b.last, s)
    ensures r.Err? ==> Visit(fn, b, ctx, s).Err?
    ensures r.Ok? ==> Visit(fn, b, ctx, s) == VisitKids(fn, b.kids, r.value.0, r.value.1)
  {
  }

  /** One block keeps both the invariant and the depth below the root graph. */
  lemma StepKeepsReach(fn: string, ctx: Ctx, last: Option<Stmt>, s: Session, k: nat, k2: nat)
    requires Valid(s) && WfCtx(ctx, s) && Reach(ctx, s, k, Root)
    requires k2 == k + Delta(MarkerOf(last))
    ensures var r := Step(fn, ctx, last, s);
      r.Ok? ==> Valid(r.value.1) && WfCtx(r.value.0, r.value.1) && Reach(r.value.0, r.value.1, k2, Root)
  {
    ValidBelow(s);
    StepReachTo(fn, ctx, last, s, k, k2);
    StepKeeps(fn, ctx, last, s);
  }

  /** `StepReach` at a depth given by name. */
  lemma StepReachTo(fn: string, ctx: Ctx, last: Option<Stmt>, s: Session, k: nat, k2: nat)
    requires Below(s) && Reach(ctx, s, k, Root)
    requires k2 == k + Delta(MarkerOf(last))
    ensures var r := Step(fn, ctx, last, s); r.Ok? ==> Reach(r.value.0, r.value.1, k2, Root)
  {
    StepReach(fn, ctx, last, s, k, Root);
  }

  lemma {:induction false} KidsMissWhenUnbalanced(fn: string, kids: seq<Block>, ctx: Ctx, s: Session, k: nat, i: nat)
    requires Valid(s) && WfCtx(ctx, s) && Reach(ctx, s, k, Root)
    requires i < |kids| && !TreeWithin(kids[i], k)
    ensures VisitKids(fn, kids, ctx, s).Err?
    decreases kids, 2
  {
    if i == 0 {
      VisitMissesWhenUnbalanced(fn, kids[0], ctx, s, k);
    } else {
      assert kids[1..][i - 1] == kids[i];
      VisitKeeps(fn, kids[0], ctx, s);
      var r := Visit(fn, kids[0], ctx, s);
      if r.Ok? {
        WfCtxGrows(ctx, s, r.value);
        ReachStays(ctx, s, r.value, k, Root);
        KidsMissWhenUnbalanced(fn, kids[1..], ctx, r.value, k, i - 1);
      }
    }
  }

  /** A procedure one of whose paths closes more regions than it opens,
      counting the procedure subgraph, aborts the run. */
  lemma FunctionMissesWhenUnbalanced(p: Proc, s: Session)
    requires Valid(s)
    requires !TreeWithin(p.entry, 1)
    ensures RunFunction(p, s).Err?
  {
    VisitMissesWhenUnbalanced(p.name, p.entry, Ctx(s.counter, None, Root), s, 1);
  }
}
