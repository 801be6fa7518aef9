/** OpenMP marker statements and the dispatch table of the region builder
    (gcc-ompinfo.c, do_omp_graph). The code names are GCC's `gimple_code_name`
    strings for the OpenMP GIMPLE codes. */
module Markers {
  import opened Names
  import opened Label

  /** The OpenMP statement that ends a basic block. `For` carries its collapsed
      dimensions; `OtherOmp` is any other OpenMP code, named by its code name. */
  datatype Marker =
    | Task | Critical | Single | Parallel
    | For(dims: seq<Dim>)
    | Return
    | Master | Ordered | Section | Sections | SectionsSwitch
    | AtomicLoad | AtomicStore | Continue
    | OtherOmp(code: string)

  /** What a marker does to the current region: open a nested one, close the
      current one, stay in it, or abort the run. */
  datatype Class = Push | Pop | Flat | Invalid

  function ClassOf(m: Marker): Class {
    match m
    case Task => Push
    case Critical => Push
    case Single => Push
    case Parallel => Push
    case For(_) => Push
    case Return => Pop
    case Master => Flat
    case Ordered => Flat
    case Section => Flat
    case Sections => Flat
    case SectionsSwitch => Flat
    case AtomicLoad => Flat
    case AtomicStore => Flat
    case Continue => Flat
    case OtherOmp(_) => Invalid
  }

  function CodeName(m: Marker): string {
    match m
    case Task => "gimple_omp_task"
    case Critical => "gimple_omp_critical"
    case Single => "gimple_omp_single"
    case Parallel => "gimple_omp_parallel"
    case For(_) => "gimple_omp_for"
    case Return => "gimple_omp_return"
    case Master => "gimple_omp_master"
    case Ordered => "gimple_omp_ordered"
    case Section => "gimple_omp_section"
    case Sections => "gimple_omp_sections"
    case SectionsSwitch => "gimple_omp_sections_switch"
    case AtomicLoad => "gimple_omp_atomic_load"
    case AtomicStore => "gimple_omp_atomic_store"
    case Continue => "gimple_omp_continue"
    case OtherOmp(code) => code
  }

  /** Every recognised code name is longer than "gimple_", so the name
      builders' length assertion never fires for a recognised marker. */
  lemma RecognisedNamesLongEnough(m: Marker)
    requires ClassOf(m) != Invalid
    ensures |CodeName(m)| > GimplePrefixLength
  {
  }

  /** The dedicated OMP-for node name follows the general node naming scheme. */
  lemma ForNodeNameIsNodeName(dims: seq<Dim>, id: nat)
    ensures ForNodeName(id) == NodeName(CodeName(For(dims)), id)
  {
    assert Strip(CodeName(For(dims))) == "omp_for";
  }

  /** Distinct recognised kinds have distinct stripped names, so a node name
      tells which kind of construct the node stands for. */
  lemma StrippedNamesDistinct(m1: Marker, m2: Marker)
    requires ClassOf(m1) != Invalid && ClassOf(m2) != Invalid
    requires Strip(CodeName(m1)) == Strip(CodeName(m2))
    ensures m1.For? <==> m2.For?
    ensures !m1.For? ==> m1 == m2
  {
    var a, b := CodeName(m1), CodeName(m2);
    assert a == a[..GimplePrefixLength] + Strip(a);
    assert b == b[..GimplePrefixLength] + Strip(b);
    assert a[..GimplePrefixLength] == "gimple_" == b[..GimplePrefixLength];
    assert a == b;
  }
}
