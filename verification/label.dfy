/** The record label of an OMP-for node (gcc-ompinfo.c, mk_omp_for_label).

    The label is built as `{ <node name> | for (...) | for (...) ...}` with one
    clause per collapsed loop dimension. Expression dumps of the compiler are
    opaque strings here. The relational operator is written with a backslash
    in front so that the record-label syntax of the renderer does not read it
    as a port. The text is passed through a pipe and read back into a
    1024-byte buffer, with the newline added by the pretty printer's flush;
    the source asserts that the bytes read stay below 1023. */
module Label {
  import opened Wrappers

  /** Comparison codes of a loop condition; `OtherCond` is any other tree code. */
  datatype Cond = LtExpr | GtExpr | LeExpr | GeExpr | OtherCond(code: string)

  /** One collapsed dimension: index variable, initial value, condition, bound
      and increment, each an opaque expression dump. */
  datatype Dim = Dim(index: string, initial: string, cond: Cond, final: string, incr: string)

  datatype LabelError = UnsupportedCond(code: string) | LabelTooLong(length: nat)

  /** Size of the buffer the label is read back into. */
  const LabelBufferSize: nat := 1024

  predicate Supported(c: Cond) {
    !c.OtherCond?
  }

  /** The C spelling of a supported relational operator. */
  function Symbol(c: Cond): string
    requires Supported(c)
  {
    match c
    case LtExpr => "<"
    case GtExpr => ">"
    case LeExpr => "<="
    case GeExpr => ">="
  }

  /** Puts a backslash before every angle bracket, so that the record-label
      syntax of the renderer reads it as text. */
  function Escape(s: string): string
    decreases |s|
  {
    if |s| == 0 then ""
    else (if IsAngle(s[0]) then "\\" + [s[0]] else [s[0]]) + Escape(s[1..])
  }

  /** The escaped operator; only the four relational operators are supported. */
  function CondText(c: Cond): (r: Option<string>)
    ensures r.Some? <==> Supported(c)
    ensures r.Some? ==> r.value == Escape(Symbol(c))
    ensures r.Some? ==> |r.value| == OpLength(c)
  {
    match c
    case LtExpr => assert "<"[1..] == ""; Some("\\<")
    case GtExpr => assert ">"[1..] == ""; Some("\\>")
    case LeExpr => assert "<="[1..] == "=" && "="[1..] == ""; Some("\\<=")
    case GeExpr => assert ">="[1..] == "=" && "="[1..] == ""; Some("\\>=")
    case OtherCond(_) => None
  }

  /** Length of each escaped operator, by counting its characters. */
  function OpLength(c: Cond): nat {
    match c
    case LtExpr => 2
    case GtExpr => 2
    case LeExpr => 3
    case GeExpr => 3
    case OtherCond(_) => 0
  }

  /** ` | for (<idx>=<init>; <idx><op><final>; <idx> = <incr>)` */
  function ClauseText(d: Dim, op: string): (r: string)
    ensures |r| == 17 + 3 * |d.index| + |d.initial| + |op| + |d.final| + |d.incr|
    ensures r[..8] == " | for (" && r[|r| - 1] == ')'
  {
    " | for (" + d.index + "=" + d.initial + "; " + d.index + op + d.final + "; " + d.index + " = " + d.incr + ")"
  }

  /** Reference length of one clause: 17 fixed characters, three copies of the
      index variable, and the other dumps once each. */
  function ClauseLength(d: Dim): nat {
    17 + 3 * |d.index| + |d.initial| + OpLength(d.cond) + |d.final| + |d.incr|
  }

  function ClausesLength(dims: seq<Dim>): nat {
    if |dims| == 0 then 0 else ClauseLength(dims[0]) + ClausesLength(dims[1..])
  }

  /** Reference length of a whole label: "{ ", the node name, the clauses, "}". */
  function LabelLength(nodeName: string, dims: seq<Dim>): nat {
    3 + |nodeName| + ClausesLength(dims)
  }

  predicate AllSupported(dims: seq<Dim>) {
    forall i :: 0 <= i < |dims| ==> Supported(dims[i].cond)
  }

  /** The clauses for dimensions 0 .. collapse-1, in index order; the first
      unsupported operator aborts. */
  function Clauses(dims: seq<Dim>): (r: Result<string, LabelError>)
    ensures r.Ok? <==> AllSupported(dims)
    ensures r.Err? ==> r.error.UnsupportedCond?
    ensures r.Ok? ==> |r.value| == ClausesLength(dims)
    decreases |dims|
  {
    if |dims| == 0 then Ok("")
    else
      match CondText(dims[0].cond)
      case None => Err(UnsupportedCond(dims[0].cond.code))
      case Some(op) =>
        match Clauses(dims[1..])
        case Err(e) => Err(e)
        case Ok(rest) => Ok(ClauseText(dims[0], op) + rest)
  }

  /** The label of an OMP-for node named `nodeName` with the given dimensions. */
  function MkForLabel(nodeName: string, dims: seq<Dim>): (r: Result<string, LabelError>)
    ensures r.Ok? <==> AllSupported(dims) && LabelLength(nodeName, dims) + 1 < LabelBufferSize - 1
    ensures r.Err? ==> (r.error.UnsupportedCond? <==> !AllSupported(dims))
    ensures r.Ok? ==> |r.value| == LabelLength(nodeName, dims)
    ensures r.Ok? ==> r.value[..2 + |nodeName|] == "{ " + nodeName && r.value[|r.value| - 1] == '}'
    ensures r.Ok? ==> r.value[2 + |nodeName|..|r.value| - 1] == Clauses(dims).value
  {
    match Clauses(dims)
    case Err(e) => Err(e)
    case Ok(cs) =>
      var text := "{ " + nodeName + cs + "}";
      // the pretty printer's flush appends a newline, which is read back too
      if |text| + 1 < LabelBufferSize - 1 then Ok(text) else Err(LabelTooLong(|text|))
  }

  /** The clauses of consecutive dimensions are concatenated in index order. */
  lemma ClausesConcat(a: seq<Dim>, b: seq<Dim>)
    requires Clauses(a).Ok? && Clauses(b).Ok?
    ensures Clauses(a + b) == Ok(Clauses(a).value + Clauses(b).value)
  {
    ClausesJoin(a, b, Clauses(a).value, Clauses(b).value);
  }

  lemma {:induction false} ClausesJoin(a: seq<Dim>, b: seq<Dim>, ra: string, rb: string)
    requires Clauses(a) == Ok(ra) && Clauses(b) == Ok(rb)
    ensures Clauses(a + b) == Ok(ra + rb)
    decreases |a|
  {
    if |a| == 0 {
      ClausesEmptyConcat(a, b);
    } else {
      var d := a[0];
      var head := ClauseText(d, CondText(d.cond).value);
      var rt := ra[|head|..];
      ClausesUncons(a, head, ra, rt);
      ClausesJoin(a[1..], b, rt, rb);
      ClausesConsConcat(a, b, head, rt, rb);
      ConcatAssoc(head, rt, rb);
    }
  }

  lemma ConcatAssoc(x: string, y: string, z: string)
    ensures x + (y + z) == x + y + z
  {
  }

  /** The clauses of a non-empty sequence are its first clause and the rest. */
  lemma ClausesUncons(a: seq<Dim>, head: string, ra: string, rt: string)
    requires |a| > 0 && Clauses(a) == Ok(ra)
    requires head == ClauseText(a[0], CondText(a[0].cond).value) && |head| <= |ra| && rt == ra[|head|..]
    ensures Clauses(a[1..]) == Ok(rt) && ra == head + rt
  {
  }

  lemma ClausesEmptyConcat(a: seq<Dim>, b: seq<Dim>)
    requires |a| == 0 && Clauses(b).Ok?
    ensures Clauses(a + b) == Ok(Clauses(a).value + Clauses(b).value)
  {
    assert a + b == b;
    assert Clauses(a).value == "";
    assert "" + Clauses(b).value == Clauses(b).value;
  }

  /** The first clause of `a` heads the clauses of `a + b`. */
  lemma ClausesConsConcat(a: seq<Dim>, b: seq<Dim>, head: string, ra: string, rb: string)
    requires |a| > 0 && Supported(a[0].cond)
    requires head == ClauseText(a[0], CondText(a[0].cond).value)
    requires Clauses(a[1..] + b) == Ok(ra + rb)
    ensures Clauses(a + b) == Ok(head + (ra + rb))
  {
    var ab := a + b;
    assert ab[0] == a[0];
    assert ab[1..] == a[1..] + b;
    ClausesCons(ab, head, ra + rb);
  }

  /** The first clause followed by the rest. */
  lemma ClausesCons(dims: seq<Dim>, head: string, rest: string)
    requires |dims| > 0 && Supported(dims[0].cond)
    requires head == ClauseText(dims[0], CondText(dims[0].cond).value)
    requires Clauses(dims[1..]) == Ok(rest)
    ensures Clauses(dims) == Ok(head + rest)
  {
  }

  /** One dimension gives exactly its own clause, with its escaped operator. */
  lemma ClausesSingle(d: Dim)
    requires Supported(d.cond)
    ensures Clauses([d]) == Ok(ClauseText(d, Escape(Symbol(d.cond))))
  {
    assert [d][1..] == [];
    assert ClauseText(d, CondText(d.cond).value) + "" == ClauseText(d, CondText(d.cond).value);
  }

  // ---------------------------------------------------------------------------
  // Record structure of the label

  /** Number of occurrences of `c` in `s`. */
  function Count(c: char, s: string): nat
    decreases |s|
  {
    if |s| == 0 then 0 else (if s[0] == c then 1 else 0) + Count(c, s[1..])
  }

  lemma {:induction false} CountConcat(c: char, a: string, b: string)
    ensures Count(c, a + b) == Count(c, a) + Count(c, b)
    decreases |a|
  {
    if |a| == 0 {
      assert a + b == b;
    } else {
      assert (a + b)[0] == a[0];
      assert (a + b)[1..] == a[1..] + b;
      CountConcat(c, a[1..], b);
    }
  }

  lemma {:induction false} CountAbsent(c: char, s: string)
    requires c !in s
    ensures Count(c, s) == 0
    decreases |s|
  {
    if |s| > 0 {
      assert s == [s[0]] + s[1..];
      CountAbsent(c, s[1..]);
    }
  }

  predicate DimFree(c: char, d: Dim) {
    c !in d.index && c !in d.initial && c !in d.final && c !in d.incr
  }

  /** A clause holds exactly one field separator '|' when the dumps hold none. */
  lemma ClauseHasOneBar(d: Dim, op: string)
    requires DimFree('|', d) && '|' !in op
    ensures Count('|', ClauseText(d, op)) == 1
  {
    var c := '|';
    CountAbsent(c, d.index);
    CountAbsent(c, d.initial);
    CountAbsent(c, d.final);
    CountAbsent(c, d.incr);
    CountAbsent(c, op);
    assert Count(c, " | for (") == 1;
    assert Count(c, "=") == 0;
    assert Count(c, "; ") == 0;
    assert Count(c, " = ") == 0;
    assert Count(c, ")") == 0;
    var s1 := " | for (" + d.index;
    CountConcat(c, " | for (", d.index);
    var s2 := s1 + "=";
    CountConcat(c, s1, "=");
    var s3 := s2 + d.initial;
    CountConcat(c, s2, d.initial);
    var s4 := s3 + "; ";
    CountConcat(c, s3, "; ");
    var s5 := s4 + d.index;
    CountConcat(c, s4, d.index);
    var s6 := s5 + op;
    CountConcat(c, s5, op);
    var s7 := s6 + d.final;
    CountConcat(c, s6, d.final);
    var s8 := s7 + "; ";
    CountConcat(c, s7, "; ");
    var s9 := s8 + d.index;
    CountConcat(c, s8, d.index);
    var s10 := s9 + " = ";
    CountConcat(c, s9, " = ");
    var s11 := s10 + d.incr;
    CountConcat(c, s10, d.incr);
    CountConcat(c, s11, ")");
  }

  /** The clause string holds one '|' per dimension. */
  lemma {:induction false} ClausesBars(dims: seq<Dim>)
    requires forall i :: 0 <= i < |dims| ==> DimFree('|', dims[i])
    requires Clauses(dims).Ok?
    ensures Count('|', Clauses(dims).value) == |dims|
    decreases |dims|
  {
    if |dims| > 0 {
      var op := CondText(dims[0].cond).value;
      ClauseHasOneBar(dims[0], op);
      ClausesBars(dims[1..]);
      CountConcat('|', ClauseText(dims[0], op), Clauses(dims[1..]).value);
    }
  }

  /** When neither the node name nor any dump contains '|', the label is a
      record with exactly one field for the name and one per dimension. */
  lemma LabelFieldCount(nodeName: string, dims: seq<Dim>)
    requires '|' !in nodeName
    requires forall i :: 0 <= i < |dims| ==> DimFree('|', dims[i])
    requires MkForLabel(nodeName, dims).Ok?
    ensures Count('|', MkForLabel(nodeName, dims).value) == |dims|
  {
    var cs := Clauses(dims).value;
    ClausesBars(dims);
    CountAbsent('|', nodeName);
    assert Count('|', "{ ") == 0;
    assert Count('|', "}") == 0;
    CountConcat('|', "{ ", nodeName);
    CountConcat('|', "{ " + nodeName, cs);
    CountConcat('|', "{ " + nodeName + cs, "}");
  }

  // ---------------------------------------------------------------------------
  // Escaping of the relational operators

  predicate IsAngle(ch: char) {
    ch == '<' || ch == '>'
  }

  /** Every angle bracket in `s` is preceded by a backslash. */
  predicate Escaped(s: string) {
    forall i :: 0 <= i < |s| && IsAngle(s[i]) ==> 0 < i && s[i - 1] == '\\'
  }

  predicate NoAngles(s: string) {
    forall i :: 0 <= i < |s| ==> !IsAngle(s[i])
  }

  lemma EscapedConcat(a: string, b: string)
    requires Escaped(a) && Escaped(b)
    ensures Escaped(a + b)
  {
    var s := a + b;
    forall i | 0 <= i < |s| && IsAngle(s[i])
      ensures 0 < i && s[i - 1] == '\\'
    {
      if i >= |a| {
        assert s[i] == b[i - |a|];
        assert s[i - 1] == b[i - |a| - 1];
      } else {
        assert s[i] == a[i];
      }
    }
  }

  /** Whatever `Escape` is given, every angle bracket of its result is escaped. */
  lemma {:induction false} EscapeEscaped(s: string)
    ensures Escaped(Escape(s))
    decreases |s|
  {
    if |s| > 0 {
      var head: string := if IsAngle(s[0]) then "\\" + [s[0]] else [s[0]];
      EscapeEscaped(s[1..]);
      assert Escaped(head) by {
        if !IsAngle(s[0]) {
          assert head == [s[0]];
        }
      }
      EscapedConcat(head, Escape(s[1..]));
    }
  }

  /** Every operator text is escaped. */
  lemma CondTextEscaped(c: Cond)
    requires Supported(c)
    ensures Escaped(CondText(c).value)
  {
    var t := CondText(c).value;
    assert t[0] == '\\';
    assert forall i :: 1 < i < |t| ==> !IsAngle(t[i]);
  }

  predicate DimNoAngles(d: Dim) {
    NoAngles(d.index) && NoAngles(d.initial) && NoAngles(d.final) && NoAngles(d.incr)
  }

  lemma ClauseEscaped(d: Dim, op: string)
    requires DimNoAngles(d) && Escaped(op)
    ensures Escaped(ClauseText(d, op))
  {
    assert Escaped(" | for (") && Escaped("=") && Escaped("; ") && Escaped(" = ") && Escaped(")");
    var s1 := " | for (" + d.index;
    EscapedConcat(" | for (", d.index);
    EscapedConcat(s1, "=");
    var s3 := s1 + "=" + d.initial;
    EscapedConcat(s1 + "=", d.initial);
    EscapedConcat(s3, "; ");
    var s5 := s3 + "; " + d.index;
    EscapedConcat(s3 + "; ", d.index);
    EscapedConcat(s5, op);
    var s7 := s5 + op + d.final;
    EscapedConcat(s5 + op, d.final);
    EscapedConcat(s7, "; ");
    var s9 := s7 + "; " + d.index;
    EscapedConcat(s7 + "; ", d.index);
    EscapedConcat(s9, " = ");
    var s11 := s9 + " = " + d.incr;
    EscapedConcat(s9 + " = ", d.incr);
    EscapedConcat(s11, ")");
  }

  lemma {:induction false} ClausesEscaped(dims: seq<Dim>)
    requires forall i :: 0 <= i < |dims| ==> DimNoAngles(dims[i])
    requires Clauses(dims).Ok?
    ensures Escaped(Clauses(dims).value)
    decreases |dims|
  {
    if |dims| == 0 {
      assert Clauses(dims).value == "";
    } else {
      var op := CondText(dims[0].cond).value;
      CondTextEscaped(dims[0].cond);
      ClauseEscaped(dims[0], op);
      ClausesEscaped(dims[1..]);
      EscapedConcat(ClauseText(dims[0], op), Clauses(dims[1..]).value);
    }
  }

  /** When the node name and the dumps contain no angle brackets, every angle
      bracket of the label is an escaped relational operator. */
  lemma LabelEscaped(nodeName: string, dims: seq<Dim>)
    requires NoAngles(nodeName)
    requires forall i :: 0 <= i < |dims| ==> DimNoAngles(dims[i])
    requires MkForLabel(nodeName, dims).Ok?
    ensures Escaped(MkForLabel(nodeName, dims).value)
  {
    var cs := Clauses(dims).value;
    ClausesEscaped(dims);
    assert Escaped("{ ") && Escaped("}");
    EscapedConcat("{ ", nodeName);
    EscapedConcat("{ " + nodeName, cs);
    EscapedConcat("{ " + nodeName + cs, "}");
  }

  /** Two collapsed dimensions `i = 0; i < N; i = i + 1` and `j = 0; j < M;
      j = j + 1` give two clauses in order, each with the escaped `<`. */
  lemma TwoDimensionLabel()
    ensures MkForLabel("omp_for.3", [Dim("i", "0", LtExpr, "N", "i + 1"), Dim("j", "0", LtExpr, "M", "j + 1")])
         == Ok("{ omp_for.3" + " | for (i=0; i\\<N; i = i + 1)" + " | for (j=0; j\\<M; j = j + 1)" + "}")
  {
    var c0 := " | for (i=0; i\\<N; i = i + 1)";
    var c1 := " | for (j=0; j\\<M; j = j + 1)";
    TwoDimensionClauses();
    assert "{ " + "omp_for.3" == "{ omp_for.3";
    assert "{ " + "omp_for.3" + (c0 + c1) + "}" == "{ omp_for.3" + c0 + c1 + "}";
  }

  lemma TwoDimensionClauses()
    ensures Clauses([Dim("i", "0", LtExpr, "N", "i + 1"), Dim("j", "0", LtExpr, "M", "j + 1")])
         == Ok(" | for (i=0; i\\<N; i = i + 1)" + " | for (j=0; j\\<M; j = j + 1)")
  {
    var d0, d1 := Dim("i", "0", LtExpr, "N", "i + 1"), Dim("j", "0", LtExpr, "M", "j + 1");
    var dims := [d0, d1];
    var c1 := " | for (j=0; j\\<M; j = j + 1)";
    assert ClauseText(d0, "\\<") == " | for (i=0; i\\<N; i = i + 1)";
    assert ClauseText(d1, "\\<") == c1;
    assert dims[1..] == [d1];
    assert [d1][1..] == [];
    assert Clauses([d1]) == Ok(c1 + "");
    assert c1 + "" == c1;
  }
}
