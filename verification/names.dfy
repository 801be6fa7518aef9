/** Names given to graph nodes and subgraphs (gcc-ompinfo.c, mk_function_subgraph,
    mk_entry_node, mk_omp_subgraph, mk_omp_node, mk_omp_for_node).

    Every construct name embeds the construct's global id rendered by `%d`, so
    the names are unique as long as the ids are; the lemmas below prove that the
    rendering can be read back and that the naming schemes are injective. */
module Names {
  import opened Wrappers

  /** Length of the "gimple_" prefix that is skipped in GIMPLE code names. */
  const GimplePrefixLength: nat := 7

  /** Size of the stack buffer that receives the OMP-for node name. */
  const ForNameBufferSize: nat := 16

  predicate IsDigit(c: char) {
    '0' <= c <= '9'
  }

  predicate AllDigits(s: string) {
    forall i :: 0 <= i < |s| ==> IsDigit(s[i])
  }

  function DigitChar(d: nat): (c: char)
    requires d < 10
    ensures IsDigit(c)
    ensures (c as int) - ('0' as int) == d
  {
    "0123456789"[d]
  }

  /** Decimal rendering of a non-negative id, as `%d` prints it. */
  function NatToString(n: nat): (s: string)
    ensures 1 <= |s|
    ensures AllDigits(s)
    ensures s[0] == '0' ==> n == 0
    decreases n
  {
    if n < 10 then [DigitChar(n)] else NatToString(n / 10) + [DigitChar(n % 10)]
  }

  /** Reads a string of decimal digits back as a number (the inverse of `NatToString`). */
  function ParseDigits(s: string): nat
    requires AllDigits(s)
    decreases |s|
  {
    if |s| == 0 then 0
    else ParseDigits(s[..|s| - 1]) * 10 + ((s[|s| - 1] as int) - ('0' as int))
  }

  /** Rendering an id and parsing it back yields the id. */
  lemma {:induction false} ParseNatToString(n: nat)
    ensures ParseDigits(NatToString(n)) == n
    decreases n
  {
    if n >= 10 {
      var t := NatToString(n / 10);
      var s := t + [DigitChar(n % 10)];
      assert s[..|s| - 1] == t;
      ParseNatToString(n / 10);
    }
  }

  /** Distinct ids are rendered as distinct strings. */
  lemma NatToStringInjective(a: nat, b: nat)
    requires NatToString(a) == NatToString(b)
    ensures a == b
  {
    ParseNatToString(a);
    ParseNatToString(b);
  }

  /** Ids below 10^k are rendered with at most k digits. */
  lemma {:induction false} NatToStringLength(n: nat, k: nat)
    requires 1 <= k
    requires n < Pow10(k)
    ensures |NatToString(n)| <= k
    decreases n
  {
    if n >= 10 {
      assert Pow10(1) == 10;
      assert k != 1;
      assert n / 10 < Pow10(k - 1);
      NatToStringLength(n / 10, k - 1);
    }
  }

  /** Ids of at least 10^(k-1), k >= 1, need at least k digits. */
  lemma {:induction false} NatToStringLengthAtLeast(n: nat, k: nat)
    requires 1 <= k
    requires Pow10(k - 1) <= n
    ensures k <= |NatToString(n)|
    decreases k
  {
    if k > 1 {
      assert Pow10(k - 2) <= n / 10;
      NatToStringLengthAtLeast(n / 10, k - 1);
    }
  }

  function Pow10(k: nat): (p: nat)
    ensures 1 <= p
  {
    if k == 0 then 1 else 10 * Pow10(k - 1)
  }

  /** Position of the last '.' in a name, if it has one. */
  function LastDot(s: string): (r: Option<nat>)
    ensures r.Some? ==> r.value < |s| && s[r.value] == '.'
    ensures r.Some? ==> forall j :: r.value < j < |s| ==> s[j] != '.'
    ensures r.None? ==> forall j :: 0 <= j < |s| ==> s[j] != '.'
    decreases |s|
  {
    if |s| == 0 then None
    else if s[|s| - 1] == '.' then Some(|s| - 1)
    else LastDot(s[..|s| - 1])
  }

  /** A dot with no dot after it is the last dot. */
  lemma LastDotAt(s: string, p: nat)
    requires p < |s| && s[p] == '.'
    requires forall j :: p < j < |s| ==> s[j] != '.'
    ensures LastDot(s) == Some(p)
  {
    var r := LastDot(s);
    assert r.Some?;
    assert r.value >= p;
  }

  /** In `prefix + "." + digits` the last dot is the one before the digits. */
  lemma LastDotBeforeDigits(prefix: string, digits: string)
    requires AllDigits(digits)
    ensures LastDot(prefix + "." + digits) == Some(|prefix|)
  {
    var head := prefix + ".";
    NoDotAfter(head, digits);
    assert prefix + "." + digits == head + digits;
    LastDotAt(head + digits, |prefix|);
  }

  lemma NoDotAfter(head: string, digits: string)
    requires AllDigits(digits)
    ensures forall j :: |head| <= j < |head + digits| ==> (head + digits)[j] != '.'
  {
    var s := head + digits;
    forall j | |head| <= j < |s|
      ensures s[j] != '.'
    {
      assert s[j] == digits[j - |head|];
      assert IsDigit(digits[j - |head|]);
    }
  }

  /** The part of a GIMPLE code name after "gimple_". */
  function Strip(codeName: string): (r: string)
    requires |codeName| > GimplePrefixLength
    ensures |r| == |codeName| - GimplePrefixLength
    ensures codeName == codeName[..GimplePrefixLength] + r
  {
    codeName[GimplePrefixLength..]
  }

  /** Subgraph of one procedure: "cluster_<fn>". */
  function FunctionSubgraphName(fn: string): string {
    "cluster_" + fn
  }

  /** Entry node of one procedure: "<fn>()". */
  function EntryNodeName(fn: string): (r: string)
    ensures |r| >= 2 && r[|r| - 1] == ')'
  {
    fn + "()"
  }

  /** Node of a construct: the code name without "gimple_", a dot, and the id. */
  function NodeName(codeName: string, id: nat): (r: string)
    requires |codeName| > GimplePrefixLength
  {
    Strip(codeName) + "." + NatToString(id)
  }

  /** Subgraph of a construct: "cluster_" before the node naming scheme. */
  function SubgraphName(codeName: string, id: nat): (r: string)
    requires |codeName| > GimplePrefixLength
  {
    "cluster_" + Strip(codeName) + "." + NatToString(id)
  }

  /** Node of an OMP-for construct: "omp_for.<id>", with no truncation. */
  function ForNodeName(id: nat): (r: string) {
    "omp_for." + NatToString(id)
  }

  /** The OMP-for node name as the source writes it: `snprintf` into a 16-byte
      buffer keeps at most 15 characters. */
  function ForNodeNameAsWritten(id: nat): (r: string)
    ensures |r| <= ForNameBufferSize - 1
  {
    var full := "omp_for." + NatToString(id);
    if |full| <= ForNameBufferSize - 1 then full else full[..ForNameBufferSize - 1]
  }

  /** A node name determines the stripped code name and the id it was built from. */
  lemma NodeNameInjective(c1: string, i1: nat, c2: string, i2: nat)
    requires |c1| > GimplePrefixLength && |c2| > GimplePrefixLength
    ensures NodeName(c1, i1) == NodeName(c2, i2) ==> Strip(c1) == Strip(c2) && i1 == i2
  {
    if NodeName(c1, i1) == NodeName(c2, i2) {
      var p1, d1 := Strip(c1), NatToString(i1);
      var p2, d2 := Strip(c2), NatToString(i2);
      LastDotBeforeDigits(p1, d1);
      LastDotBeforeDigits(p2, d2);
      var s := NodeName(c1, i1);
      assert |p1| == |p2|;
      assert p1 == s[..|p1|] == p2;
      assert d1 == s[|p1| + 1..] == d2;
      NatToStringInjective(i1, i2);
    }
  }

  /** A subgraph name determines the stripped code name and the id. */
  lemma SubgraphNameInjective(c1: string, i1: nat, c2: string, i2: nat)
    requires |c1| > GimplePrefixLength && |c2| > GimplePrefixLength
    ensures SubgraphName(c1, i1) == SubgraphName(c2, i2) ==> Strip(c1) == Strip(c2) && i1 == i2
  {
    var s1, s2 := SubgraphName(c1, i1), SubgraphName(c2, i2);
    assert s1 == "cluster_" + NodeName(c1, i1) && s2 == "cluster_" + NodeName(c2, i2);
    assert s1[8..] == NodeName(c1, i1) && s2[8..] == NodeName(c2, i2);
    NodeNameInjective(c1, i1, c2, i2);
  }

  /** Two procedures share a subgraph name exactly when they share a name. */
  lemma FunctionSubgraphNameInjective(f1: string, f2: string)
    ensures FunctionSubgraphName(f1) == FunctionSubgraphName(f2) <==> f1 == f2
  {
    assert FunctionSubgraphName(f1)[8..] == f1;
    assert FunctionSubgraphName(f2)[8..] == f2;
  }

  /** A procedure subgraph never takes a region subgraph's name while the
      procedure name has no dot: the region name has one right after the
      stripped code name. */
  lemma FunctionSubgraphNameIsNotRegionName(fn: string, codeName: string, id: nat)
    requires '.' !in fn && |codeName| > GimplePrefixLength
    ensures FunctionSubgraphName(fn) != SubgraphName(codeName, id)
  {
    var r := SubgraphName(codeName, id);
    var k := 8 + |Strip(codeName)|;
    assert r[k] == '.';
    var f := FunctionSubgraphName(fn);
    if |f| == |r| {
      // position k of the procedure subgraph name falls inside `fn`
      assert f[k] == fn[k - 8] != '.';
    }
  }

  /** With a dot in the procedure name the two schemes can meet: a procedure
      called "omp_parallel.1" gets the subgraph name of the first parallel
      region. */
  lemma FunctionSubgraphNameMayClash()
    ensures FunctionSubgraphName("omp_parallel.1") == SubgraphName("gimple_omp_parallel", 1)
  {
    assert NatToString(1) == "1";
  }

  /** A construct node name ends with the last digit of its id. */
  lemma NodeNameEndsWithDigit(codeName: string, id: nat)
    requires |codeName| > GimplePrefixLength
    ensures var r := NodeName(codeName, id); IsDigit(r[|r| - 1])
  {
    var d := NatToString(id);
    var r := NodeName(codeName, id);
    assert r[|r| - 1] == d[|d| - 1];
  }

  /** An entry node name never coincides with a construct node name: the former
      ends with ')', the latter with a digit. */
  lemma EntryNameIsNotNodeName(fn: string, codeName: string, id: nat)
    requires |codeName| > GimplePrefixLength
    ensures EntryNodeName(fn) != NodeName(codeName, id)
  {
    NodeNameEndsWithDigit(codeName, id);
  }

  /** The untruncated OMP-for name is injective in the id. */
  lemma ForNodeNameInjective(i1: nat, i2: nat)
    requires ForNodeName(i1) == ForNodeName(i2)
    ensures i1 == i2
  {
    assert NatToString(i1) == ForNodeName(i1)[8..];
    assert NatToString(i2) == ForNodeName(i2)[8..];
    NatToStringInjective(i1, i2);
  }

  /** Below 10^7 the 16-byte buffer holds the whole name. */
  lemma ForNodeNameAsWrittenAgrees(id: nat)
    requires id < 10000000
    ensures ForNodeNameAsWritten(id) == ForNodeName(id)
  {
    assert Pow10(7) == 10000000;
    NatToStringLength(id, 7);
  }

  /** From 10^7 on every OMP-for name is cut to the 15 characters the buffer holds. */
  lemma ForNodeNameAsWrittenTruncates(id: nat)
    requires 10000000 <= id
    ensures |ForNodeNameAsWritten(id)| == ForNameBufferSize - 1
    ensures ForNodeNameAsWritten(id) != ForNodeName(id)
  {
    assert Pow10(7) == 10000000;
    NatToStringLengthAtLeast(id, 8);
  }

  /** From 10^7 on the buffer truncates: ids 1000000 and 10000000 get the same node name. */
  lemma ForNodeNameAsWrittenCollides()
    ensures ForNodeNameAsWritten(1000000) == ForNodeNameAsWritten(10000000)
    ensures ForNodeName(1000000) != ForNodeName(10000000)
  {
    assert NatToString(1000000) == "1000000";
    assert NatToString(10000000) == "10000000";
  }
}
