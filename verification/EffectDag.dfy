/** The effect DAG of `runtime/io_uring/fasync_dep.c`: when two declared effect
    sets conflict, and the edges drawn between conflicting operations. */
module EffectDag {
  import opened Effects

  const IN: nat := 0
  const OUT: nat := 1
  const INOUT: nat := 2

  /** A byte of memory, or a named resource. */
  datatype Loc = Byte(addr: int) | Named(resource: nat)

  /** A declared access: a byte range through a pointer whose capability covers
      [lower, upper), or a named resource (a null `buf`). */
  datatype Access =
    | Range(buf: int, lower: int, upper: int, len: nat, kind: nat)
    | Resource(id: nat, kind: nat)

  datatype Op<!V> = Op(accesses: seq<Access>, f: Mem<Loc, V> -> Mem<Loc, V>)

  predicate KindWrites(kind: nat) {
    kind == OUT || kind == INOUT
  }

  predicate KindReads(kind: nat) {
    kind == IN || kind == INOUT
  }

  function RangeLo(a: Access): int
    requires a.Range?
  {
    if a.buf < a.lower then a.buf else a.lower
  }

  function RangeHi(a: Access): int
    requires a.Range?
  {
    if a.buf + a.len > a.upper then a.buf + a.len else a.upper
  }

  predicate RangesDisjoint(a: Access, b: Access)
    requires a.Range? && b.Range?
  {
    RangeHi(a) <= RangeLo(b) || RangeHi(b) <= RangeLo(a)
  }

  predicate SamePlace(a: Access, b: Access) {
    match (a, b)
    case (Range(_, _, _, _, _), Range(_, _, _, _, _)) => !RangesDisjoint(a, b)
    case (Resource(x, _), Resource(y, _)) => x == y
    case (_, _) => false
  }

  /** 0 independent, 1 true, 2 anti, 3 output dependence. */
  function AccessConflict(a: Access, b: Access): nat {
    if !SamePlace(a, b) then 0
    else if KindWrites(a.kind) && KindWrites(b.kind) then 3
    else if KindWrites(a.kind) && KindReads(b.kind) then 1
    else if KindReads(a.kind) && KindWrites(b.kind) then 2
    else 0
  }

  /** Conflicting kinds, whatever the places. */
  predicate Declared(a: Access, b: Access) {
    (KindWrites(a.kind) && (KindWrites(b.kind) || KindReads(b.kind))) ||
    (KindReads(a.kind) && KindWrites(b.kind))
  }

  // ---- What an access touches ----

  function Places(a: Access): set<Loc> {
    match a
    case Range(buf, _, _, len, _) => set x | buf <= x < buf + len :: Byte(x)
    case Resource(id, _) => {Named(id)}
  }

  function InputsOf(accesses: seq<Access>): set<Loc> {
    set i, l | 0 <= i < |accesses| && KindReads(accesses[i].kind) && l in Places(accesses[i]) :: l
  }

  function OutputsOf(accesses: seq<Access>): set<Loc> {
    set i, l | 0 <= i < |accesses| && KindWrites(accesses[i].kind) && l in Places(accesses[i]) :: l
  }

  function EffectOf<V>(op: Op<V>): Effect<Loc, V> {
    Effect(InputsOf(op.accesses), OutputsOf(op.accesses), op.f)
  }

  function EffectsOf<V>(ops: seq<Op<V>>): (es: seq<Effect<Loc, V>>)
    ensures |es| == |ops| && forall i | 0 <= i < |ops| :: es[i] == EffectOf(ops[i])
  {
    seq(|ops|, i requires 0 <= i < |ops| => EffectOf(ops[i]))
  }

  /** Bytes shared by the two declared ranges are shared by the two capability
      ranges, so widening to whole objects never loses a conflict. */
  lemma SharedPlacesConflict(a: Access, b: Access, l: Loc)
    requires l in Places(a) && l in Places(b)
    ensures SamePlace(a, b)
  {
  }

  /** The edge test is exact on kinds and places, and does not depend on which
      access comes first, though the kind of edge does. */
  lemma AccessConflictExact(a: Access, b: Access)
    ensures AccessConflict(a, b) != 0 <==> SamePlace(a, b) && Declared(a, b)
    ensures AccessConflict(a, b) != 0 <==> AccessConflict(b, a) != 0
    ensures AccessConflict(a, b) == 1 && !KindReads(a.kind) ==> AccessConflict(b, a) == 2
  {
  }

  /** When two accesses are at the same place: one resource, or ranges that meet,
      each widened to its capability. */
  lemma SamePlaceExact(a: Access, b: Access)
    ensures a.Resource? && b.Resource? ==> (SamePlace(a, b) <==> a.id == b.id)
    ensures a.Resource? != b.Resource? ==> !SamePlace(a, b)
    ensures a.Range? && b.Range? ==>
              (SamePlace(a, b) <==>
                (a.buf < b.buf + b.len || a.buf < b.upper || a.lower < b.buf + b.len || a.lower < b.upper) &&
                (b.buf < a.buf + a.len || b.buf < a.upper || b.lower < a.buf + a.len || b.lower < a.upper))
  {
  }

  /** What each kind of edge stands for. */
  lemma EdgeKinds(a: Access, b: Access)
    ensures AccessConflict(a, b) == 3 <==> SamePlace(a, b) && a.kind in {OUT, INOUT} && b.kind in {OUT, INOUT}
    ensures AccessConflict(a, b) == 1 <==> SamePlace(a, b) && a.kind in {OUT, INOUT} && b.kind == IN
    ensures AccessConflict(a, b) == 2 <==> SamePlace(a, b) && a.kind == IN && b.kind in {OUT, INOUT}
    ensures AccessConflict(a, b) <= 3
  {
  }

  ghost predicate Conflicts(a: seq<Access>, b: seq<Access>) {
    exists i, j :: 0 <= i < |a| && 0 <= j < |b| && AccessConflict(a[i], b[j]) != 0
  }

  ghost predicate DeclaredConflict(a: seq<Access>, b: seq<Access>) {
    exists i, j :: 0 <= i < |a| && 0 <= j < |b| && Declared(a[i], b[j])
  }

  /** Kinds that conflict, at places that never do. */
  ghost predicate Separated(a: seq<Access>, b: seq<Access>) {
    DeclaredConflict(a, b) && !Conflicts(a, b)
  }

  /** Operations without a conflict are independent in what they may touch. */
  lemma NoConflictIndependent<V>(a: Op<V>, b: Op<V>)
    requires !Conflicts(a.accesses, b.accesses)
    ensures Independent(EffectOf(a), EffectOf(b))
  {
  }

  /** Whether the two operations conflict, and whether every conflict their
      kinds declare was dissolved by their places. */
  method OpsConflict(a: seq<Access>, b: seq<Access>) returns (conflict: bool, autoDisjoint: bool)
    ensures conflict <==> Conflicts(a, b)
    ensures autoDisjoint <==> DeclaredConflict(a, b) && !Conflicts(a, b)
  {
    var strongest := 0;
    var dissolved, declaredConflict := false, false;
    for i := 0 to |a|
      invariant strongest != 0 <==> Conflicts(a[..i], b)
      invariant declaredConflict <==> Conflicts(a[..i], b)
      invariant dissolved || declaredConflict <==> DeclaredConflict(a[..i], b)
    {
      ghost var s, d, dc := strongest, dissolved, declaredConflict;
      for j := 0 to |b|
        invariant strongest != 0 <==> s != 0 || exists y :: 0 <= y < j && AccessConflict(a[i], b[y]) != 0
        invariant declaredConflict <==> dc || exists y :: 0 <= y < j && AccessConflict(a[i], b[y]) != 0
        invariant dissolved || declaredConflict <==> d || dc || exists y :: 0 <= y < j && Declared(a[i], b[y])
      {
        AccessConflictExact(a[i], b[j]);
        var declared := Declared(a[i], b[j]);
        var edge := AccessConflict(a[i], b[j]);
        if edge != 0 {
          strongest := edge;
        }
        if declared && edge == 0 {
          dissolved := true;
        }
        if declared && edge != 0 {
          declaredConflict := true;
        }
      }
      assert a[..i + 1] == a[..i] + [a[i]];
      ConflictsSnoc(a[..i], a[i], b);
    }
    assert a[..|a|] == a;
    conflict := strongest != 0;
    autoDisjoint := dissolved && !declaredConflict;
  }

  lemma ConflictsSnoc(a: seq<Access>, x: Access, b: seq<Access>)
    ensures Conflicts(a + [x], b) <==> Conflicts(a, b) || exists j :: 0 <= j < |b| && AccessConflict(x, b[j]) != 0
    ensures DeclaredConflict(a + [x], b) <==> DeclaredConflict(a, b) || exists j :: 0 <= j < |b| && Declared(x, b[j])
  {
    var ax := a + [x];
    assert ax[|a|] == x && forall i | 0 <= i < |a| :: ax[i] == a[i];
    if Conflicts(a, b) {
      var i, j :| 0 <= i < |a| && 0 <= j < |b| && AccessConflict(a[i], b[j]) != 0;
      assert AccessConflict(ax[i], b[j]) != 0;
    }
    if DeclaredConflict(a, b) {
      var i, j :| 0 <= i < |a| && 0 <= j < |b| && Declared(a[i], b[j]);
      assert Declared(ax[i], b[j]);
    }
    if j :| 0 <= j < |b| && AccessConflict(x, b[j]) != 0 {
      assert AccessConflict(ax[|a|], b[j]) != 0;
    }
    if j :| 0 <= j < |b| && Declared(x, b[j]) {
      assert Declared(ax[|a|], b[j]);
    }
  }

  // ---- Edges ----

  type Declarations = seq<seq<Access>>

  function DeclarationsOf<V>(ops: seq<Op<V>>): (ds: Declarations)
    ensures |ds| == |ops| && forall i | 0 <= i < |ops| :: ds[i] == ops[i].accesses
  {
    seq(|ops|, i requires 0 <= i < |ops| => ops[i].accesses)
  }

  function Encode(n: nat, i: nat, j: nat): nat {
    i * n + j
  }

  function Source(n: nat, code: nat): nat
    requires n != 0
  {
    code / n
  }

  function Target(n: nat, code: nat): nat
    requires n != 0
  {
    code % n
  }

  lemma MulMono(a: nat, b: nat, n: nat)
    requires a < b
    ensures a * n + n <= b * n
  {
    assert (b - a - 1) * n >= 0;
    assert b * n == a * n + n + (b - a - 1) * n;
  }

  lemma QuotientUnique(q: nat, r: nat, q': nat, r': nat, n: nat)
    requires r < n && r' < n && q * n + r == q' * n + r'
    ensures q == q' && r == r'
  {
    if q < q' {
      MulMono(q, q', n);
    } else if q' < q {
      MulMono(q', q, n);
    }
  }

  lemma EncodeRoundTrip(n: nat, i: nat, j: nat)
    requires i < n && j < n
    ensures Source(n, Encode(n, i, j)) == i && Target(n, Encode(n, i, j)) == j
    ensures Encode(n, i, j) < n * n
  {
    var code := Encode(n, i, j);
    assert code == (code / n) * n + code % n;
    QuotientUnique(code / n, code % n, i, j, n);
    MulMono(i, n, n);
  }

  /** Edges from operation `i` to the conflicting ones from `j` on. */
  ghost function Row(ds: Declarations, i: nat, j: nat): seq<nat>
    requires i < |ds|
    decreases |ds| - j
  {
    if j >= |ds| then []
    else (if Conflicts(ds[i], ds[j]) then [Encode(|ds|, i, j)] else []) + Row(ds, i, j + 1)
  }

  /** Edges from operations `i` on. */
  ghost function Rows(ds: Declarations, i: nat): seq<nat>
    decreases |ds| - i
  {
    if i >= |ds| then [] else Row(ds, i, i + 1) + Rows(ds, i + 1)
  }

  ghost predicate IsEdge(ds: Declarations, i: nat, j: nat) {
    i < j < |ds| && Conflicts(ds[i], ds[j])
  }

  /** The code is that of an edge from `i` to an operation from `j` on. */
  ghost predicate InRow(ds: Declarations, i: nat, j: nat, code: nat) {
    exists k :: j <= k && IsEdge(ds, i, k) && code == Encode(|ds|, i, k)
  }

  /** The code is that of an edge from an operation from `i` on. */
  ghost predicate InRows(ds: Declarations, i: nat, code: nat) {
    exists x: nat, y: nat :: i <= x && IsEdge(ds, x, y) && code == Encode(|ds|, x, y)
  }

  lemma InRowNext(ds: Declarations, i: nat, j: nat, code: nat)
    requires i < j < |ds|
    ensures InRow(ds, i, j, code) <==>
            (IsEdge(ds, i, j) && code == Encode(|ds|, i, j)) || InRow(ds, i, j + 1, code)
  {
    hide IsEdge, Encode;
    if InRow(ds, i, j, code) {
      var k :| j <= k && IsEdge(ds, i, k) && code == Encode(|ds|, i, k);
      assert k == j || j + 1 <= k;
    }
  }

  lemma InRowsNext(ds: Declarations, i: nat, code: nat)
    requires i < |ds|
    ensures InRows(ds, i, code) <==> InRow(ds, i, i + 1, code) || InRows(ds, i + 1, code)
  {
    hide Encode;
    if InRows(ds, i, code) {
      var x: nat, y: nat :| i <= x && IsEdge(ds, x, y) && code == Encode(|ds|, x, y);
      assert x == i || i + 1 <= x;
    }
  }

  lemma NoneBeyond(ds: Declarations, i: nat, code: nat)
    ensures !InRow(ds, i, |ds|, code) && (i >= |ds| ==> !InRows(ds, i, code))
  {
    hide Encode, Conflicts;
  }

  lemma {:induction false} RowExact(ds: Declarations, i: nat, j: nat, code: nat)
    requires i < j <= |ds|
    ensures code in Row(ds, i, j) <==> InRow(ds, i, j, code)
    decreases |ds| - j
  {
    hide Conflicts, Encode, InRow;
    if j < |ds| {
      RowExact(ds, i, j + 1, code);
      InRowNext(ds, i, j, code);
      var here := if Conflicts(ds[i], ds[j]) then [Encode(|ds|, i, j)] else [];
      assert Row(ds, i, j) == here + Row(ds, i, j + 1);
    } else {
      NoneBeyond(ds, i, code);
    }
  }

  lemma {:induction false} RowsExactFrom(ds: Declarations, i: nat, code: nat)
    ensures code in Rows(ds, i) <==> InRows(ds, i, code)
    decreases |ds| - i
  {
    hide InRow, InRows, Row;
    if i < |ds| {
      RowExact(ds, i, i + 1, code);
      RowsExactFrom(ds, i + 1, code);
      InRowsNext(ds, i, code);
    } else {
      NoneBeyond(ds, i, code);
    }
  }

  lemma EdgeInRange(ds: Declarations, i: nat, j: nat)
    requires IsEdge(ds, i, j)
    ensures i < j < |ds|
  {
  }

  lemma CodeRoundTrip(n: nat, code: nat)
    requires n != 0
    ensures Encode(n, Source(n, code), Target(n, code)) == code
  {
  }

  /** The edges drawn are exactly the conflicting pairs, each from the earlier
      operation to the later one. */
  lemma EdgesExact(ds: Declarations, code: nat)
    requires ds != []
    ensures code in Rows(ds, 0) <==>
            IsEdge(ds, Source(|ds|, code), Target(|ds|, code))
  {
    hide Encode, Source, Target, Rows, IsEdge;
    var n := |ds|;
    RowsExactFrom(ds, 0, code);
    if code in Rows(ds, 0) {
      var x: nat, y: nat :| IsEdge(ds, x, y) && code == Encode(n, x, y);
      EdgeInRange(ds, x, y);
      EncodeRoundTrip(n, x, y);
    }
    CodeRoundTrip(n, code);
  }

  /** The kind of the first pair of accesses that conflicts, in order. */
  ghost predicate FirstKind(a: seq<Access>, b: seq<Access>, kind: nat) {
    kind != 0 && exists x, y :: 0 <= x < |a| && 0 <= y < |b| && FirstAt(a, b, x, y, kind)
  }

  ghost predicate FirstAt(a: seq<Access>, b: seq<Access>, x: nat, y: nat, kind: nat)
    requires x < |a| && y < |b|
  {
    AccessConflict(a[x], b[y]) == kind &&
    (forall i, j | 0 <= i < x && 0 <= j < |b| :: AccessConflict(a[i], b[j]) == 0) &&
    forall j | 0 <= j < y :: AccessConflict(a[x], b[j]) == 0
  }

  /** The dependence kind of the first conflicting pair of accesses. */
  method EdgeKind(a: seq<Access>, b: seq<Access>) returns (kind: nat)
    ensures kind != 0 <==> Conflicts(a, b)
    ensures kind <= 3
    ensures kind != 0 ==> FirstKind(a, b, kind)
  {
    kind := 0;
    var x := 0;
    while x < |a| && kind == 0
      invariant 0 <= x <= |a| && kind <= 3
      invariant kind == 0 ==> forall i, j :: 0 <= i < x && 0 <= j < |b| ==> AccessConflict(a[i], b[j]) == 0
      invariant kind != 0 ==> FirstKind(a, b, kind)
    {
      var y := 0;
      while y < |b| && kind == 0
        invariant 0 <= y <= |b| && kind <= 3
        invariant kind == 0 ==> forall j :: 0 <= j < y ==> AccessConflict(a[x], b[j]) == 0
        invariant kind != 0 ==> FirstKind(a, b, kind)
      {
        kind := AccessConflict(a[x], b[y]);
        assert kind != 0 ==> FirstAt(a, b, x, y, kind);
        y := y + 1;
      }
      x := x + 1;
    }
  }

  datatype DagStats = DagStats(ops: nat, edges: nat, autoDisjointPairs: nat,
                               readWrite: nat, writeRead: nat, writeWrite: nat)

  lemma RowNext(ds: Declarations, i: nat, j: nat, drawn: seq<nat>, rest: seq<nat>)
    requires i < j < |ds|
    ensures drawn + (Row(ds, i, j) + rest) ==
            drawn + (if Conflicts(ds[i], ds[j]) then [Encode(|ds|, i, j)] else []) + (Row(ds, i, j + 1) + rest)
  {
    hide Conflicts, Encode;
    var here := if Conflicts(ds[i], ds[j]) then [Encode(|ds|, i, j)] else [];
    assert Row(ds, i, j) == here + Row(ds, i, j + 1);
    hide Row;
    Regroup(drawn, here, Row(ds, i, j + 1), rest);
  }

  lemma Regroup(a: seq<nat>, b: seq<nat>, c: seq<nat>, d: seq<nat>)
    ensures a + ((b + c) + d) == (a + b) + (c + d)
  {
  }

  lemma RowsNext(ds: Declarations, i: nat)
    requires i < |ds|
    ensures Rows(ds, i) == Row(ds, i, i + 1) + Rows(ds, i + 1) && Row(ds, i, |ds|) == []
  {
  }

  lemma RowsEnd(ds: Declarations)
    ensures Rows(ds, |ds|) == []
  {
  }

  /** One more pair: its edge is drawn if it has one and there is room. */
  method DrawPair(ds: Declarations, i: nat, j: nat, edges: array<nat>, n0: nat, maxEdges: nat, stats0: DagStats)
    returns (n: nat, stats: DagStats, full: bool)
    requires i < j < |ds| && n0 <= maxEdges <= edges.Length
    modifies edges
    ensures full <==> n0 == maxEdges && Conflicts(ds[i], ds[j])
    ensures !full ==>
              n0 <= n <= maxEdges && edges[maxEdges..] == old(edges[maxEdges..]) &&
              edges[..n] == old(edges[..n0]) + if Conflicts(ds[i], ds[j]) then [Encode(|ds|, i, j)] else []
    ensures full ==> n == 0 && edges[..] == old(edges[..])
    ensures Tallied(stats0, n0) && !full ==> Tallied(stats, n)
    ensures !full ==> stats.autoDisjointPairs ==
                      stats0.autoDisjointPairs + if Separated(ds[i], ds[j]) then 1 else 0
    ensures !full && !Conflicts(ds[i], ds[j]) ==> stats == stats0.(autoDisjointPairs := stats.autoDisjointPairs)
    ensures !full && Conflicts(ds[i], ds[j]) ==>
              exists kind ::
              FirstKind(ds[i], ds[j], kind) &&
              stats.readWrite == stats0.readWrite + (if kind == 1 then 1 else 0) &&
              stats.writeRead == stats0.writeRead + (if kind == 2 then 1 else 0) &&
              stats.writeWrite == stats0.writeWrite + (if kind == 3 then 1 else 0)
  {
    assert Separated(ds[i], ds[j]) <==> DeclaredConflict(ds[i], ds[j]) && !Conflicts(ds[i], ds[j]);
    hide Encode, Conflicts, DeclaredConflict, FirstKind, Separated;
    var conflict, autoDisjoint := OpsConflict(ds[i], ds[j]);
    n, stats, full := n0, stats0, false;
    if autoDisjoint {
      stats := stats.(autoDisjointPairs := stats.autoDisjointPairs + 1);
    }
    if !conflict {
      return;
    }
    if n >= maxEdges {
      return 0, stats, true;
    }
    edges[n] := Encode(|ds|, i, j);
    n := n + 1;
    assert edges[..n] == old(edges[..n0]) + [Encode(|ds|, i, j)];
    stats := stats.(edges := stats.edges + 1);
    var kind := EdgeKind(ds[i], ds[j]);
    if kind == 1 {
      stats := stats.(readWrite := stats.readWrite + 1);
    } else if kind == 2 {
      stats := stats.(writeRead := stats.writeRead + 1);
    } else if kind == 3 {
      stats := stats.(writeWrite := stats.writeWrite + 1);
    }
  }

  predicate Tallied(stats: DagStats, n: nat) {
    stats.edges == n == stats.readWrite + stats.writeRead + stats.writeWrite
  }

  /** Draws the edges into `edges`. The codes fit 32 bits. When they do not fit
      the room given, nothing is reported: the count returned is 0, as it is for
      operations without conflicts. */
  method BuildDag(ds: Declarations, edges: array<nat>, maxEdges: nat) returns (n: nat, stats: DagStats)
    requires |ds| * |ds| <= 0x1_0000_0000
    requires maxEdges <= edges.Length
    modifies edges
    ensures |Rows(ds, 0)| <= maxEdges ==> n == |Rows(ds, 0)| && edges[..n] == Rows(ds, 0)
    ensures |Rows(ds, 0)| > maxEdges ==> n == 0
    ensures n == |Rows(ds, 0)| <==> |Rows(ds, 0)| <= maxEdges
    ensures edges[maxEdges..] == old(edges[maxEdges..])
    ensures |Rows(ds, 0)| <= maxEdges ==> Tallied(stats, n)
  {
    hide Row, Rows, Encode, Conflicts, DeclaredConflict, Tallied;
    n := 0;
    stats := DagStats(|ds|, 0, 0, 0, 0, 0);
    RowsEnd(ds);
    NothingTallied(|ds|);
    for i := 0 to |ds|
      invariant n <= maxEdges && edges[maxEdges..] == old(edges[maxEdges..])
      invariant edges[..n] + Rows(ds, i) == Rows(ds, 0)
      invariant Tallied(stats, n)
    {
      RowsNext(ds, i);
      for j := i + 1 to |ds|
        invariant n <= maxEdges && edges[maxEdges..] == old(edges[maxEdges..])
        invariant edges[..n] + (Row(ds, i, j) + Rows(ds, i + 1)) == Rows(ds, 0)
        invariant Tallied(stats, n)
      {
        RowNext(ds, i, j, edges[..n], Rows(ds, i + 1));
        var full;
        n, stats, full := DrawPair(ds, i, j, edges, n, maxEdges, stats);
        if full {
          return;
        }
      }
    }
  }

  lemma NothingTallied(ops: nat)
    ensures Tallied(DagStats(ops, 0, 0, 0, 0, 0), 0)
  {
  }

  /** An edge code read back as the executor reads it. */
  datatype Edge = Edge(source: nat, target: nat)

  function Decode(n: nat, codes: seq<nat>): (edges: seq<Edge>)
    requires n != 0
    ensures |edges| == |codes|
    ensures forall e | 0 <= e < |codes| :: edges[e] == Edge(Source(n, codes[e]), Target(n, codes[e]))
  {
    seq(|codes|, e requires 0 <= e < |codes| => Edge(Source(n, codes[e]), Target(n, codes[e])))
  }

  /** `edges` orders every pair of effects that may not overlap in time. */
  ghost predicate Covers<V>(edges: seq<Edge>, es: seq<Effect<Loc, V>>) {
    forall i, j :: 0 <= i < j < |es| ==> Independent(es[i], es[j]) || Edge(i, j) in edges
  }

  /** Every edge goes from an earlier operation to a later one. */
  predicate Forward(edges: seq<Edge>, n: nat) {
    forall e | e in edges :: e.source < e.target < n
  }

  /** The edges `BuildDag` draws are enough to keep the meaning of the batch,
      and go forward. */
  lemma BuiltEdgesCover<V>(ops: seq<Op<V>>)
    requires ops != []
    ensures Covers(Decode(|ops|, Rows(DeclarationsOf(ops), 0)), EffectsOf(ops))
    ensures Forward(Decode(|ops|, Rows(DeclarationsOf(ops), 0)), |ops|)
  {
    var n, ds, es := |ops|, DeclarationsOf(ops), EffectsOf(ops);
    var codes := Rows(ds, 0);
    forall i, j | 0 <= i < j < n
      ensures Independent(es[i], es[j]) || Edge(i, j) in Decode(n, codes)
    {
      if Conflicts(ds[i], ds[j]) {
        EncodeRoundTrip(n, i, j);
        EdgesExact(ds, Encode(n, i, j));
        var e :| 0 <= e < |codes| && codes[e] == Encode(n, i, j);
        assert Decode(n, codes)[e] == Edge(i, j);
      } else {
        NoConflictIndependent(ops[i], ops[j]);
      }
    }
    forall e | 0 <= e < |codes|
      ensures var x := Decode(n, codes)[e]; x.source < x.target < n
    {
      EdgesExact(ds, codes[e]);
    }
  }
}
