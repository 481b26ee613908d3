/** Running a batch whose edges did not fit, along no edges at all: which
    declarations then let memory end otherwise than in array order. */
module Unordered {
  import opened Effects
  import opened EffectDag

  /** A way the kernel can run a batch: who moves when, and the states between. */
  datatype Plan<!V> = Plan(works: seq<seq<Work<Loc, V>>>, mems: seq<Mem<Loc, V>>, moved: seq<nat>)

  ghost predicate Schedule<V>(p: Plan<V>) {
    |p.works| == |p.mems| == |p.moved| + 1 &&
    forall i | 0 <= i < |p.moved| :: KernelMove(p.works[i], p.mems[i], p.moved[i], p.works[i + 1], p.mems[i + 1])
  }

  /** The plan leads from the one state to the other. */
  ghost predicate Leads<V>(p: Plan<V>, ws: seq<Work<Loc, V>>, m: Mem<Loc, V>, ws': seq<Work<Loc, V>>, m': Mem<Loc, V>) {
    Schedule(p) && p.works[0] == ws && p.mems[0] == m && p.works[|p.moved|] == ws' && p.mems[|p.moved|] == m'
  }

  function AllFresh<V>(es: seq<Effect<Loc, V>>): (ws: seq<Work<Loc, V>>)
    ensures |ws| == |es| && forall k | 0 <= k < |es| :: ws[k] == Fresh(es[k])
  {
    seq(|es|, k requires 0 <= k < |es| => Fresh(es[k]))
  }

  function AllFinished<V>(n: nat): (ws: seq<Work<Loc, V>>)
    ensures |ws| == n && forall k | 0 <= k < n :: ws[k] == Draining(map[])
  {
    seq(n, _ => Draining(map[]))
  }

  /** From nothing started in memory `m` to everything finished in `m'`. */
  ghost predicate Runs<V>(es: seq<Effect<Loc, V>>, p: Plan<V>, m: Mem<Loc, V>, m': Mem<Loc, V>) {
    Leads(p, AllFresh(es), m, AllFinished(|es|), m')
  }

  /** A run of operations so declared that ends in other memory than they do one
      after the other. */
  ghost predicate Misordered<V>(ds: Declarations, ops: seq<Op<V>>, p: Plan<V>, m: Mem<Loc, V>, m': Mem<Loc, V>) {
    DeclarationsOf(ops) == ds && Runs(EffectsOf(ops), p, m, m') && m' != RunEffects(EffectsOf(ops), m)
  }

  /** Both may write one place, or one writes what the other, which writes
      something, may read. */
  predicate Interfere<L>(ins: set<L>, outs: set<L>, ins': set<L>, outs': set<L>) {
    !(outs !! outs') || (!(outs !! ins') && outs' != {}) || (!(ins !! outs') && outs != {})
  }

  predicate DeclareInterference(a: seq<Access>, b: seq<Access>) {
    Interfere(InputsOf(a), OutputsOf(a), InputsOf(b), OutputsOf(b))
  }

  ghost predicate OrderMatters(ds: Declarations) {
    exists i, j :: 0 <= i < j < |ds| && DeclareInterference(ds[i], ds[j])
  }

  /** With no room for edges, a batch with these declarations can end in other
      memory if and only if two of them interfere; and there are edges then, so that
      the count of 0 is the overflow. */
  lemma NoRoomExact<V(!new)>(ds: Declarations, a: V, b: V)
    requires a != b
    ensures OrderMatters(ds) <==> exists ops: seq<Op<V>>, p, m, m' :: Misordered(ds, ops, p, m, m')
    ensures OrderMatters(ds) ==> |Rows(ds, 0)| > 0
  {
    if OrderMatters(ds) {
      var i, j :| 0 <= i < j < |ds| && DeclareInterference(ds[i], ds[j]);
      InterferenceConflicts(ds[i], ds[j]);
      SomeEdge(ds, i, j);
      var ops, p, m, m' := LoseOrder(ds, i, j, a, b);
      assert Misordered(ds, ops, p, m, m');
    }
    if ops: seq<Op<V>>, p, m, m' :| Misordered(ds, ops, p, m, m') {
      if !OrderMatters(ds) {
        forall i, j | 0 <= i < j < |ops|
          ensures !Interfering(EffectsOf(ops)[i], EffectsOf(ops)[j])
        {
          assert !DeclareInterference(ds[i], ds[j]);
        }
        OrderKept(EffectsOf(ops), p, m, m');
        assert false;
      }
    }
  }

  lemma InterferenceConflicts(a: seq<Access>, b: seq<Access>)
    requires DeclareInterference(a, b)
    ensures Conflicts(a, b)
  {
    var l :| (l in OutputsOf(a) && (l in OutputsOf(b) || l in InputsOf(b))) || (l in InputsOf(a) && l in OutputsOf(b));
    var i :| 0 <= i < |a| && l in Places(a[i]) &&
             if l in OutputsOf(a) then KindWrites(a[i].kind) else KindReads(a[i].kind);
    var j :| 0 <= j < |b| && l in Places(b[j]) &&
             if l in OutputsOf(b) then KindWrites(b[j].kind) else KindReads(b[j].kind);
    assert AccessConflict(a[i], b[j]) != 0;
  }

  lemma SomeEdge(ds: Declarations, i: nat, j: nat)
    requires i < j < |ds| && Conflicts(ds[i], ds[j])
    ensures |Rows(ds, 0)| > 0
  {
    EncodeRoundTrip(|ds|, i, j);
    EdgesExact(ds, Encode(|ds|, i, j));
  }

  // ---- Without interference every schedule keeps the order ----

  predicate Interfering<L, V>(e: Effect<L, V>, f: Effect<L, V>) {
    Interfere(e.inputs, e.outputs, f.inputs, f.outputs)
  }

  /** No work writes `l`, and those that read it write nothing. */
  predicate NoneMinds<L, V>(ws: seq<Work<L, V>>, l: L) {
    forall i | 0 <= i < |ws| :: l !in WorkWrites(ws[i]) && (l in WorkReads(ws[i]) ==> WorkWrites(ws[i]) == {})
  }

  lemma {:induction false} StoreUnminded<L, V>(ws: seq<Work<L, V>>, m: Mem<L, V>, l: L, v: V)
    requires NoneMinds(ws, l)
    ensures RunAll(ws, m[l := v]) == RunAll(ws, m)[l := v]
  {
    if ws != [] {
      var w := ws[0];
      if w.Fresh? && l !in w.effect.inputs {
        assert Restrict(m[l := v], w.effect.inputs) == Restrict(m, w.effect.inputs);
      }
      assert RunWork(w, m[l := v]) == RunWork(w, m)[l := v];
      StoreUnminded(ws[1..], RunWork(w, m), l, v);
    }
  }

  lemma MoveKeepsOutcome<L, V>(es: seq<Effect<L, V>>, ws: seq<Work<L, V>>, m: Mem<L, V>, k: nat, ws': seq<Work<L, V>>,
                               m': Mem<L, V>)
    requires LeftOf(ws, es) && KernelMove(ws, m, k, ws', m')
    requires forall i | 0 <= i < k :: !Interfering(es[i], es[k])
    ensures RunAll(ws', m') == RunAll(ws, m) && LeftOf(ws', es)
  {
    assert forall i | 0 <= i < k :: ws[..k][i] == ws[i];
    if ws[k].Fresh? {
      if es[k].outputs == {} {
        RunAllReplace(ws, k, Draining(Output(ws[k].effect, m)), m, m);
      } else {
        ReadEarly(ws, k, m);
      }
    } else {
      var l :| l in ws[k].todo && ws' == ws[k := Draining(ws[k].todo - {l})] && m' == m[l := ws[k].todo[l]];
      assert l in es[k].outputs;
      var todo, before := ws[k].todo, RunAll(ws[..k], m);
      StoreUnminded(ws[..k], m, l, todo[l]);
      assert before[l := todo[l]] + (todo - {l}) == before + todo;
      RunAllReplace(ws, k, Draining(todo - {l}), m, m');
    }
  }

  lemma {:induction false} OutcomeKept<V>(es: seq<Effect<Loc, V>>, p: Plan<V>, n: nat)
    requires Schedule(p) && p.works[0] == AllFresh(es) && n <= |p.moved|
    requires forall i, j | 0 <= i < j < |es| :: !Interfering(es[i], es[j])
    ensures LeftOf(p.works[n], es) && RunAll(p.works[n], p.mems[n]) == RunAll(p.works[0], p.mems[0])
  {
    if n > 0 {
      OutcomeKept(es, p, n - 1);
      MoveKeepsOutcome(es, p.works[n - 1], p.mems[n - 1], p.moved[n - 1], p.works[n], p.mems[n]);
    }
  }

  /** Operations that do not interfere end as in array order, whatever the kernel
      does first. */
  lemma OrderKept<V>(es: seq<Effect<Loc, V>>, p: Plan<V>, m: Mem<Loc, V>, m': Mem<Loc, V>)
    requires Runs(es, p, m, m') && forall i, j | 0 <= i < j < |es| :: !Interfering(es[i], es[j])
    ensures m' == RunEffects(es, m)
  {
    OutcomeKept(es, p, |p.moved|);
    RunAllFresh(AllFresh(es), es, m);
    RunAllFinished(AllFinished<V>(|es|), m');
  }

  // ---- The kernel may run the operations one by one in any order ----

  lemma NoMoves<V>(ws: seq<Work<Loc, V>>, m: Mem<Loc, V>)
    ensures Leads(Plan([ws], [m], []), ws, m, ws, m)
  {
  }

  lemma OneMove<V>(ws: seq<Work<Loc, V>>, m: Mem<Loc, V>, k: nat, ws': seq<Work<Loc, V>>, m': Mem<Loc, V>)
    requires KernelMove(ws, m, k, ws', m')
    ensures Leads(Plan([ws, ws'], [m, m'], [k]), ws, m, ws', m')
  {
    hide KernelMove;
  }

  lemma Then<V>(p: Plan<V>, ws: seq<Work<Loc, V>>, m: Mem<Loc, V>, ws1: seq<Work<Loc, V>>, m1: Mem<Loc, V>, q: Plan<V>,
                ws2: seq<Work<Loc, V>>, m2: Mem<Loc, V>)
    returns (r: Plan<V>)
    requires Leads(p, ws, m, ws1, m1) && Leads(q, ws1, m1, ws2, m2)
    ensures Leads(r, ws, m, ws2, m2)
  {
    r := Plan(p.works + q.works[1..], p.mems + q.mems[1..], p.moved + q.moved);
    forall i | 0 <= i < |r.moved|
      ensures KernelMove(r.works[i], r.mems[i], r.moved[i], r.works[i + 1], r.mems[i + 1])
    {
      if i < |p.moved| {
        assert KernelMove(p.works[i], p.mems[i], p.moved[i], p.works[i + 1], p.mems[i + 1]);
      } else {
        var j := i - |p.moved|;
        assert KernelMove(q.works[j], q.mems[j], q.moved[j], q.works[j + 1], q.mems[j + 1]);
      }
    }
    hide KernelMove;
  }

  lemma OneStored<V>(m: Mem<Loc, V>, todo: Mem<Loc, V>, l: Loc)
    requires l in todo
    ensures m[l := todo[l]] + (todo - {l}) == m + todo && |todo - {l}| < |todo|
  {
    assert todo.Keys == (todo - {l}).Keys + {l};
    assert |todo.Keys| == |(todo - {l}).Keys| + 1;
  }

  /** All that an operation still has to store, in some order. */
  lemma {:induction false} DrainAll<V>(ws: seq<Work<Loc, V>>, m: Mem<Loc, V>, k: nat) returns (p: Plan<V>)
    requires k < |ws| && ws[k].Draining?
    ensures Leads(p, ws, m, ws[k := Draining(map[])], m + ws[k].todo)
    decreases |ws[k].todo|
  {
    var todo, done := ws[k].todo, ws[k := Draining(map[])];
    if todo == map[] {
      assert done == ws && m + todo == m;
      NoMoves(ws, m);
      return Plan([ws], [m], []);
    }
    var l :| l in todo;
    var ws1, m1 := ws[k := Draining(todo - {l})], m[l := todo[l]];
    assert KernelMove(ws, m, k, ws1, m1) && ws1[k := Draining(map[])] == done;
    OneStored(m, todo, l);
    hide Leads, KernelMove;
    OneMove(ws, m, k, ws1, m1);
    var q := DrainAll(ws1, m1, k);
    p := Then(Plan([ws, ws1], [m, m1], [k]), ws, m, ws1, m1, q, done, m + todo);
  }

  /** One operation, from its start to its end. */
  lemma RunOne<V>(e: Effect<Loc, V>, ws: seq<Work<Loc, V>>, m: Mem<Loc, V>, k: nat) returns (p: Plan<V>)
    requires k < |ws| && ws[k] == Fresh(e)
    ensures Leads(p, ws, m, ws[k := Draining(map[])], RunEffect(e, m))
  {
    var ws1 := ws[k := Draining(Output(e, m))];
    assert KernelMove(ws, m, k, ws1, m) && ws1[k := Draining(map[])] == ws[k := Draining(map[])];
    hide Leads, KernelMove;
    OneMove(ws, m, k, ws1, m);
    var q := DrainAll(ws1, m, k);
    p := Then(Plan([ws, ws1], [m, m], [k]), ws, m, ws1, m, q, ws[k := Draining(map[])], RunEffect(e, m));
  }

  /** What is finished after the operations in `p`. */
  function After<V>(ws: seq<Work<Loc, V>>, p: seq<nat>): (r: seq<Work<Loc, V>>)
    ensures |r| == |ws| && forall k | 0 <= k < |ws| :: r[k] == if k in p then Draining(map[]) else ws[k]
  {
    seq(|ws|, k requires 0 <= k < |ws| => if k in p then Draining(map[]) else ws[k])
  }

  lemma AfterFirst<V>(ws: seq<Work<Loc, V>>, p: seq<nat>)
    requires p != [] && p[0] < |ws|
    ensures After(ws[p[0] := Draining(map[])], p[1..]) == After(ws, p)
  {
    assert forall x :: x in p <==> x == p[0] || x in p[1..];
  }

  /** Operation after operation in the order `p`. */
  lemma {:induction false} AnyOrder<V>(es: seq<Effect<Loc, V>>, ws: seq<Work<Loc, V>>, m: Mem<Loc, V>, p: seq<nat>)
    returns (plan: Plan<V>)
    requires |ws| == |es| && (forall i | 0 <= i < |p| :: p[i] < |es| && ws[p[i]] == Fresh(es[p[i]]))
    requires forall i, j | 0 <= i < j < |p| :: p[i] != p[j]
    ensures Leads(plan, ws, m, After(ws, p), RunEffects(InOrderOf(es, p), m))
    decreases |p|
  {
    if p == [] {
      assert After(ws, p) == ws;
      NoMoves(ws, m);
      return Plan([ws], [m], []);
    }
    var k := p[0];
    hide Leads;
    var one := RunOne(es[k], ws, m, k);
    assert forall i | 0 <= i < |p[1..]| :: p[1..][i] == p[i + 1];
    AfterFirst(ws, p);
    assert InOrderOf(es, p)[1..] == InOrderOf(es, p[1..]);
    var ws1, m1 := ws[k := Draining(map[])], RunEffect(es[k], m);
    var rest := AnyOrder(es, ws1, m1, p[1..]);
    plan := Then(one, ws, m, ws1, m1, rest, After(ws, p), RunEffects(InOrderOf(es, p), m));
  }

  function InOrderOf<L, V>(es: seq<Effect<L, V>>, p: seq<nat>): (r: seq<Effect<L, V>>)
    requires forall i | 0 <= i < |p| :: p[i] < |es|
    ensures |r| == |p| && forall i | 0 <= i < |p| :: r[i] == es[p[i]]
  {
    seq(|p|, i requires 0 <= i < |p| => es[p[i]])
  }

  // ---- With interference two operations are enough ----

  function StoreOp<V>(accesses: seq<Access>, l: Loc, v: V): Op<V> {
    Op(accesses, _ => map[l := v])
  }

  /** Copies `l` to `l'`. */
  function CopyOp<V>(accesses: seq<Access>, l: Loc, l': Loc): Op<V> {
    Op(accesses, (m: Mem<Loc, V>) => if l in m then map[l' := m[l]] else map[])
  }

  function IdleOp<V>(accesses: seq<Access>): Op<V> {
    Op(accesses, _ => map[])
  }

  lemma Stores<V>(accesses: seq<Access>, l: Loc, v: V, m: Mem<Loc, V>)
    requires l in OutputsOf(accesses)
    ensures RunEffect(EffectOf(StoreOp(accesses, l, v)), m) == m[l := v]
  {
  }

  lemma Copies<V>(accesses: seq<Access>, l: Loc, l': Loc, m: Mem<Loc, V>)
    requires l in InputsOf(accesses) && l' in OutputsOf(accesses) && l in m
    ensures RunEffect(EffectOf(CopyOp(accesses, l, l')), m) == m[l' := m[l]]
  {
    assert Restrict(m, InputsOf(accesses))[l] == m[l];
  }

  /** `x` and `y` at these places of the batch, and nothing done elsewhere. */
  function Batch<V>(ds: Declarations, i: nat, j: nat, x: Op<V>, y: Op<V>): (ops: seq<Op<V>>)
    ensures |ops| == |ds| && forall k | 0 <= k < |ds| ::
              ops[k] == if k == i then x else if k == j then y else IdleOp(ds[k])
  {
    seq(|ds|, k requires 0 <= k < |ds| => if k == i then x else if k == j then y else IdleOp(ds[k]))
  }

  ghost predicate Idle<L(!new), V(!new)>(e: Effect<L, V>) {
    forall m: Mem<L, V> :: RunEffect(e, m) == m
  }

  lemma {:induction false} AllIdle<L(!new), V(!new)>(es: seq<Effect<L, V>>, m: Mem<L, V>)
    requires forall k | 0 <= k < |es| :: Idle(es[k])
    ensures RunEffects(es, m) == m
  {
    if es != [] {
      assert Idle(es[0]);
      AllIdle(es[1..], m);
    }
  }

  lemma {:induction false} TwoMatter<L(!new), V(!new)>(es: seq<Effect<L, V>>, i: nat, j: nat, m: Mem<L, V>)
    requires i < j < |es| && forall k | 0 <= k < |es| && k != i && k != j :: Idle(es[k])
    ensures RunEffects(es, m) == RunEffect(es[j], RunEffect(es[i], m))
  {
    var m1 := RunEffect(es[0], m);
    if i > 0 {
      assert Idle(es[0]);
      TwoMatter(es[1..], i - 1, j - 1, m);
    } else {
      OneMatters(es[1..], j - 1, m1);
    }
  }

  lemma {:induction false} OneMatters<L(!new), V(!new)>(es: seq<Effect<L, V>>, j: nat, m: Mem<L, V>)
    requires j < |es| && forall k | 0 <= k < |es| && k != j :: Idle(es[k])
    ensures RunEffects(es, m) == RunEffect(es[j], m)
  {
    if j > 0 {
      assert Idle(es[0]);
      OneMatters(es[1..], j - 1, m);
    } else {
      AllIdle(es[1..], RunEffect(es[0], m));
    }
  }

  /** All places in order, but for two that change theirs. */
  function Exchange(n: nat, i: nat, j: nat): (p: seq<nat>)
    requires i < j < n
    ensures |p| == n && p[i] == j && p[j] == i && forall k | 0 <= k < n && k != i && k != j :: p[k] == k
  {
    seq(n, (k: int) requires 0 <= k => if k == i then j else if k == j then i else k as nat)
  }

  lemma ExchangeAll(n: nat, i: nat, j: nat)
    requires i < j < n
    ensures var p := Exchange(n, i, j);
            (forall k, k' | 0 <= k < k' < n :: p[k] != p[k']) && forall k | 0 <= k < n :: k in p
  {
    var p := Exchange(n, i, j);
    forall k | 0 <= k < n
      ensures k in p
    {
      assert p[if k == i then j else if k == j then i else k] == k;
    }
  }

  lemma OthersIdle<V(!new)>(ds: Declarations, i: nat, j: nat, x: Op<V>, y: Op<V>)
    requires i < j < |ds| && x.accesses == ds[i] && y.accesses == ds[j]
    ensures var es := EffectsOf(Batch(ds, i, j, x, y));
            es[i] == EffectOf(x) && es[j] == EffectOf(y) && DeclarationsOf(Batch(ds, i, j, x, y)) == ds &&
            forall k | 0 <= k < |es| && k != i && k != j :: Idle(es[k])
  {
    var ops := Batch(ds, i, j, x, y);
    forall k | 0 <= k < |ds| && k != i && k != j
      ensures Idle(EffectsOf(ops)[k])
    {
      assert EffectsOf(ops)[k] == EffectOf(IdleOp<V>(ds[k]));
    }
  }

  /** Operations that end differently when they change places, among idle ones: the
      kernel may run the later one first. */
  lemma Swapped<V(!new)>(ds: Declarations, i: nat, j: nat, x: Op<V>, y: Op<V>, m: Mem<Loc, V>)
    returns (plan: Plan<V>, m': Mem<Loc, V>)
    requires i < j < |ds| && x.accesses == ds[i] && y.accesses == ds[j]
    requires RunEffect(EffectOf(y), RunEffect(EffectOf(x), m)) != RunEffect(EffectOf(x), RunEffect(EffectOf(y), m))
    ensures Misordered(ds, Batch(ds, i, j, x, y), plan, m, m')
  {
    var ops := Batch(ds, i, j, x, y);
    var es, p := EffectsOf(ops), Exchange(|ds|, i, j);
    OthersIdle(ds, i, j, x, y);
    ExchangeAll(|ds|, i, j);
    hide Leads, Idle, RunEffect, RunEffects, EffectOf, EffectsOf, Batch, Exchange;
    plan := AnyOrder(es, AllFresh(es), m, p);
    assert After(AllFresh(es), p) == AllFinished<V>(|es|);
    hide AllFresh, AllFinished, After;
    TwoMatter(es, i, j, m);
    TwoMatter(InOrderOf(es, p), i, j, m);
    m' := RunEffects(InOrderOf(es, p), m);
  }

  lemma LoseOrder<V(!new)>(ds: Declarations, i: nat, j: nat, a: V, b: V)
    returns (ops: seq<Op<V>>, plan: Plan<V>, m: Mem<Loc, V>, m': Mem<Loc, V>)
    requires i < j < |ds| && DeclareInterference(ds[i], ds[j]) && a != b
    ensures Misordered(ds, ops, plan, m, m')
  {
    var x, y;
    x, y, m := Rivals(ds[i], ds[j], a, b);
    ops := Batch(ds, i, j, x, y);
    plan, m' := Swapped(ds, i, j, x, y, m);
  }

  lemma Rivals<V>(d: seq<Access>, d': seq<Access>, a: V, b: V) returns (x: Op<V>, y: Op<V>, m: Mem<Loc, V>)
    requires DeclareInterference(d, d') && a != b
    ensures x.accesses == d && y.accesses == d'
    ensures RunEffect(EffectOf(y), RunEffect(EffectOf(x), m)) != RunEffect(EffectOf(x), RunEffect(EffectOf(y), m))
  {
    if l :| l in OutputsOf(d) && l in OutputsOf(d') {
      x, y, m := StoreOp(d, l, a), StoreOp(d', l, b), map[];
      Stores(d, l, a, m);
      Stores(d', l, b, m);
      Stores(d', l, b, m[l := a]);
      Stores(d, l, a, m[l := b]);
      assert m[l := a][l := b][l] != m[l := b][l := a][l];
    } else if l :| l in OutputsOf(d) && l in InputsOf(d') && OutputsOf(d') != {} {
      var l' :| l' in OutputsOf(d');
      x, y, m := StoreOp(d, l, a), CopyOp(d', l, l'), map[l := b];
      StoreThenCopy(d, d', l, l', a, b);
    } else {
      var l :| l in InputsOf(d) && l in OutputsOf(d');
      var l' :| l' in OutputsOf(d);
      x, y, m := CopyOp(d, l, l'), StoreOp(d', l, a), map[l := b];
      StoreThenCopy(d', d, l, l', a, b);
    }
  }

  lemma StoreThenCopy<V>(d: seq<Access>, d': seq<Access>, l: Loc, l': Loc, a: V, b: V)
    requires l in OutputsOf(d) && l in InputsOf(d') && l' in OutputsOf(d') && l != l' && a != b
    ensures var x, y, m := StoreOp(d, l, a), CopyOp(d', l, l'), map[l := b];
            RunEffect(EffectOf(y), RunEffect(EffectOf(x), m)) != RunEffect(EffectOf(x), RunEffect(EffectOf(y), m))
  {
    var m := map[l := b];
    Stores(d, l, a, m);
    Copies(d', l, l', m[l := a]);
    Copies(d', l, l', m);
    Stores(d, l, a, m[l' := b]);
    assert m[l := a][l' := a][l'] == a && m[l' := b][l := a][l'] == b;
  }
}
