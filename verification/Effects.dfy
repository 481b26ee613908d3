/** Effects of asynchronous calls on memory, and what it takes to run them out
    of order. A call in flight is a `Work`: it reads its declared locations at
    one moment and writes its declared locations one at a time afterwards, so a
    kernel may stop anywhere in between. Both the stub protocol and the effect
    DAG are proved against these definitions. */
module Effects {

  type Mem<L, V> = map<L, V>

  /** What a call does: from the values of `inputs` it computes new values, of
      which only those for `outputs` are stored. */
  datatype Effect<!L(==), !V> = Effect(inputs: set<L>, outputs: set<L>, f: Mem<L, V> -> Mem<L, V>)

  /** `Fresh`: not started. `Draining`: it has read its inputs and still has
      `todo` to store. `Draining(map[])`: finished. */
  datatype Work<!L(==), !V> =
    | Fresh(effect: Effect<L, V>)
    | Draining(todo: Mem<L, V>)

  function Restrict<L, V>(m: Mem<L, V>, s: set<L>): Mem<L, V> {
    map l | l in m && l in s :: m[l]
  }

  /** The values a call stores when it starts in memory `m`. */
  function Output<L, V>(e: Effect<L, V>, m: Mem<L, V>): Mem<L, V> {
    Restrict(e.f(Restrict(m, e.inputs)), e.outputs)
  }

  /** The blocking call: starts and finishes in one go. */
  function RunEffect<L, V>(e: Effect<L, V>, m: Mem<L, V>): Mem<L, V> {
    m + Output(e, m)
  }

  /** The blocking program: one call after the other. */
  function RunEffects<L, V>(es: seq<Effect<L, V>>, m: Mem<L, V>): Mem<L, V> {
    if es == [] then m else RunEffects(es[1..], RunEffect(es[0], m))
  }

  function WorkReads<L, V>(w: Work<L, V>): set<L> {
    if w.Fresh? then w.effect.inputs else {}
  }

  function WorkWrites<L, V>(w: Work<L, V>): set<L> {
    if w.Fresh? then w.effect.outputs else w.todo.Keys
  }

  predicate Finished<L, V>(w: Work<L, V>) {
    w.Draining? && w.todo == map[]
  }

  function RunWork<L, V>(w: Work<L, V>, m: Mem<L, V>): Mem<L, V> {
    if w.Fresh? then RunEffect(w.effect, m) else m + w.todo
  }

  /** Runs what is left of every work, in order. */
  function RunAll<L, V>(ws: seq<Work<L, V>>, m: Mem<L, V>): Mem<L, V> {
    if ws == [] then m else RunAll(ws[1..], RunWork(ws[0], m))
  }

  /** No work writes into `s`. */
  predicate NoneWrites<L, V>(ws: seq<Work<L, V>>, s: set<L>) {
    forall i | 0 <= i < |ws| :: WorkWrites(ws[i]) !! s
  }

  /** No work reads or writes `l`. */
  predicate NoneTouches<L, V>(ws: seq<Work<L, V>>, l: L) {
    forall i | 0 <= i < |ws| :: l !in WorkReads(ws[i]) && l !in WorkWrites(ws[i])
  }

  lemma {:induction false} RunAllAppend<L, V>(a: seq<Work<L, V>>, b: seq<Work<L, V>>, m: Mem<L, V>)
    ensures RunAll(a + b, m) == RunAll(b, RunAll(a, m))
  {
    if a == [] {
      assert a + b == b;
    } else {
      assert (a + b)[1..] == a[1..] + b;
      RunAllAppend(a[1..], b, RunWork(a[0], m));
    }
  }

  lemma {:induction false} RunAllKeepsUnwritten<L, V>(ws: seq<Work<L, V>>, m: Mem<L, V>, s: set<L>)
    requires NoneWrites(ws, s)
    ensures Restrict(RunAll(ws, m), s) == Restrict(m, s)
  {
    if ws != [] {
      var m' := RunWork(ws[0], m);
      assert WorkWrites(ws[0]) !! s;
      assert Restrict(m', s) == Restrict(m, s);
      RunAllKeepsUnwritten(ws[1..], m', s);
    }
  }

  lemma {:induction false} RunAllCommutesStore<L, V>(ws: seq<Work<L, V>>, m: Mem<L, V>, l: L, v: V)
    requires NoneTouches(ws, l)
    ensures RunAll(ws, m[l := v]) == RunAll(ws, m)[l := v]
  {
    if ws != [] {
      var w := ws[0];
      if w.Fresh? {
        assert Restrict(m[l := v], w.effect.inputs) == Restrict(m, w.effect.inputs);
      }
      assert RunWork(w, m[l := v]) == RunWork(w, m)[l := v];
      RunAllCommutesStore(ws[1..], RunWork(w, m), l, v);
    }
  }

  /** The same for any number of stores. */
  lemma {:induction false} RunAllCommutesStores<L, V>(ws: seq<Work<L, V>>, m: Mem<L, V>, todo: Mem<L, V>)
    requires forall l | l in todo :: NoneTouches(ws, l)
    ensures RunAll(ws, m + todo) == RunAll(ws, m) + todo
  {
    if ws != [] {
      var w := ws[0];
      forall l | l in todo
        ensures l !in WorkReads(w) && l !in WorkWrites(w) && NoneTouches(ws[1..], l)
      {
        assert NoneTouches(ws, l);
      }
      if w.Fresh? {
        assert Restrict(m + todo, w.effect.inputs) == Restrict(m, w.effect.inputs);
      }
      assert RunWork(w, m + todo) == RunWork(w, m) + todo;
      RunAllCommutesStores(ws[1..], RunWork(w, m), todo);
    }
  }

  /** An effect that no unfinished call can tell apart may take place now. */
  lemma EffectNow<L, V>(ws: seq<Work<L, V>>, e: Effect<L, V>, m: Mem<L, V>)
    requires NoneWrites(ws, e.inputs) && forall l | l in e.outputs :: NoneTouches(ws, l)
    ensures RunAll(ws, RunEffect(e, m)) == RunEffect(e, RunAll(ws, m))
  {
    RunAllKeepsUnwritten(ws, m, e.inputs);
    RunAllCommutesStores(ws, m, Output(e, m));
  }

  lemma RunAllReplace<L, V>(ws: seq<Work<L, V>>, k: nat, w: Work<L, V>, m: Mem<L, V>, m': Mem<L, V>)
    requires k < |ws|
    requires RunWork(w, RunAll(ws[..k], m')) == RunWork(ws[k], RunAll(ws[..k], m))
    ensures RunAll(ws[k := w], m') == RunAll(ws, m)
  {
    RunAllSplit(ws, k, m);
    RunAllSplit(ws[k := w], k, m');
    assert ws[k := w][..k] == ws[..k] && ws[k := w][k + 1..] == ws[k + 1..];
  }

  lemma RunAllSplit<L, V>(ws: seq<Work<L, V>>, k: nat, m: Mem<L, V>)
    requires k < |ws|
    ensures RunAll(ws, m) == RunAll(ws[k + 1..], RunWork(ws[k], RunAll(ws[..k], m)))
  {
    assert ws == ws[..k] + ws[k..];
    RunAllAppend(ws[..k], ws[k..], m);
    assert ws[k..][1..] == ws[k + 1..];
  }

  /** A call may read its inputs early, past unfinished earlier calls, when none
      of them writes what it reads. */
  lemma ReadEarly<L, V>(ws: seq<Work<L, V>>, k: nat, m: Mem<L, V>)
    requires k < |ws| && ws[k].Fresh?
    requires NoneWrites(ws[..k], ws[k].effect.inputs)
    ensures RunAll(ws[k := Draining(Output(ws[k].effect, m))], m) == RunAll(ws, m)
  {
    RunAllKeepsUnwritten(ws[..k], m, ws[k].effect.inputs);
    RunAllReplace(ws, k, Draining(Output(ws[k].effect, m)), m, m);
  }

  /** A call may store one of its outputs early, past unfinished earlier calls,
      when none of them reads or writes that location. */
  lemma StoreEarly<L, V>(ws: seq<Work<L, V>>, k: nat, m: Mem<L, V>, l: L)
    requires k < |ws| && ws[k].Draining? && l in ws[k].todo
    requires NoneTouches(ws[..k], l)
    ensures RunAll(ws[k := Draining(ws[k].todo - {l})], m[l := ws[k].todo[l]]) == RunAll(ws, m)
  {
    var todo := ws[k].todo;
    var before := RunAll(ws[..k], m);
    RunAllCommutesStore(ws[..k], m, l, todo[l]);
    assert before[l := todo[l]] + (todo - {l}) == before + todo;
    RunAllReplace(ws, k, Draining(todo - {l}), m, m[l := todo[l]]);
  }

  lemma {:induction false} RunAllFinished<L, V>(ws: seq<Work<L, V>>, m: Mem<L, V>)
    requires forall i | 0 <= i < |ws| :: Finished(ws[i])
    ensures RunAll(ws, m) == m
  {
    if ws != [] {
      assert Finished(ws[0]);
      assert RunWork(ws[0], m) == m;
      RunAllFinished(ws[1..], m);
    }
  }

  /** Nothing started: what is left is the blocking program. */
  lemma {:induction false} RunAllFresh<L, V>(ws: seq<Work<L, V>>, es: seq<Effect<L, V>>, m: Mem<L, V>)
    requires |ws| == |es| && forall i | 0 <= i < |ws| :: ws[i] == Fresh(es[i])
    ensures RunAll(ws, m) == RunEffects(es, m)
  {
    if ws != [] {
      RunAllFresh(ws[1..], es[1..], RunWork(ws[0], m));
    }
  }

  /** Two calls in flight at once are independent: neither writes what the
      other reads or writes. */
  predicate Independent<L, V>(a: Effect<L, V>, b: Effect<L, V>) {
    a.outputs !! b.outputs && a.outputs !! b.inputs && a.inputs !! b.outputs
  }

  /** One moment of the kernel running calls: `k` reads its inputs or stores one
      of its outputs. */
  ghost predicate KernelMove<L, V>(ws: seq<Work<L, V>>, m: Mem<L, V>, k: nat, ws': seq<Work<L, V>>, m': Mem<L, V>) {
    k < |ws| &&
    if ws[k].Fresh? then
      ws' == ws[k := Draining(Output(ws[k].effect, m))] && m' == m
    else
      exists l | l in ws[k].todo ::
        ws' == ws[k := Draining(ws[k].todo - {l})] && m' == m[l := ws[k].todo[l]]
  }

  /** `ws` is what is left of `es`. */
  ghost predicate LeftOf<L, V>(ws: seq<Work<L, V>>, es: seq<Effect<L, V>>) {
    |ws| == |es| &&
    forall i | 0 <= i < |ws| ::
      (ws[i].Fresh? ==> ws[i].effect == es[i]) && WorkWrites(ws[i]) <= es[i].outputs
  }

  /** A kernel move by `k` keeps the outcome when every call before `k` is
      finished or independent of `k`. */
  lemma KernelMoveKeepsOutcome<L, V>(es: seq<Effect<L, V>>, ws: seq<Work<L, V>>, m: Mem<L, V>, k: nat,
                                     ws': seq<Work<L, V>>, m': Mem<L, V>)
    requires LeftOf(ws, es) && KernelMove(ws, m, k, ws', m')
    requires forall i | 0 <= i < k :: Finished(ws[i]) || Independent(es[i], es[k])
    ensures RunAll(ws', m') == RunAll(ws, m)
    ensures LeftOf(ws', es)
    ensures forall i | 0 <= i < |ws| && i != k :: ws'[i] == ws[i]
  {
    assert forall i | 0 <= i < k :: ws[..k][i] == ws[i];
    if ws[k].Fresh? {
      ReadEarly(ws, k, m);
    } else {
      var l :| l in ws[k].todo && ws' == ws[k := Draining(ws[k].todo - {l})] && m' == m[l := ws[k].todo[l]];
      assert l in es[k].outputs;
      StoreEarly(ws, k, m, l);
    }
  }
}
