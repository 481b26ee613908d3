/** The executor of `runtime/io_uring/fasync_dep.c`, run against a kernel that
    may do anything to the operations handed to it. */
module DagRun {
  import opened Effects
  import opened EffectDag

  /** What the executor and the kernel tell each other, in order. */
  datatype Event = Submitted(op: nat) | Refused(op: nat) | Completed(op: nat)

  lemma OneLess<V>(todo: Mem<Loc, V>, l: Loc)
    requires l in todo
    ensures |todo - {l}| < |todo|
  {
    assert (todo - {l}).Keys == todo.Keys - {l};
    assert |todo.Keys| == |todo| && |(todo - {l}).Keys| == |todo - {l}|;
  }

  /** The kernel: it may refuse an operation, and between any two calls it may
      run the operations published to it, in any order and interleaved. Once
      `patience` is used up a published operation asked about is ready, so every
      one is ready in the end. */
  class Kernel<!V> {
    ghost const effects: seq<Effect<Loc, V>>
    ghost var works: seq<Work<Loc, V>>
    ghost var mem: Mem<Loc, V>
    ghost var submitted: set<nat>
    ghost var published: set<nat>
    ghost var log: seq<Event>
    var owner: map<nat, nat>
    var patience: nat
    var nextHandle: nat
    var refused: bool // some operation was not accepted
    var broken: bool // some hand-over failed

    ghost predicate Valid()
      reads this
    {
      LeftOf(works, effects) && nextHandle != 0 &&
      published <= submitted && (forall k | k in submitted :: k < |effects|) &&
      (forall k: nat :: Refused(k) in log ==> refused) &&
      (forall k | 0 <= k < |effects| && k !in submitted :: works[k] == Fresh(effects[k])) &&
      (forall h | h in owner :: 0 < h < nextHandle && owner[h] in submitted)
    }

    /** Every operation handed over is independent of the earlier ones still
        unfinished. */
    ghost predicate Ordered()
      reads this
      requires Valid()
    {
      forall i, k | k in submitted && 0 <= i < k :: Finished(works[i]) || Independent(effects[i], effects[k])
    }

    /** What is left still leads where it led. */
    twostate predicate Kept()
      reads this
      requires old(Valid()) && Valid()
    {
      (old(Ordered()) ==> Ordered() && RunAll(works, mem) == RunAll(old(works), old(mem))) &&
      (forall i | 0 <= i < |old(works)| :: old(Finished(works[i])) ==> Finished(works[i])) &&
      |works| == |old(works)|
    }

    constructor (ghost es: seq<Effect<Loc, V>>, ghost m: Mem<Loc, V>, patience: nat)
      ensures Valid() && effects == es && mem == m && log == [] && submitted == {} && !refused && !broken
      ensures |works| == |es| && forall i | 0 <= i < |es| :: works[i] == Fresh(es[i])
    {
      effects, works, mem := es, seq(|es|, i requires 0 <= i < |es| => Fresh(es[i])), m;
      submitted, published, log, owner, nextHandle := {}, {}, [], map[], 1;
      this.patience, refused, broken := patience, false, false;
    }

    ghost method Move(k: nat)
      requires Valid() && k in published && !Finished(works[k])
      modifies this`works, this`mem
      ensures Valid() && Kept()
      ensures works[k].Draining?
      ensures old(works[k]).Draining? ==> |works[k].todo| < |old(works[k]).todo|
    {
      var ws, m := works, mem;
      if works[k].Fresh? {
        works := ws[k := Draining(Output(ws[k].effect, m))];
      } else {
        var todo := works[k].todo;
        var l :| l in todo;
        works, mem := ws[k := Draining(todo - {l})], m[l := todo[l]];
        OneLess(todo, l);
      }
      hide Output, RunAll, Independent;
      if old(Ordered()) {
        KernelMoveKeepsOutcome(effects, ws, m, k, works, mem);
      }
    }

    ghost method Run()
      requires Valid()
      modifies this`works, this`mem
      ensures Valid() && Kept()
    {
      var steps: nat :| true;
      while steps > 0 && exists k :: k in published && !Finished(works[k])
        invariant Valid() && Kept()
      {
        var k :| k in published && !Finished(works[k]);
        Move(k);
        steps := steps - 1;
      }
    }

    ghost method Drive(k: nat)
      requires Valid() && k in published
      modifies this`works, this`mem
      ensures Valid() && Kept() && Finished(works[k])
    {
      while !Finished(works[k])
        invariant Valid() && Kept()
        decreases if works[k].Fresh? then 1 else 0, if works[k].Fresh? then 0 else |works[k].todo|
      {
        Move(k);
      }
    }

    method Submit(k: nat) returns (h: nat)
      requires Valid() && k < |effects| && k !in submitted
      modifies this`submitted, this`log, this`owner, this`nextHandle, this`refused
      ensures Valid()
      ensures h == 0 ==> refused && submitted == old(submitted) && log == old(log) + [Refused(k)] && owner == old(owner)
      ensures h != 0 ==> refused == old(refused) && submitted == old(submitted) + {k} &&
                         log == old(log) + [Submitted(k)] && h !in old(owner) && owner == old(owner)[h := k]
    {
      var accept := *;
      if !accept {
        refused := true;
        log := log + [Refused(k)];
        return 0;
      }
      h := nextHandle;
      nextHandle := nextHandle + 1;
      owner := owner[h := k];
      submitted := submitted + {k};
      log := log + [Submitted(k)];
    }

    /** Hands the queued operations over; may fail. */
    method Publish() returns (rc: int)
      requires Valid()
      modifies this`works, this`mem, this`broken, this`published
      ensures Valid() && Kept() && published == if rc < 0 then old(published) else submitted
      ensures broken <==> old(broken) || rc < 0
    {
      rc := *;
      if rc >= 0 {
        published := submitted;
      }
      broken := broken || rc < 0;
      Run();
    }

    method Ready(h: nat) returns (ready: bool)
      requires Valid() && h in owner && owner[h] in published
      modifies this`works, this`mem, this`patience
      ensures Valid() && Kept()
      ensures ready ==> Finished(works[owner[h]]) && patience == old(patience)
      ensures !ready ==> patience < old(patience)
    {
      Run();
      ready := *;
      if patience == 0 || ready {
        Drive(owner[h]);
        ready := true;
      } else {
        patience := patience - 1;
      }
    }

    method Result(h: nat)
      requires Valid() && h in owner && Finished(works[owner[h]])
      modifies this`owner, this`log
      ensures Valid() && log == old(log) + [Completed(old(owner)[h])] && owner == old(owner) - {h}
    {
      log := log + [Completed(owner[h])];
      owner := owner - {h};
    }
  }

  // ---- Edges not yet satisfied ----

  /** An edge into `k` whose source is not done. */
  predicate Open(edge: Edge, k: nat, done: seq<bool>) {
    edge.target == k && !(edge.source < |done| && done[edge.source])
  }

  function OpenInto(edges: seq<Edge>, k: nat, done: seq<bool>): nat {
    if edges == [] then 0
    else
      var last := |edges| - 1;
      OpenInto(edges[..last], k, done) + if Open(edges[last], k, done) then 1 else 0
  }

  lemma OpenIntoSnoc(edges: seq<Edge>, e: nat, k: nat, done: seq<bool>)
    requires e < |edges|
    ensures OpenInto(edges[..e + 1], k, done) ==
            OpenInto(edges[..e], k, done) + if Open(edges[e], k, done) then 1 else 0
  {
    assert edges[..e + 1][..e] == edges[..e];
  }

  lemma {:induction false} OpenIntoPrefix(edges: seq<Edge>, e: nat, k: nat, done: seq<bool>)
    requires e <= |edges|
    ensures OpenInto(edges[..e], k, done) <= OpenInto(edges, k, done)
    decreases |edges|
  {
    if e < |edges| {
      OpenIntoPrefix(edges[..|edges| - 1], e, k, done);
      assert edges[..|edges| - 1][..e] == edges[..e];
    } else {
      assert edges[..e] == edges;
    }
  }

  /** No open edge: every edge into `k` comes from an operation that is done. */
  lemma {:induction false} NoneOpen(edges: seq<Edge>, k: nat, done: seq<bool>)
    ensures OpenInto(edges, k, done) == 0 <==> forall e | e in edges :: !Open(e, k, done)
  {
    if edges != [] {
      var last := |edges| - 1;
      NoneOpen(edges[..last], k, done);
      assert edges == edges[..last] + [edges[last]];
    }
  }

  /** The in-degree of `k` when the first `e` edges have been lowered. */
  function Lowered(edges: seq<Edge>, e: nat, k: nat, was: seq<bool>, now: seq<bool>): int
    requires e <= |edges|
  {
    OpenInto(edges[..e], k, now) + OpenInto(edges, k, was) - OpenInto(edges[..e], k, was)
  }

  lemma LoweredStep(edges: seq<Edge>, e: nat, k: nat, was: seq<bool>, i: nat)
    requires e < |edges| && i < |was| && !was[i]
    ensures var now := was[i := true];
            Lowered(edges, e + 1, k, was, now) ==
            Lowered(edges, e, k, was, now) - if edges[e] == Edge(i, k) then 1 else 0
    ensures edges[e] == Edge(i, k) ==> Lowered(edges, e, k, was, was[i := true]) > 0
  {
    OpenIntoSnoc(edges, e, k, was[i := true]);
    OpenIntoSnoc(edges, e, k, was);
    OpenIntoPrefix(edges, e + 1, k, was);
  }

  // ---- Counting flags ----

  function Count(flags: seq<bool>): nat {
    if flags == [] then 0
    else Count(flags[..|flags| - 1]) + if flags[|flags| - 1] then 1 else 0
  }

  lemma {:induction false} CountSet(flags: seq<bool>, i: nat)
    requires i < |flags| && !flags[i]
    ensures Count(flags[i := true]) == Count(flags) + 1
  {
    var last := |flags| - 1;
    if i < last {
      assert flags[i := true][..last] == flags[..last][i := true];
      CountSet(flags[..last], i);
    } else {
      assert flags[i := true][..last] == flags[..last];
    }
  }

  lemma {:induction false} CountSubset(a: seq<bool>, b: seq<bool>)
    requires |a| == |b| && forall i | 0 <= i < |a| :: a[i] ==> b[i]
    ensures Count(a) <= Count(b) <= |b|
    ensures Count(a) == Count(b) ==> a == b
  {
    if a != [] {
      CountSubset(a[..|a| - 1], b[..|b| - 1]);
      assert a == a[..|a| - 1] + [a[|a| - 1]] && b == b[..|b| - 1] + [b[|b| - 1]];
    }
  }

  lemma {:induction false} CountZero(flags: seq<bool>)
    requires forall i | 0 <= i < |flags| :: !flags[i]
    ensures Count(flags) == 0
  {
    if flags != [] {
      CountZero(flags[..|flags| - 1]);
    }
  }

  lemma {:induction false} CountAll(flags: seq<bool>)
    requires Count(flags) == |flags|
    ensures forall i | 0 <= i < |flags| :: flags[i]
  {
    if flags != [] {
      var last := |flags| - 1;
      CountSubset(flags[..last], flags[..last]);
      CountAll(flags[..last]);
    }
  }

  // ---- What a run looked like ----

  /** Every operation handed over is handed over once, after everything with an
      edge into it has completed. */
  ghost predicate InOrder(log: seq<Event>, edges: seq<Edge>) {
    forall p | 0 <= p < |log| && log[p].Submitted? ::
      log[p] !in log[..p] &&
      forall e | e in edges && e.target == log[p].op :: Completed(e.source) in log[..p]
  }

  lemma InOrderSnoc(log: seq<Event>, ev: Event, edges: seq<Edge>)
    requires InOrder(log, edges)
    requires ev.Submitted? ==>
               ev !in log && forall e | e in edges && e.target == ev.op :: Completed(e.source) in log
    ensures InOrder(log + [ev], edges)
  {
    var log' := log + [ev];
    forall p | 0 <= p < |log'| && log'[p].Submitted?
      ensures log'[p] !in log'[..p] &&
              forall e | e in edges && e.target == log'[p].op :: Completed(e.source) in log'[..p]
    {
      assert log'[..p] == log[..p];
      assert log[..|log|] == log;
    }
  }

  /** `k` was refused, and nothing has completed since. */
  ghost predicate RefusedSince(log: seq<Event>, p: nat, k: nat)
    requires p <= |log|
  {
    exists r :: 0 <= r < p && log[r] == Refused(k) && forall q | r < q < p :: !log[q].Completed?
  }

  lemma RefusedStill(log: seq<Event>, ev: Event, k: nat)
    requires RefusedSince(log, |log|, k) && !ev.Completed?
    ensures RefusedSince(log + [ev], |log| + 1, k)
  {
    var r :| 0 <= r < |log| && log[r] == Refused(k) && forall q | r < q < |log| :: !log[q].Completed?;
    assert (log + [ev])[r] == Refused(k);
  }

  lemma RefusedNow(log: seq<Event>, k: nat)
    ensures RefusedSince(log + [Refused(k)], |log| + 1, k)
  {
    assert (log + [Refused(k)])[|log|] == Refused(k);
  }

  /** After the first `p` events, everything whose predecessors have all completed
      has been handed over, or was refused when it was last offered, which was after
      the last completion. */
  ghost predicate AllOffered(log: seq<Event>, p: nat, edges: seq<Edge>, n: nat)
    requires p <= |log|
  {
    forall k: nat | k < n && forall e | e in edges && e.target == k :: Completed(e.source) in log[..p] ::
      Submitted(k) in log[..p] || RefusedSince(log, p, k)
  }

  /** No completion is waited for before everything that may start has been
      offered. */
  ghost predicate Greedy(log: seq<Event>, edges: seq<Edge>, n: nat) {
    forall p | 0 <= p < |log| && log[p].Completed? :: AllOffered(log, p, edges, n)
  }

  lemma GreedySnoc(log: seq<Event>, ev: Event, edges: seq<Edge>, n: nat)
    requires Greedy(log, edges, n) && (ev.Completed? ==> AllOffered(log, |log|, edges, n))
    ensures Greedy(log + [ev], edges, n)
  {
    forall p | 0 <= p < |log + [ev]| && (log + [ev])[p].Completed?
      ensures AllOffered(log + [ev], p, edges, n)
    {
      OfferedPrefix(log, [ev], p, edges, n);
    }
  }

  lemma OfferedPrefix(log: seq<Event>, more: seq<Event>, p: nat, edges: seq<Edge>, n: nat)
    requires p <= |log| && AllOffered(log, p, edges, n)
    ensures AllOffered(log + more, p, edges, n)
  {
    assert (log + more)[..p] == log[..p];
    forall k: nat | RefusedSince(log, p, k)
      ensures RefusedSince(log + more, p, k)
    {
      var r :| 0 <= r < p && log[r] == Refused(k) && forall q | r < q < p :: !log[q].Completed?;
      assert (log + more)[r] == Refused(k);
    }
    hide RefusedSince;
  }

  /** When everything handed over has completed, what has not completed comes after
      an operation that was refused when it was last offered. */
  lemma {:induction false} AfterRefused(log: seq<Event>, edges: seq<Edge>, n: nat, k: nat) returns (path: seq<nat>)
    requires AllOffered(log, |log|, edges, n) && Forward(edges, n) && k < n && Completed(k) !in log
    requires forall j: nat :: Submitted(j) in log ==> Completed(j) in log
    ensures path != [] && Path(path, edges) && path[|path| - 1] == k && RefusedSince(log, |log|, path[0])
    decreases k
  {
    assert log[..|log|] == log;
    if e :| e in edges && e.target == k && Completed(e.source) !in log {
      var before := AfterRefused(log, edges, n, e.source);
      path := before + [k];
      assert e == Edge(before[|before| - 1], k);
    } else {
      path := [k];
    }
  }

  /** Operations ordered one after the other by edges. */
  predicate Path(path: seq<nat>, edges: seq<Edge>) {
    forall i | 0 < i < |path| :: Edge(path[i - 1], path[i]) in edges
  }

  /** If an operation never completed, nothing ordered after it, however far,
      was ever handed over. */
  lemma {:induction false} NothingAfterUnfinished(log: seq<Event>, edges: seq<Edge>, path: seq<nat>)
    requires InOrder(log, edges) && Path(path, edges) && |path| >= 2
    requires forall k :: Completed(k) in log ==> Submitted(k) in log
    requires Completed(path[0]) !in log
    ensures Submitted(path[|path| - 1]) !in log
    decreases |path|
  {
    assert Edge(path[0], path[1]) in edges;
    assert forall p | 0 <= p < |log| && log[p] == Submitted(path[1]) :: Completed(path[0]) in log[..p];
    if |path| > 2 {
      assert forall i | 0 < i < |path[1..]| :: path[1..][i] == path[i + 1] && path[1..][i - 1] == path[i];
      NothingAfterUnfinished(log, edges, path[1..]);
    }
  }

  /** The flags agree with what the kernel was told. */
  ghost predicate Told(log: seq<Event>, submitted: set<nat>, edges: seq<Edge>, started: seq<bool>, done: seq<bool>) {
    InOrder(log, edges) && Greedy(log, edges, |done|) && |started| == |done| &&
    (forall k: nat :: k in submitted <==> k < |started| && started[k]) &&
    (forall k: nat :: Submitted(k) in log <==> k < |started| && started[k]) &&
    (forall k: nat :: Completed(k) in log <==> k < |done| && done[k]) &&
    (forall k: nat | k < |done| && done[k] :: started[k])
  }

  lemma ToldSays(log: seq<Event>, submitted: set<nat>, edges: seq<Edge>, started: seq<bool>, done: seq<bool>)
    requires Told(log, submitted, edges, started, done)
    ensures |started| == |done| && forall k | 0 <= k < |done| :: done[k] ==> started[k]
    ensures forall k: nat :: k in submitted <==> k < |started| && started[k]
  {
  }

  lemma InSnoc(log: seq<Event>, ev: Event)
    ensures forall x :: x in log + [ev] <==> x in log || x == ev
  {
  }

  lemma ToldStart(log: seq<Event>, submitted: set<nat>, edges: seq<Edge>, started: seq<bool>, done: seq<bool>, i: nat)
    requires Told(log, submitted, edges, started, done)
    requires i < |started| && !started[i] && OpenInto(edges, i, done) == 0
    ensures Told(log + [Submitted(i)], submitted + {i}, edges, started[i := true], done)
  {
    hide InOrder, Greedy, AllOffered, RefusedSince, OpenInto;
    NoneOpen(edges, i, done);
    forall e | e in edges && e.target == i
      ensures Completed(e.source) in log
    {
      assert !Open(e, i, done);
    }
    hide Open;
    InOrderSnoc(log, Submitted(i), edges);
    GreedySnoc(log, Submitted(i), edges, |done|);
    InSnoc(log, Submitted(i));
  }

  lemma ToldDone(log: seq<Event>, submitted: set<nat>, edges: seq<Edge>, started: seq<bool>, done: seq<bool>, i: nat)
    requires Told(log, submitted, edges, started, done)
    requires i < |started| && started[i] && AllOffered(log, |log|, edges, |done|)
    ensures Told(log + [Completed(i)], submitted, edges, started, done[i := true])
  {
    InOrderSnoc(log, Completed(i), edges);
    GreedySnoc(log, Completed(i), edges, |done|);
    hide InOrder, Greedy, AllOffered;
  }

  lemma ToldRefused(log: seq<Event>, submitted: set<nat>, edges: seq<Edge>, started: seq<bool>, done: seq<bool>, i: nat)
    requires Told(log, submitted, edges, started, done)
    ensures Told(log + [Refused(i)], submitted, edges, started, done)
  {
    InOrderSnoc(log, Refused(i), edges);
    GreedySnoc(log, Refused(i), edges, |done|);
    hide InOrder, Greedy;
  }

  /** Offering what no edge holds up offers everything. */
  lemma ToldOffered(log: seq<Event>, submitted: set<nat>, edges: seq<Edge>, started: seq<bool>, done: seq<bool>)
    requires Told(log, submitted, edges, started, done)
    requires forall k | 0 <= k < |done| :: started[k] || OpenInto(edges, k, done) != 0 || RefusedSince(log, |log|, k)
    ensures AllOffered(log, |log|, edges, |done|)
  {
    assert log[..|log|] == log;
    hide InOrder, Greedy, RefusedSince, OpenInto;
    forall k: nat | k < |done| && forall e | e in edges && e.target == k :: Completed(e.source) in log
      ensures Submitted(k) in log || RefusedSince(log, |log|, k)
    {
      NoneOpen(edges, k, done);
    }
  }

  /** Once every operation with an edge into `i` is done, `i` may run beside
      whatever of the earlier operations is unfinished. */
  lemma StartedInOrder<V>(kernel: Kernel<V>, edges: seq<Edge>, done: seq<bool>, i: nat)
    requires kernel.Valid() && i < |kernel.effects| == |done| && OpenInto(edges, i, done) == 0
    requires Covers(edges, kernel.effects)
    requires forall k | 0 <= k < |done| && done[k] :: Finished(kernel.works[k])
    ensures forall x | 0 <= x < i :: Finished(kernel.works[x]) || Independent(kernel.effects[x], kernel.effects[i])
  {
    NoneOpen(edges, i, done);
    forall x | 0 <= x < i
      ensures Finished(kernel.works[x]) || Independent(kernel.effects[x], kernel.effects[i])
    {
      if Edge(x, i) in edges {
        assert !Open(Edge(x, i), i, done);
      }
    }
  }

  // ---- The executor ----

  /** Counts the edges into each operation. */
  method FillInDegrees(inDegree: array<nat>, n: nat, codes: seq<nat>, ghost edges: seq<Edge>, ghost done: seq<bool>)
    requires n != 0 && inDegree.Length == n && edges == Decode(n, codes)
    requires forall k | 0 <= k < n :: inDegree[k] == 0
    requires forall k | 0 <= k < |done| :: !done[k]
    modifies inDegree
    ensures forall k | 0 <= k < n :: inDegree[k] == OpenInto(edges, k, done)
  {
    var e := 0;
    while e < |codes|
      invariant 0 <= e <= |codes|
      invariant forall k | 0 <= k < n :: inDegree[k] == OpenInto(edges[..e], k, done)
    {
      var to := Target(n, codes[e]);
      assert edges[e] == Edge(Source(n, codes[e]), to);
      forall k | 0 <= k < n
        ensures OpenInto(edges[..e + 1], k, done) == OpenInto(edges[..e], k, done) + if k == to then 1 else 0
      {
        OpenIntoSnoc(edges, e, k, done);
      }
      hide OpenInto;
      inDegree[to] := inDegree[to] + 1;
      e := e + 1;
    }
    assert edges[..|edges|] == edges;
  }

  /** The executor's bookkeeping for one run. */
  class Run<!V> {
    const n: nat
    const codes: seq<nat>
    ghost const edges: seq<Edge>
    const kernel: Kernel<V>
    const inDegree: array<nat>
    const handles: array<nat>
    const done: array<bool>
    const started: array<bool>
    var inFlight: nat
    var finished: nat

    ghost predicate Shape()
      reads this, kernel
    {
      n != 0 && n == |kernel.effects| && edges == Decode(n, codes) && kernel.Valid() &&
      inDegree.Length == handles.Length == done.Length == started.Length == n &&
      inDegree != handles && done != started
    }

    /** The in-degree of an operation counts the edges into it from operations
        not yet done. */
    ghost predicate Degrees()
      requires Shape()
      reads this, kernel, inDegree, done
    {
      forall k | 0 <= k < n :: inDegree[k] == OpenInto(edges, k, done[..])
    }

    ghost predicate KernelAgrees()
      requires Shape()
      reads this, kernel, handles, done, started
    {
      (forall k | 0 <= k < n && done[k] :: Finished(kernel.works[k])) &&
      (forall k | 0 <= k < n && started[k] && !done[k] ::
        handles[k] in kernel.owner && kernel.owner[handles[k]] == k) &&
      (Covers(edges, kernel.effects) ==> kernel.Ordered())
    }

    ghost predicate Valid()
      reads this, kernel, inDegree, handles, done, started
    {
      Shape() && Degrees() && KernelAgrees() &&
      Told(kernel.log, kernel.submitted, edges, started[..], done[..]) &&
      finished == Count(done[..]) && inFlight + finished == Count(started[..])
    }

    /** What the memory will hold once everything left has run in array order. */
    ghost function Outcome(): Mem<Loc, V>
      reads kernel
    {
      RunAll(kernel.works, kernel.mem)
    }

    /** The first `i` operations have been started, wait for another one, or were
        refused since the last completion. */
    ghost predicate Considered(i: nat)
      requires Shape() && i <= n
      reads this, kernel, started, inDegree
    {
      forall k | 0 <= k < i :: started[k] || inDegree[k] != 0 || RefusedSince(kernel.log, |kernel.log|, k)
    }

    /** Everything in flight has been published. */
    ghost predicate AllPublished()
      reads this, kernel, started, done
    {
      Shape() && forall k: nat | k < n && started[k] && !done[k] :: k in kernel.published
    }

    constructor (n: nat, codes: seq<nat>, kernel: Kernel<V>)
      requires n != 0 && kernel.Valid() && n == |kernel.effects| && kernel.log == [] && kernel.submitted == {}
      ensures Valid() && this.n == n && this.edges == Decode(n, codes) && this.kernel == kernel
      ensures fresh(inDegree) && fresh(handles) && fresh(done) && fresh(started)
      ensures finished == 0 && inFlight == 0
    {
      this.n, this.codes, this.edges, this.kernel := n, codes, Decode(n, codes), kernel;
      inDegree, handles := new nat[n](_ => 0), new nat[n](_ => 0);
      done, started := new bool[n](_ => false), new bool[n](_ => false);
      inFlight, finished := 0, 0;
      new;
      FillInDegrees(inDegree, n, codes, edges, done[..]);
      CountZero(done[..]);
      CountZero(started[..]);
      hide Decode, OpenInto, Count, Covers, Independent, LeftOf, RunAll;
    }

    /** Starts operation `i` if nothing unfinished is ordered before it. */
    method TryStart(i: nat) returns (ok: bool)
      requires Valid() && i < n
      modifies this`inFlight, kernel`submitted, kernel`log, kernel`owner, kernel`nextHandle, kernel`refused, handles,
        started
      ensures Valid()
      ensures started[..] == if ok then old(started[..])[i := true] else old(started[..])
      ensures ok ==> !old(started[i]) && Count(started[..]) == old(Count(started[..])) + 1
      ensures old(Considered(i)) ==> Considered(i + 1)
    {
      hide Told, InOrder, RefusedSince, Covers, Independent, LeftOf, RunAll, OpenInto, Decode, Count;
      ok := false;
      ToldSays(kernel.log, kernel.submitted, edges, started[..], done[..]);
      if !started[i] && inDegree[i] == 0 {
        var h := kernel.Submit(i);
        StillConsidered(i);
        if h != 0 {
          started[i] := true;
          handles[i] := h;
          inFlight := inFlight + 1;
          ok := true;
          StartKeepsValid(i);
        } else {
          RefusedNow(old(kernel.log), i);
          ToldRefused(old(kernel.log), kernel.submitted, edges, started[..], done[..], i);
        }
      }
    }

    twostate lemma StillConsidered(i: nat)
      requires old(Shape()) && Shape() && i < n && unchanged(started, inDegree) && |kernel.log| == |old(kernel.log)| + 1
      requires old(kernel.log) <= kernel.log && !kernel.log[|old(kernel.log)|].Completed?
      ensures old(Considered(i)) ==> Considered(i)
    {
      var ev := kernel.log[|old(kernel.log)|];
      assert kernel.log == old(kernel.log) + [ev];
      forall k: nat | k < n && RefusedSince(old(kernel.log), |old(kernel.log)|, k)
        ensures RefusedSince(kernel.log, |kernel.log|, k)
      {
        RefusedStill(old(kernel.log), ev, k);
      }
      hide RefusedSince;
    }

    twostate lemma StartKeepsValid(i: nat)
      requires old(Valid()) && i < n && old(!started[i] && inDegree[i] == 0)
      requires kernel.Valid() && unchanged(inDegree, done, kernel`works, this`finished)
      requires started[..] == old(started[..])[i := true] && inFlight == old(inFlight) + 1
      requires handles[i] !in old(kernel.owner) && handles[..] == old(handles[..])[i := handles[i]]
      requires kernel.owner == old(kernel.owner)[handles[i] := i]
      requires kernel.submitted == old(kernel.submitted) + {i} && kernel.log == old(kernel.log) + [Submitted(i)]
      ensures Valid() && Count(started[..]) == old(Count(started[..])) + 1
    {
      hide Told, InOrder, LeftOf, OpenInto, Decode, Count, Path, Restrict;
      assert done[..] == old(done[..]);
      CountSet(old(started[..]), i);
      ToldStart(old(kernel.log), old(kernel.submitted), edges, old(started[..]), done[..], i);
      if Covers(edges, kernel.effects) {
        StartedInOrder(kernel, edges, done[..], i);
      }
    }

    /** Having considered everything, the wave has offered everything. */
    lemma OffersAll()
      requires Valid() && Considered(n)
      ensures AllOffered(kernel.log, |kernel.log|, edges, n)
    {
      hide Told, RefusedSince, OpenInto, AllOffered;
      ToldSays(kernel.log, kernel.submitted, edges, started[..], done[..]);
      ToldOffered(kernel.log, kernel.submitted, edges, started[..], done[..]);
    }

    /** Records that `i` is done and lowers the in-degree of everything ordered
        after it. */
    method Complete(i: nat)
      requires Valid() && i < n && started[i] && !done[i] && Finished(kernel.works[i]) && Considered(n)
      modifies this`inFlight, this`finished, kernel`owner, kernel`log, inDegree, done
      ensures Valid() && done[..] == old(done[..])[i := true] && finished == old(finished) + 1
    {
      hide Told, InOrder, AllOffered, Greedy, Considered, RefusedSince, Covers, Independent, LeftOf, RunAll, OpenInto,
           Decode, Count;
      OffersAll();
      ghost var was, log := done[..], kernel.log;
      CountSet(was, i);
      ToldSays(log, kernel.submitted, edges, started[..], was);
      CountSubset(was, started[..]);
      assert was[i] != started[..][i];
      ToldDone(log, kernel.submitted, edges, started[..], was, i);
      kernel.Result(handles[i]);
      done[i] := true;
      assert done[..] == was[i := true];
      inFlight := inFlight - 1;
      finished := finished + 1;
      Lower(i, was);
    }

    /** The test for zero before each decrement never fails. */
    method Lower(i: nat, ghost was: seq<bool>)
      requires Shape() && i < n && |was| == n && !was[i] && done[..] == was[i := true]
      requires forall k | 0 <= k < n :: inDegree[k] == OpenInto(edges, k, was)
      modifies inDegree
      ensures Degrees()
    {
      ghost var now := done[..];
      var e := 0;
      while e < |codes|
        invariant 0 <= e <= |codes|
        invariant forall k | 0 <= k < n :: inDegree[k] == Lowered(edges, e, k, was, now)
      {
        forall k | 0 <= k < n
          ensures Lowered(edges, e + 1, k, was, now) ==
                  Lowered(edges, e, k, was, now) - if edges[e] == Edge(i, k) then 1 else 0
          ensures edges[e] == Edge(i, k) ==> Lowered(edges, e, k, was, now) > 0
        {
          LoweredStep(edges, e, k, was, i);
        }
        var from, to := Source(n, codes[e]), Target(n, codes[e]);
        assert Edge(from, to) == edges[e];
        if from == i {
          if inDegree[to] != 0 {
            inDegree[to] := inDegree[to] - 1;
          }
        }
        e := e + 1;
      }
      assert edges[..|edges|] == edges;
    }

    /** Starts every operation that may start. */
    method StartWave() returns (startedAny: bool)
      requires Valid()
      modifies this`inFlight, kernel`submitted, kernel`log, kernel`owner, kernel`nextHandle, kernel`refused, handles,
        started
      ensures Valid()
      ensures startedAny <==> Count(started[..]) != old(Count(started[..]))
      ensures Count(started[..]) >= old(Count(started[..]))
      ensures Considered(n) && (!startedAny ==> started[..] == old(started[..]))
    {
      startedAny := false;
      for i := 0 to n
        invariant Valid() && Count(started[..]) >= old(Count(started[..]))
        invariant startedAny <==> Count(started[..]) != old(Count(started[..]))
        invariant Considered(i) && (!startedAny ==> started[..] == old(started[..]))
      {
        var ok := TryStart(i);
        startedAny := startedAny || ok;
      }
    }

    /** Publishes the operations started as one batch. */
    method Publish() returns (ok: bool)
      requires Valid()
      modifies kernel`works, kernel`mem, kernel`broken, kernel`published
      ensures Valid() && (Covers(edges, kernel.effects) ==> Outcome() == old(Outcome()))
      ensures kernel.broken <==> old(kernel.broken) || !ok
      ensures ok ==> AllPublished()
    {
      var rc := kernel.Publish();
      ok := rc >= 0;
    }

    /** Asks about one operation in flight. */
    method Ask(i: nat) returns (ready: bool)
      requires Valid() && i < n && started[i] && !done[i] && AllPublished()
      modifies kernel`works, kernel`mem, kernel`patience
      ensures Valid() && (Covers(edges, kernel.effects) ==> Outcome() == old(Outcome()))
      ensures ready ==> Finished(kernel.works[i]) && kernel.patience == old(kernel.patience)
      ensures !ready ==> kernel.patience < old(kernel.patience)
    {
      ready := kernel.Ready(handles[i]);
    }

    /** Asks about the operations in flight, in order, and completes the first
        one found ready. */
    method Reap() returns (found: bool)
      requires Valid() && Considered(n) && AllPublished()
      modifies this`inFlight, this`finished, kernel`works, kernel`mem, kernel`patience, kernel`owner, kernel`log,
        inDegree, done
      ensures Valid() && AllPublished() && kernel.patience <= old(kernel.patience)
      ensures Covers(edges, kernel.effects) ==> Outcome() == old(Outcome())
      ensures found ==> finished == old(finished) + 1
      ensures !found ==> finished == old(finished)
      ensures !found && old(inFlight) != 0 ==> kernel.patience < old(kernel.patience)
    {
      hide Told, InOrder, RefusedSince, Covers, Independent, LeftOf, RunAll, OpenInto, Decode, Count;
      for i := 0 to n
        invariant Valid() && unchanged(this, inDegree, done, kernel`owner, kernel`log)
        invariant Covers(edges, kernel.effects) ==> Outcome() == old(Outcome())
        invariant kernel.patience <= old(kernel.patience)
        invariant kernel.patience == old(kernel.patience) ==> forall k | 0 <= k < i :: started[k] ==> done[k]
      {
        if started[i] && !done[i] {
          var ready := Ask(i);
          if ready {
            Complete(i);
            return true;
          }
        }
      }
      if kernel.patience == old(kernel.patience) {
        assert forall k | 0 <= k < n :: started[k] ==> done[k];
        CountSubset(started[..], done[..]);
      }
      return false;
    }

    lemma Bounds()
      requires Valid()
      ensures finished <= Count(started[..]) <= n && Left() >= 0
      ensures finished == n <==> forall k: nat | k < n :: Completed(k) in kernel.log
      ensures finished == n ==> forall k | 0 <= k < n :: Finished(kernel.works[k])
    {
      CountSubset(done[..], started[..]);
      assert forall k | 0 <= k < n :: done[..][k] == done[k];
      if finished == n {
        CountAll(done[..]);
      } else if forall k | 0 <= k < n :: done[..][k] {
        CountFull(done[..]);
      }
    }

    /** With nothing in flight everything handed over has completed. */
    lemma NoneInFlight()
      requires Valid() && inFlight == 0
      ensures forall k: nat :: Submitted(k) in kernel.log ==> Completed(k) in kernel.log
    {
      hide InOrder, Greedy, Degrees, KernelAgrees;
      CountSubset(done[..], started[..]);
      assert done[..] == started[..];
    }

    /** Starts a wave and publishes it. */
    method Launch() returns (startedAny: bool, ok: bool)
      requires Valid() && AllPublished()
      modifies this`inFlight, kernel, handles, started
      ensures Valid() && (Covers(edges, kernel.effects) ==> Outcome() == old(Outcome()))
      ensures kernel.patience == old(kernel.patience)
      ensures if startedAny then Left() < old(Left()) && inFlight != 0 else ok && Left() == old(Left())
      ensures kernel.broken <==> old(kernel.broken) || !ok
      ensures Considered(n) && (ok ==> AllPublished())
    {
      hide Told, InOrder, Covers, Independent, LeftOf, RunAll, OpenInto, Decode, Count;
      Bounds();
      ok := true;
      startedAny := StartWave();
      if startedAny {
        ok := Publish();
      }
    }

    /** One round of the scheduling loop. */
    method Step() returns (progress: Progress)
      requires Valid() && AllPublished()
      modifies this, kernel, inDegree, handles, started, done
      ensures Valid() && (Covers(edges, kernel.effects) ==> Outcome() == old(Outcome()))
      ensures Left() < old(Left()) || (Left() == old(Left()) && kernel.patience < old(kernel.patience)) ||
              progress != More
      ensures progress == More ==> AllPublished()
      ensures progress == Failed ==> kernel.broken
      ensures progress == Stuck ==> OnlyRefusedLeft()
      ensures !kernel.broken ==> !old(kernel.broken)
    {
      hide *;
      var startedAny, ok := Launch();
      if !ok {
        progress := Failed;
      } else if inFlight == 0 {
        Leaves();
        progress := Stuck;
      } else {
        Answers();
        progress := More;
      }
    }

    /** Everything that may start has been offered, and everything handed over has
        completed. */
    ghost predicate OnlyRefusedLeft()
      reads kernel
    {
      AllOffered(kernel.log, |kernel.log|, edges, n) &&
      forall k: nat :: Submitted(k) in kernel.log ==> Completed(k) in kernel.log
    }

    lemma Leaves()
      requires Valid() && Considered(n) && inFlight == 0
      ensures OnlyRefusedLeft()
    {
      OffersAll();
      NoneInFlight();
      hide AllOffered;
    }

    /** Rounds until everything has finished or nothing more can be done. */
    method Drive() returns (progress: Progress)
      requires Valid() && AllPublished()
      modifies this, kernel, inDegree, handles, started, done
      ensures Valid() && (Covers(edges, kernel.effects) ==> Outcome() == old(Outcome())) && finished <= n
      ensures finished < n && !kernel.broken ==> OnlyRefusedLeft()
    {
      hide *;
      progress := More;
      Bounds();
      while finished < n && progress == More
        invariant Valid() && (Covers(edges, kernel.effects) ==> Outcome() == old(Outcome()))
        invariant progress == More ==> AllPublished()
        invariant progress == Failed ==> kernel.broken
        invariant progress == Stuck ==> OnlyRefusedLeft()
        invariant Left() >= 0 && finished <= n
        decreases progress == More, Left(), kernel.patience
      {
        progress := Step();
        Bounds();
      }
    }

    /** With something in flight an operation finishes, or patience is used up. */
    method Answers()
      requires Valid() && inFlight != 0 && Considered(n) && AllPublished()
      modifies this`inFlight, this`finished, kernel`works, kernel`mem, kernel`patience, kernel`owner, kernel`log,
        inDegree, done
      ensures Valid() && AllPublished() && (Covers(edges, kernel.effects) ==> Outcome() == old(Outcome()))
      ensures Left() < old(Left()) || (Left() == old(Left()) && kernel.patience < old(kernel.patience))
    {
      hide Degrees, KernelAgrees, Told, Covers, Independent, Forward, OpenInto, Decode, Count, RunAll, LeftOf;
      assert started != done;
      var found := Reap();
      assert started[..] == old(started[..]);
    }

    ghost function Left(): int
      reads this, started
    {
      2 * n - finished - Count(started[..])
    }
  }

  datatype Progress = More | Stuck | Failed

  lemma {:induction false} CountFull(flags: seq<bool>)
    requires forall i | 0 <= i < |flags| :: flags[i]
    ensures Count(flags) == |flags|
  {
    if flags != [] {
      CountFull(flags[..|flags| - 1]);
    }
  }

  /** `k` comes after, or is, an operation that was refused when it was last
      offered, which was after the last completion. */
  ghost predicate HeldUp(log: seq<Event>, edges: seq<Edge>, k: nat) {
    exists path :: path != [] && Path(path, edges) && path[|path| - 1] == k && RefusedSince(log, |log|, path[0])
  }

  lemma AllHeldUp(log: seq<Event>, edges: seq<Edge>, n: nat)
    requires AllOffered(log, |log|, edges, n) && Forward(edges, n)
    requires forall j: nat :: Submitted(j) in log ==> Completed(j) in log
    ensures forall k: nat | k < n && Completed(k) !in log :: HeldUp(log, edges, k)
    ensures (exists k: nat :: k < n && Completed(k) !in log) ==> exists j: nat :: Refused(j) in log
  {
    forall k: nat | k < n && Completed(k) !in log
      ensures HeldUp(log, edges, k)
    {
      var path := AfterRefused(log, edges, n, k);
    }
    if k: nat :| k < n && Completed(k) !in log {
      var path := AfterRefused(log, edges, n, k);
      assert Refused(path[0]) in log;
    }
  }

  /** Runs the batch. Whatever the kernel does, an operation is handed over once
      and only after everything ordered before it has completed; with edges that
      cover the conflicts, what the kernel leaves behind is what running the
      operations one by one in array order leaves. */
  method RunDag<V>(codes: seq<nat>, kernel: Kernel<V>, n: nat) returns (rc: int)
    requires kernel.Valid() && n == |kernel.effects| && kernel.log == [] && kernel.submitted == {}
    requires !kernel.refused && !kernel.broken
    modifies kernel
    ensures kernel.Valid() && (rc == 0 || rc == -1)
    ensures n == 0 ==> rc == 0 && kernel.mem == old(kernel.mem)
    ensures n != 0 ==> InOrder(kernel.log, Decode(n, codes))
    ensures forall k: nat :: Completed(k) in kernel.log ==>
              Submitted(k) in kernel.log && k < n && Finished(kernel.works[k])
    ensures forall k: nat :: Submitted(k) in kernel.log <==> k in kernel.submitted
    ensures rc == 0 <==> forall k: nat | k < n :: Completed(k) in kernel.log
    ensures n != 0 && Covers(Decode(n, codes), kernel.effects) ==>
              RunAll(kernel.works, kernel.mem) == RunEffects(kernel.effects, old(kernel.mem))
    ensures n != 0 && Covers(Decode(n, codes), kernel.effects) && rc == 0 ==>
              kernel.mem == RunEffects(kernel.effects, old(kernel.mem))
    ensures n != 0 ==> Greedy(kernel.log, Decode(n, codes), n)
    ensures n != 0 && Forward(Decode(n, codes), n) && !kernel.broken ==>
              forall k: nat | k < n && Completed(k) !in kernel.log :: HeldUp(kernel.log, Decode(n, codes), k)
    ensures n != 0 && Forward(Decode(n, codes), n) && !kernel.refused && !kernel.broken ==> rc == 0
  {
    hide Independent, OpenInto, Covers, Forward, Decode, Greedy, AllOffered, RefusedSince, HeldUp, InOrder;
    if n == 0 {
      return 0;
    }
    RunAllFresh(kernel.works, kernel.effects, kernel.mem);
    var run := new Run(n, codes, kernel);
    var progress := run.Drive();
    run.Bounds();
    rc := if run.finished == n then 0 else -1;
    if rc != 0 && !kernel.broken && Forward(run.edges, n) {
      AllHeldUp(kernel.log, run.edges, n);
    }
    if rc == 0 {
      RunAllFinished(kernel.works, kernel.mem);
    }
  }

  /** Draws the edges of a batch and runs it along them. When the edges fit the room
      given, the batch means what its operations mean in array order. */
  method RunBatch<V>(ops: seq<Op<V>>, edges: array<nat>, maxEdges: nat, kernel: Kernel<V>) returns (rc: int)
    requires |ops| * |ops| <= 0x1_0000_0000 && maxEdges <= edges.Length
    requires kernel.Valid() && kernel.effects == EffectDag.EffectsOf(ops) && kernel.log == [] && kernel.submitted == {}
    requires !kernel.refused && !kernel.broken
    modifies edges, kernel
    ensures rc == 0 <==> forall k: nat | k < |ops| :: Completed(k) in kernel.log
    ensures |Rows(DeclarationsOf(ops), 0)| <= maxEdges && rc == 0 ==>
              kernel.mem == RunEffects(EffectDag.EffectsOf(ops), old(kernel.mem))
    ensures |Rows(DeclarationsOf(ops), 0)| <= maxEdges && !kernel.refused && !kernel.broken ==> rc == 0
    ensures |Rows(DeclarationsOf(ops), 0)| <= maxEdges && ops != [] ==>
              InOrder(kernel.log, Decode(|ops|, Rows(DeclarationsOf(ops), 0))) &&
              Greedy(kernel.log, Decode(|ops|, Rows(DeclarationsOf(ops), 0)), |ops|)
    ensures |Rows(DeclarationsOf(ops), 0)| <= maxEdges && !kernel.broken ==>
              forall k: nat | k < |ops| && Completed(k) !in kernel.log ::
                HeldUp(kernel.log, Decode(|ops|, Rows(DeclarationsOf(ops), 0)), k)
  {
    hide Rows, Covers, Forward, InOrder, Greedy, HeldUp, Decode, Independent;
    ghost var m := kernel.mem;
    var n, stats := BuildDag(DeclarationsOf(ops), edges, maxEdges);
    if ops == [] {
      NothingToRun(kernel);
    } else {
      BuiltEdgesCover(ops);
    }
    rc := RunDag(edges[..n], kernel, |ops|);
  }

  lemma NothingToRun<V>(kernel: Kernel<V>)
    requires kernel.Valid() && kernel.effects == []
    ensures kernel.works == []
  {
  }
}
