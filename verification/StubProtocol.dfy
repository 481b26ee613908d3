/** The protocol every annotated call follows, and what it is for: a program of
    such calls and of its own accesses sees, and leaves, what it would if every
    call ran to completion before the next statement. */
module StubProtocol {
  import opened Effects
  import opened LockLog
  import opened MarkSet
  import LockTable

  type Key = LockTable.Key

  /** Memory is objects, the resources that dependencies name, and results. */
  datatype Loc = InObject(obj: nat, offset: nat) | InResource(key: Key, part: nat) | ResultOf(call: nat)

  datatype Dep = Dep(key: Key, write: bool)

  /** An annotated call: what it does, and what its declaration says about it:
      dependencies, and buffers it produces and reads. */
  datatype Call<!V> = Call(effect: Effect<Loc, V>, deps: seq<Dep>, outs: seq<nat>, ins: seq<nat>)

  datatype Stmt<!V> =
    | Do(call: Call<V>)
    | Touch(obj: nat, effect: Effect<Loc, V>) // the program's own access
    | Await(i: nat)                              // waits for the result of the `i`th call
    | Stop

  datatype Obs<V> = Called | Saw(values: Mem<Loc, V>)

  /** What the program does next depends on what it has seen. */
  type Program<!V> = seq<Obs<V>> -> Stmt<V>

  function Calls<V>(obs: seq<Obs<V>>): nat {
    if obs == [] then 0 else Calls(obs[..|obs| - 1]) + if obs[|obs| - 1].Called? then 1 else 0
  }

  predicate MayRead<V>(c: Call<V>, l: Loc) {
    match l
    case InObject(o, _) => o in c.outs || o in c.ins
    case InResource(key, _) => exists d | d in c.deps :: d.key == key
    case ResultOf(_) => false
  }

  predicate MayWrite<V>(c: Call<V>, t: nat, l: Loc) {
    match l
    case InObject(o, _) => o in c.outs
    case InResource(key, _) => exists d | d in c.deps :: d.key == key && d.write
    case ResultOf(u) => u == t
  }

  /** The call keeps to its declaration; its result is its own. */
  ghost predicate Declared<V>(c: Call<V>, t: nat) {
    (forall l | l in c.effect.inputs :: MayRead(c, l)) && forall l | l in c.effect.outputs :: MayWrite(c, t, l)
  }

  predicate Within(o: nat, l: Loc) {
    l.InObject? && l.obj == o
  }

  ghost predicate Legal<V>(s: Stmt<V>, t: nat, readonly: set<nat>) {
    match s
    case Do(c) => Declared(c, t)
    case Touch(o, e) =>
      (forall l | l in e.inputs :: Within(o, l)) && (forall l | l in e.outputs :: Within(o, l)) &&
      (o in readonly ==> e.outputs == {})
    case Await(i) => i < t
    case Stop => true
  }

  // ---- Blocking ----

  datatype Block<V> = Block(mem: Mem<Loc, V>, obs: seq<Obs<V>>)

  function BlockStep<V>(program: Program<V>, b: Block<V>): Block<V> {
    match program(b.obs)
    case Do(c) => Block(RunEffect(c.effect, b.mem), b.obs + [Called])
    case Touch(o, e) => Block(RunEffect(e, b.mem), b.obs + [Saw(Restrict(b.mem, e.inputs))])
    case Await(i) => Block(b.mem, b.obs + [Saw(Restrict(b.mem, {ResultOf(i)}))])
    case Stop => b
  }

  /** The first `n` statements, each run to completion. */
  function BlockRun<V>(program: Program<V>, m: Mem<Loc, V>, n: nat): Block<V> {
    if n == 0 then Block(m, []) else BlockStep(program, BlockRun(program, m, n - 1))
  }

  /** The blocking program never breaks its declarations. */
  ghost predicate LegalRun<V>(program: Program<V>, m: Mem<Loc, V>, readonly: set<nat>) {
    forall n :: Legal(program(BlockRun(program, m, n).obs), Calls(BlockRun(program, m, n).obs), readonly)
  }

  // ---- Asynchronous ----

  /** How far the stub of the current call has got. */
  datatype Phase<!V> =
    | Idle
    | AtLocks(call: Call<V>, i: nat)
    | InQueue(call: Call<V>, i: nat, h: nat)
    | AtOutputs(call: Call<V>, i: nat)
    | AtInputs(call: Call<V>, i: nat)

  datatype State<!V> = State(works: seq<Work<Loc, V>>, calls: seq<Call<V>>, completed: seq<bool>, mem: Mem<Loc, V>,
                             log: Log<nat, Key>, marks: Marks, phase: Phase<V>, obs: seq<Obs<V>>)

  function EffectsOf<V>(calls: seq<Call<V>>): (es: seq<Effect<Loc, V>>)
    ensures |es| == |calls| && forall i | 0 <= i < |es| :: es[i] == calls[i].effect
  {
    seq(|calls|, i requires 0 <= i < |calls| => calls[i].effect)
  }

  /** One atomic step of the program, of a stub, or of the kernel. */
  ghost predicate OneStep<V>(program: Program<V>, readonly: set<nat>, S: State<V>, S': State<V>) {
    Begin(program, S, S') || Ask(S, S') || Take(S, S') || Locked(S, S') || Produce(S, S') || OutputsDone(S, S') ||
    Read(S, S') ||
    Queue(S, S') || Access(program, readonly, S, S') || Collect(program, S, S') || Kernel(S, S') || Finish(S, S')
  }

  ghost predicate Begin<V>(program: Program<V>, S: State<V>, S': State<V>) {
    S.phase.Idle? && program(S.obs).Do? && S' == S.(phase := AtLocks(program(S.obs).call, 0))
  }

  /** A request for the next dependency arrives. */
  ghost predicate Ask<V>(S: State<V>, S': State<V>) {
    S.phase.AtLocks? && S.phase.i < |S.phase.call.deps| &&
    var d := S.phase.call.deps[S.phase.i];
    S' == S.(log := Arrive(S.log, |S.works|, d.key, d.write), phase := InQueue(S.phase.call, S.phase.i, |S.log|))
  }

  ghost predicate Take<V>(S: State<V>, S': State<V>) {
    S.phase.InQueue? && MayGrant(S.log, S.phase.h) &&
    S' == S.(log := Grant(S.log, S.phase.h), phase := AtLocks(S.phase.call, S.phase.i + 1))
  }

  ghost predicate Locked<V>(S: State<V>, S': State<V>) {
    S.phase.AtLocks? && S.phase.i == |S.phase.call.deps| && S' == S.(phase := AtOutputs(S.phase.call, 0))
  }

  /** The call becomes the only owner of its next output. */
  ghost predicate Produce<V>(S: State<V>, S': State<V>) {
    S.phase.AtOutputs? && S.phase.i < |S.phase.call.outs| &&
    MayProduce(S.marks, S.phase.call.outs[S.phase.i], |S.works|, []) &&
    Produced(S.marks, S'.marks, S.phase.call.outs[S.phase.i], |S.works|) &&
    S' == S.(marks := S'.marks, phase := AtOutputs(S.phase.call, S.phase.i + 1))
  }

  ghost predicate OutputsDone<V>(S: State<V>, S': State<V>) {
    S.phase.AtOutputs? && S.phase.i == |S.phase.call.outs| && S' == S.(phase := AtInputs(S.phase.call, 0))
  }

  /** The call becomes a reader of its next input, whoever owns it. */
  ghost predicate Read<V>(S: State<V>, S': State<V>) {
    S.phase.AtInputs? && S.phase.i < |S.phase.call.ins| &&
    var o, t := S.phase.call.ins[S.phase.i], |S.works|;
    S' == S.(marks := if Owns(S.marks, o, t) then S.marks else Add(S.marks, o, t, false),
             phase := AtInputs(S.phase.call, S.phase.i + 1))
  }

  /** The runtime has waited until nobody else produces the inputs, and queues the
      request. */
  ghost predicate Queue<V>(S: State<V>, S': State<V>) {
    S.phase.AtInputs? && S.phase.i == |S.phase.call.ins| && InputsReady(S.marks, |S.works|, S.phase.call.ins) &&
    S' == S.(works := S.works + [Fresh(S.phase.call.effect)], calls := S.calls + [S.phase.call],
             completed := S.completed + [false], phase := Idle, obs := S.obs + [Called])
  }

  predicate InputsReady(M: Marks, t: nat, ins: seq<nat>) {
    forall s | s in M.live && M.live[s].obj in ins && M.live[s].write :: M.live[s].owner == t
  }

  /** The program's access. When the flag is set it first waits for every call
      that owns the object. */
  ghost predicate Access<V>(program: Program<V>, readonly: set<nat>, S: State<V>, S': State<V>) {
    S.phase.Idle? && program(S.obs).Touch? &&
    var o, e := program(S.obs).obj, program(S.obs).effect;
    (Pending(S.marks, o, o in readonly) ==> forall s | s in S.marks.live :: S.marks.live[s].obj != o) &&
    S' == S.(mem := RunEffect(e, S.mem), obs := S.obs + [Saw(Restrict(S.mem, e.inputs))])
  }

  /** The program waits for a call and takes its result. */
  ghost predicate Collect<V>(program: Program<V>, S: State<V>, S': State<V>) {
    S.phase.Idle? && program(S.obs).Await? && program(S.obs).i < |S.completed| && S.completed[program(S.obs).i] &&
    S' == S.(obs := S.obs + [Saw(Restrict(S.mem, {ResultOf(program(S.obs).i)}))])
  }

  /** The kernel reads the inputs of a queued request or stores one output. */
  ghost predicate Kernel<V>(S: State<V>, S': State<V>) {
    exists k: nat :: KernelMove(S.works, S.mem, k, S'.works, S'.mem) && S' == S.(works := S'.works, mem := S'.mem)
  }

  /** A finished request is reported: its call gives up its locks and marks. */
  ghost predicate Finish<V>(S: State<V>, S': State<V>) {
    exists k: nat :: k < |S.works| == |S.completed| && CanFinish(S, k) &&
      S' == S.(completed := S.completed[k := true], log := Release(S.log, k), marks := Complete(S.marks, k))
  }

  predicate CanFinish<V>(S: State<V>, k: nat)
    requires k < |S.works| == |S.completed|
  {
    Finished(S.works[k]) && !S.completed[k]
  }

  ghost predicate Run<V>(program: Program<V>, readonly: set<nat>, m: Mem<Loc, V>, states: seq<State<V>>) {
    states != [] && states[0] == State([], [], [], m, [], NO_MARKS, Idle, []) &&
    forall i | 0 < i < |states| :: OneStep(program, readonly, states[i - 1], states[i])
  }

  // ---- What every step keeps ----

  /** What an unfinished call holds until it completes. */
  predicate HoldsLocks<V>(log: Log<nat, Key>, t: nat, deps: seq<Dep>) {
    forall d | d in deps :: exists h :: 0 <= h < |log| && log[h] == Request(t, d.key, d.write, Granted)
  }

  predicate OwnsOutputs(M: Marks, t: nat, outs: seq<nat>) {
    forall o | o in outs :: exists s | s in M.live :: M.live[s] == Marking(o, t, true)
  }

  predicate OwnsInputs(M: Marks, t: nat, ins: seq<nat>) {
    forall o | o in ins :: Owns(M, o, t)
  }

  /** Nobody else owns the outputs. */
  predicate Alone(M: Marks, t: nat, outs: seq<nat>) {
    forall s | s in M.live && M.live[s].obj in outs :: M.live[s].owner == t
  }

  ghost predicate Holding<V>(S: State<V>, k: nat)
    requires k < |S.calls|
  {
    HoldsLocks<V>(S.log, k, S.calls[k].deps) && OwnsOutputs(S.marks, k, S.calls[k].outs) &&
    OwnsInputs(S.marks, k, S.calls[k].ins)
  }

  /** The current call, with task number `t`. */
  ghost predicate PhaseOk<V>(program: Program<V>, obs: seq<Obs<V>>, log: Log<nat, Key>, marks: Marks, phase: Phase<V>,
                             t: nat) {
    (!phase.Idle? ==> program(obs) == Do(phase.call)) &&
    match phase
    case Idle => true
    case AtLocks(c, i) => i <= |c.deps| && HoldsLocks<V>(log, t, c.deps[..i])
    case InQueue(c, i, h) =>
      i < |c.deps| && HoldsLocks<V>(log, t, c.deps[..i]) && h < |log| &&
      log[h] == Request(t, c.deps[i].key, c.deps[i].write, Waiting)
    case AtOutputs(c, i) =>
      i <= |c.outs| && HoldsLocks<V>(log, t, c.deps) && OwnsOutputs(marks, t, c.outs[..i]) &&
      Alone(marks, t, c.outs[..i])
    case AtInputs(c, i) =>
      i <= |c.ins| && HoldsLocks<V>(log, t, c.deps) && OwnsOutputs(marks, t, c.outs) && Alone(marks, t, c.outs) &&
      OwnsInputs(marks, t, c.ins[..i])
  }

  /** Of two queued calls the earlier one has finished, or they are independent. */
  ghost predicate InOrder<V>(works: seq<Work<Loc, V>>, calls: seq<Call<V>>) {
    |works| == |calls| && forall i, j | 0 <= i < j < |works| ::
      Finished(works[i]) || Independent(calls[i].effect, calls[j].effect)
  }

  /** Only unfinished calls, and the current one, own or hold anything; only the
      current one waits. */
  predicate Owners<V>(completed: seq<bool>, marks: Marks, log: Log<nat, Key>, phase: Phase<V>) {
    (forall s | s in marks.live :: 0 <= marks.live[s].owner <= |completed| &&
      if marks.live[s].owner < |completed| then !completed[marks.live[s].owner]
        else phase.AtOutputs? || phase.AtInputs?) &&
    (forall h | 0 <= h < |log| && log[h].status == Granted :: log[h].task <= |completed| &&
      (log[h].task < |completed| ==> !completed[log[h].task])) &&
    forall h | 0 <= h < |log| && log[h].status == Waiting :: phase.InQueue? && phase.h == h
  }

  ghost predicate Queued<V>(S: State<V>) {
    |S.works| == |S.calls| == |S.completed| == Calls(S.obs) && LeftOf(S.works, EffectsOf(S.calls)) &&
    InOrder(S.works, S.calls) &&
    (forall k | 0 <= k < |S.calls| :: Declared(S.calls[k], k)) &&
    forall k | 0 <= k < |S.calls| :: if S.completed[k] then Finished(S.works[k]) else Holding(S, k)
  }

  /** What is left of the queued calls would complete the blocking run. */
  ghost predicate Agrees<V>(program: Program<V>, m: Mem<Loc, V>, works: seq<Work<Loc, V>>, mem: Mem<Loc, V>,
                            obs: seq<Obs<V>>) {
    var b := BlockRun(program, m, |obs|);
    obs == b.obs && RunAll(works, mem) == b.mem
  }

  ghost predicate Inv<V>(program: Program<V>, m: Mem<Loc, V>, S: State<V>) {
    Sound(S.marks) && FirstComeFirst(S.log) && Owners(S.completed, S.marks, S.log, S.phase) && Queued(S) &&
    PhaseOk(program, S.obs, S.log, S.marks, S.phase, |S.works|) && Agrees(program, m, S.works, S.mem, S.obs)
  }

  /** What `k` holds is still there. */
  predicate Keeps(log: Log<nat, Key>, M: Marks, log': Log<nat, Key>, M': Marks, k: nat) {
    (forall h | 0 <= h < |log| && log[h].task == k && log[h].status == Granted :: h < |log'| && log'[h] == log[h]) &&
    forall s | s in M.live && M.live[s].owner == k ::
      s in M'.live && M'.live[s].obj == M.live[s].obj && M'.live[s].owner == k && (M.live[s].write ==> M'.live[s].write)
  }

  lemma LocksKept<V>(log: Log<nat, Key>, M: Marks, log': Log<nat, Key>, M': Marks, k: nat, deps: seq<Dep>)
    requires Keeps(log, M, log', M', k) && HoldsLocks<V>(log, k, deps)
    ensures HoldsLocks<V>(log', k, deps)
  {
  }

  lemma MarksKept(log: Log<nat, Key>, M: Marks, log': Log<nat, Key>, M': Marks, k: nat, outs: seq<nat>, ins: seq<nat>)
    requires Keeps(log, M, log', M', k) && OwnsOutputs(M, k, outs) && OwnsInputs(M, k, ins)
    ensures OwnsOutputs(M', k, outs) && OwnsInputs(M', k, ins)
  {
  }

  lemma HoldingKept<V>(S: State<V>, S': State<V>, k: nat)
    requires k < |S.calls| && k < |S'.calls| && S'.calls[k] == S.calls[k] && Holding(S, k)
    requires Keeps(S.log, S.marks, S'.log, S'.marks, k)
    ensures Holding(S', k)
  {
  }

  /** A step that queues and completes nothing, and takes nothing away from the
      queued calls. */
  lemma QueuedKept<V>(S: State<V>, S': State<V>)
    requires Queued(S) && S'.works == S.works && S'.calls == S.calls && S'.completed == S.completed &&
             Calls(S'.obs) == Calls(S.obs)
    requires forall k | 0 <= k < |S.calls| :: Keeps(S.log, S.marks, S'.log, S'.marks, k)
    ensures Queued(S')
  {
    forall k | 0 <= k < |S.calls|
      ensures if S.completed[k] then Finished(S.works[k]) else Holding(S', k)
    {
      if !S.completed[k] {
        HoldingKept(S, S', k);
      }
    }
    hide InOrder, Declared, Holding;
  }

  lemma StartsInv<V>(program: Program<V>, m: Mem<Loc, V>)
    ensures Inv(program, m, State([], [], [], m, [], NO_MARKS, Idle, []))
  {
    NoMarksSound();
  }

  // ---- The stub takes its locks ----

  lemma BeginKeeps<V>(program: Program<V>, m: Mem<Loc, V>, S: State<V>, S': State<V>)
    requires Inv(program, m, S) && Begin(program, S, S')
    ensures Inv(program, m, S')
  {
    hide Sound, FirstComeFirst, Agrees;
    QueuedKept(S, S');
    hide Queued;
  }

  lemma AskKeeps<V>(program: Program<V>, m: Mem<Loc, V>, S: State<V>, S': State<V>)
    requires Inv(program, m, S) && Ask(S, S')
    ensures Inv(program, m, S')
  {
    var d := S.phase.call.deps[S.phase.i];
    assert LockLog.Arrived(S.log, S'.log);
    StepKeepsOrder(S.log, S'.log);
    hide Sound, FirstComeFirst, Agrees;
    QueuedKept(S, S');
    LocksKept<V>(S.log, S.marks, S'.log, S'.marks, |S.works|, S.phase.call.deps[..S.phase.i]);
    hide Queued, HoldsLocks;
  }

  lemma TakeKeeps<V>(program: Program<V>, m: Mem<Loc, V>, S: State<V>, S': State<V>)
    requires Inv(program, m, S) && Take(S, S')
    ensures Inv(program, m, S')
  {
    var c, i, h, t := S.phase.call, S.phase.i, S.phase.h, |S.works|;
    StepKeepsOrder(S.log, S'.log);
    hide Sound, FirstComeFirst, Agrees, MayGrant;
    QueuedKept(S, S');
    LocksKept<V>(S.log, S.marks, S'.log, S'.marks, t, c.deps[..i]);
    forall d | d in c.deps[..i + 1]
      ensures exists g :: 0 <= g < |S'.log| && S'.log[g] == Request(t, d.key, d.write, Granted)
    {
      assert c.deps[..i + 1] == c.deps[..i] + [c.deps[i]];
      if d == c.deps[i] {
        assert S'.log[h] == Request(t, d.key, d.write, Granted);
      }
    }
    hide Queued;
  }

  lemma LockedKeeps<V>(program: Program<V>, m: Mem<Loc, V>, S: State<V>, S': State<V>)
    requires Inv(program, m, S) && Locked(S, S')
    ensures Inv(program, m, S')
  {
    hide Sound, FirstComeFirst, Agrees;
    QueuedKept(S, S');
    assert S.phase.call.deps[..S.phase.i] == S.phase.call.deps;
    hide Queued, HoldsLocks;
  }

  // ---- The stub marks its buffers ----

  /** The current call gains marks. */
  lemma OwnersMark<V>(completed: seq<bool>, M: Marks, M': Marks, log: Log<nat, Key>, phase: Phase<V>, phase': Phase<V>)
    requires Owners(completed, M, log, phase) && (phase.AtOutputs? || phase.AtInputs?) &&
             (phase'.AtOutputs? || phase'.AtInputs?)
    requires forall s | s in M'.live :: M'.live[s].owner == |completed| || (s in M.live && M'.live[s] == M.live[s])
    ensures Owners(completed, M', log, phase')
  {
  }

  lemma ProduceKeeps<V>(program: Program<V>, m: Mem<Loc, V>, S: State<V>, S': State<V>)
    requires Inv(program, m, S) && Produce(S, S')
    ensures Inv(program, m, S')
  {
    var c, i, t := S.phase.call, S.phase.i, |S.works|;
    StepKeepsSound(S.marks, MarkSet.Step.Produce(c.outs[i], t, []), S'.marks);
    ProducedKeeps(S.log, S.marks, S'.marks, c.outs[i], t);
    NowAlone(S.marks, S'.marks, t, c.outs, i);
    hide Sound, FirstComeFirst, Agrees, Produced, MayProduce, Keeps, OwnsOutputs, Alone, Owners, HoldsLocks;
    OwnersMark(S.completed, S.marks, S'.marks, S.log, S.phase, S'.phase);
    QueuedKept(S, S');
    LocksKept<V>(S.log, S.marks, S'.log, S'.marks, t, c.deps);
    hide Queued;
  }

  lemma ProducedKeeps(log: Log<nat, Key>, M: Marks, M': Marks, o: nat, t: nat)
    requires Produced(M, M', o, t) && Sound(M)
    ensures forall k {:trigger Keeps(log, M, log, M', k)} :: Keeps(log, M, log, M', k)
    ensures forall s | s in M'.live :: M'.live[s].owner == t || (s in M.live && M'.live[s] == M.live[s])
  {
  }

  lemma NowAlone(M: Marks, M': Marks, t: nat, outs: seq<nat>, i: nat)
    requires i < |outs| && MayProduce(M, outs[i], t, []) && Produced(M, M', outs[i], t) && Numbered(M)
    requires OwnsOutputs(M, t, outs[..i]) && Alone(M, t, outs[..i])
    ensures OwnsOutputs(M', t, outs[..i + 1]) && Alone(M', t, outs[..i + 1])
  {
    assert outs[..i + 1] == outs[..i] + [outs[i]];
    var r := ProducedMark(M, M', outs[i], t);
    forall o | o in outs[..i]
      ensures exists s | s in M'.live :: M'.live[s] == Marking(o, t, true)
    {
      var s :| s in M.live && M.live[s] == Marking(o, t, true);
      assert M'.live[s] == Marking(o, t, true);
    }
    forall s | s in M.live && M.live[s].obj == outs[i]
      ensures M.live[s].owner == t
    {
      assert !Foreign(M.live[s], outs[i], t, []);
    }
  }

  lemma OutputsDoneKeeps<V>(program: Program<V>, m: Mem<Loc, V>, S: State<V>, S': State<V>)
    requires Inv(program, m, S) && OutputsDone(S, S')
    ensures Inv(program, m, S')
  {
    hide Sound, FirstComeFirst, Agrees;
    QueuedKept(S, S');
    assert S.phase.call.outs[..S.phase.i] == S.phase.call.outs;
    hide Queued, HoldsLocks;
  }

  lemma ReadKeeps<V>(program: Program<V>, m: Mem<Loc, V>, S: State<V>, S': State<V>)
    requires Inv(program, m, S) && Read(S, S')
    ensures Inv(program, m, S')
  {
    var c, i, t := S.phase.call, S.phase.i, |S.works|;
    var o := c.ins[i];
    StepKeepsSound(S.marks, MarkSet.Step.Input(o, t), S'.marks);
    InputKeeps(S.log, S.marks, S'.marks, o, t);
    hide Sound, FirstComeFirst, Agrees, Keeps, OwnsOutputs, Add, Owners, HoldsLocks;
    OwnersMark(S.completed, S.marks, S'.marks, S.log, S.phase, S'.phase);
    QueuedKept(S, S');
    LocksKept<V>(S.log, S.marks, S'.log, S'.marks, t, c.deps);
    MarksKept(S.log, S.marks, S'.log, S'.marks, t, c.outs, c.ins[..i]);
    OwnsOneMore(S'.marks, t, c.ins, i);
    hide Queued, OwnsInputs, Owns;
  }

  lemma OwnsOneMore(M: Marks, t: nat, ins: seq<nat>, i: nat)
    requires i < |ins| && OwnsInputs(M, t, ins[..i]) && Owns(M, ins[i], t)
    ensures OwnsInputs(M, t, ins[..i + 1])
  {
  }

  lemma InputKeeps(log: Log<nat, Key>, M: Marks, M': Marks, o: nat, t: nat)
    requires M' == if Owns(M, o, t) then M else Add(M, o, t, false)
    requires Sound(M)
    ensures forall k {:trigger Keeps(log, M, log, M', k)} :: Keeps(log, M, log, M', k)
    ensures forall s | s in M'.live :: M'.live[s].owner == t || (s in M.live && M'.live[s] == M.live[s])
    ensures Owns(M', o, t)
  {
    assert Numbered(M);
    if !Owns(M, o, t) {
      assert M'.live[M.next] == Marking(o, t, false);
    }
  }

  // ---- The request is queued ----

  /** With its locks granted, alone on its outputs, and nobody else producing its
      inputs, the call conflicts with no call that has not completed. */
  lemma QueuedIndependent<V>(S: State<V>, c: Call<V>, t: nat, k: nat)
    requires k < |S.calls| && k < t && Holding(S, k) && Declared(S.calls[k], k) && Declared(c, t) && Exclusive(S.log)
    requires HoldsLocks<V>(S.log, t, c.deps) && Alone(S.marks, t, c.outs) && InputsReady(S.marks, t, c.ins)
    ensures Independent(S.calls[k].effect, c.effect)
  {
  }

  lemma QueueKeeps<V>(program: Program<V>, m: Mem<Loc, V>, readonly: set<nat>, S: State<V>, S': State<V>)
    requires Inv(program, m, S) && Queue(S, S') && LegalRun(program, m, readonly)
    ensures Inv(program, m, S')
  {
    var c, t := S.phase.call, |S.works|;
    assert c.ins[..S.phase.i] == c.ins;
    assert Legal(program(BlockRun(program, m, |S.obs|).obs), Calls(S.obs), readonly);
    OrderMakesExclusive(S.log);
    QueueInOrder(S, c, t);
    QueueQueued(S, S', c, t);
    QueueAgrees(program, m, S, S', c);
    hide Sound, FirstComeFirst, Queued, Agrees;
  }

  lemma QueueInOrder<V>(S: State<V>, c: Call<V>, t: nat)
    requires Queued(S) && t == |S.works| && Declared(c, t) && Exclusive(S.log)
    requires HoldsLocks<V>(S.log, t, c.deps) && Alone(S.marks, t, c.outs) && InputsReady(S.marks, t, c.ins)
    ensures forall k | 0 <= k < t :: S.completed[k] || Independent(S.calls[k].effect, c.effect)
    ensures InOrder(S.works + [Fresh(c.effect)], S.calls + [c])
  {
    hide Independent, Holding, Declared, Exclusive;
    forall k | 0 <= k < t && !S.completed[k]
      ensures Independent(S.calls[k].effect, c.effect)
    {
      QueuedIndependent(S, c, t, k);
    }
  }

  lemma QueueQueued<V>(S: State<V>, S': State<V>, c: Call<V>, t: nat)
    requires Queued(S) && t == |S.works| && Declared(c, t) && InOrder(S.works + [Fresh(c.effect)], S.calls + [c])
    requires HoldsLocks<V>(S.log, t, c.deps) && OwnsOutputs(S.marks, t, c.outs) && OwnsInputs(S.marks, t, c.ins)
    requires S' == S.(works := S.works + [Fresh(c.effect)], calls := S.calls + [c], completed := S.completed + [false],
                      phase := Idle, obs := S.obs + [Called])
    ensures Queued(S')
  {
    assert S'.obs[..|S'.obs| - 1] == S.obs;
    forall k | 0 <= k < |S'.calls|
      ensures if S'.completed[k] then Finished(S'.works[k]) else Holding(S', k)
    {
      if k < t && !S.completed[k] {
        assert Holding(S, k);
        HoldingKept(S, S', k);
      }
    }
    hide InOrder, Declared, Holding;
  }

  lemma QueueAgrees<V>(program: Program<V>, m: Mem<Loc, V>, S: State<V>, S': State<V>, c: Call<V>)
    requires Agrees(program, m, S.works, S.mem, S.obs) && program(S.obs) == Do(c)
    requires S'.works == S.works + [Fresh(c.effect)] && S'.mem == S.mem && S'.obs == S.obs + [Called]
    ensures Agrees(program, m, S'.works, S'.mem, S'.obs)
  {
    RunAllAppend(S.works, [Fresh(c.effect)], S.mem);
    assert RunAll([Fresh(c.effect)], RunAll(S.works, S.mem)) == RunEffect(c.effect, RunAll(S.works, S.mem)) by {
      assert [Fresh(c.effect)][1..] == [];
    }
  }

  // ---- The program touches an object ----

  /** Once the hook lets it through, no call still owns the object in a way the
      access could disturb. */
  lemma AccessHarmless<V>(S: State<V>, o: nat, e: Effect<Loc, V>, readonly: set<nat>)
    requires Queued(S) && (Pending(S.marks, o, o in readonly) ==>
                           forall s | s in S.marks.live :: S.marks.live[s].obj != o)
    requires (forall l | l in e.inputs :: Within(o, l)) && (forall l | l in e.outputs :: Within(o, l))
    requires o in readonly ==> e.outputs == {}
    ensures NoneWrites(S.works, e.inputs) && forall l | l in e.outputs :: NoneTouches(S.works, l)
  {
  }

  lemma ObsNext<V>(obs: seq<Obs<V>>, next: Obs<V>)
    ensures Calls(obs + [next]) == Calls(obs) + if next.Called? then 1 else 0
  {
  }

  lemma AccessKeeps<V>(program: Program<V>, m: Mem<Loc, V>, readonly: set<nat>, S: State<V>, S': State<V>)
    requires Inv(program, m, S) && Access(program, readonly, S, S') && LegalRun(program, m, readonly)
    ensures Inv(program, m, S')
  {
    var o, e := program(S.obs).obj, program(S.obs).effect;
    assert Legal(program(BlockRun(program, m, |S.obs|).obs), Calls(S.obs), readonly);
    AccessHarmless(S, o, e, readonly);
    EffectNow(S.works, e, S.mem);
    RunAllKeepsUnwritten(S.works, S.mem, e.inputs);
    ObsNext(S.obs, Saw(Restrict(S.mem, e.inputs)));
    hide Sound, FirstComeFirst;
    QueuedKept(S, S');
    hide Queued, LegalRun;
  }

  lemma CollectKeeps<V>(program: Program<V>, m: Mem<Loc, V>, S: State<V>, S': State<V>)
    requires Inv(program, m, S) && Collect(program, S, S')
    ensures Inv(program, m, S')
  {
    var i := program(S.obs).i;
    forall j | 0 <= j < |S.works|
      ensures WorkWrites(S.works[j]) !! {ResultOf(i)}
    {
      assert if S.completed[j] then Finished(S.works[j]) else true;
      assert Declared(S.calls[j], j) && WorkWrites(S.works[j]) <= S.calls[j].effect.outputs;
    }
    RunAllKeepsUnwritten(S.works, S.mem, {ResultOf(i)});
    ObsNext(S.obs, Saw(Restrict(S.mem, {ResultOf(i)})));
    hide Sound, FirstComeFirst;
    QueuedKept(S, S');
    hide Queued;
  }

  // ---- The kernel ----

  lemma KernelKeeps<V>(program: Program<V>, m: Mem<Loc, V>, S: State<V>, S': State<V>)
    requires Inv(program, m, S) && Kernel(S, S')
    ensures Inv(program, m, S')
  {
    var k: nat :| KernelMove(S.works, S.mem, k, S'.works, S'.mem);
    assert forall i | 0 <= i < k :: Finished(S.works[i]) || Independent(S.calls[i].effect, S.calls[k].effect);
    KernelMoveKeepsOutcome(EffectsOf(S.calls), S.works, S.mem, k, S'.works, S'.mem);
    assert !Finished(S.works[k]) && |S'.works| == |S.works|;
    hide Sound, FirstComeFirst, Independent, LeftOf, RunAll, PhaseOk, Owners;
    KernelKeepsQueued(S, S', k);
    hide KernelMove, Queued;
  }

  lemma KernelKeepsQueued<V>(S: State<V>, S': State<V>, k: nat)
    requires Queued(S) && k < |S.works| && !Finished(S.works[k]) && |S'.works| == |S.works|
    requires S' == S.(works := S'.works, mem := S'.mem) && LeftOf(S'.works, EffectsOf(S.calls))
    requires forall i | 0 <= i < |S.works| && i != k :: S'.works[i] == S.works[i]
    ensures Queued(S')
  {
  }

  // ---- A call completes ----

  lemma FinishKeeps<V>(program: Program<V>, m: Mem<Loc, V>, S: State<V>, S': State<V>)
    requires Inv(program, m, S) && Finish(S, S')
    ensures Inv(program, m, S')
  {
    var k: nat :| k < |S.works| == |S.completed| && CanFinish(S, k) &&
      S' == S.(completed := S.completed[k := true], log := Release(S.log, k), marks := Complete(S.marks, k));
    var t := |S.works|;
    StepKeepsSound(S.marks, Completed(k), S'.marks);
    ReleaseKeepsOrder(S.log, k);
    FinishKeepsPhase(program, S, S', k);
    FinishKeepsQueued(S, S', k);
    hide Sound, FirstComeFirst, Agrees, Queued, PhaseOk;
  }

  lemma ReleaseKeepsOrder(log: Log<nat, Key>, k: nat)
    requires FirstComeFirst(log)
    ensures FirstComeFirst(Release(log, k))
  {
  }

  lemma FinishLeavesOthers(log: Log<nat, Key>, M: Marks, k: nat, i: nat)
    requires i != k
    ensures Keeps(log, M, Release(log, k), Complete(M, k), i)
  {
  }

  lemma FinishKeepsPhase<V>(program: Program<V>, S: State<V>, S': State<V>, k: nat)
    requires PhaseOk(program, S.obs, S.log, S.marks, S.phase, |S.works|) && k < |S.works| == |S.completed|
    requires S' == S.(completed := S.completed[k := true], log := Release(S.log, k), marks := Complete(S.marks, k))
    ensures PhaseOk(program, S'.obs, S'.log, S'.marks, S'.phase, |S.works|)
  {
    var t := |S.works|;
    FinishLeavesOthers(S.log, S.marks, k, t);
    match S.phase
    case Idle =>
    case AtLocks(c, i) => LocksKept<V>(S.log, S.marks, S'.log, S'.marks, t, c.deps[..i]);
    case InQueue(c, i, h) => LocksKept<V>(S.log, S.marks, S'.log, S'.marks, t, c.deps[..i]);
    case AtOutputs(c, i) =>
      LocksKept<V>(S.log, S.marks, S'.log, S'.marks, t, c.deps);
      MarksKept(S.log, S.marks, S'.log, S'.marks, t, c.outs[..i], []);
    case AtInputs(c, i) =>
      LocksKept<V>(S.log, S.marks, S'.log, S'.marks, t, c.deps);
      MarksKept(S.log, S.marks, S'.log, S'.marks, t, c.outs, c.ins[..i]);
  }

  lemma FinishKeepsQueued<V>(S: State<V>, S': State<V>, k: nat)
    requires Queued(S) && k < |S.works| && CanFinish(S, k)
    requires S' == S.(completed := S.completed[k := true], log := Release(S.log, k), marks := Complete(S.marks, k))
    ensures Queued(S')
  {
    forall i | 0 <= i < |S.calls|
      ensures if S'.completed[i] then Finished(S'.works[i]) else Holding(S', i)
    {
      if i != k && !S.completed[i] {
        FinishLeavesOthers(S.log, S.marks, k, i);
        HoldingKept(S, S', i);
      }
    }
    hide InOrder, Declared, Holding, LeftOf;
  }

  // ---- Whole runs ----

  lemma StepKeepsInv<V>(program: Program<V>, readonly: set<nat>, m: Mem<Loc, V>, S: State<V>, S': State<V>)
    requires Inv(program, m, S) && OneStep(program, readonly, S, S') && LegalRun(program, m, readonly)
    ensures Inv(program, m, S')
  {
    hide Inv, Begin, Ask, Take, Locked, Produce, OutputsDone, Read, Queue, Access, Collect, Kernel, Finish;
    if Begin(program, S, S') { BeginKeeps(program, m, S, S'); }
    if Ask(S, S') { AskKeeps(program, m, S, S'); }
    if Take(S, S') { TakeKeeps(program, m, S, S'); }
    if Locked(S, S') { LockedKeeps(program, m, S, S'); }
    if Produce(S, S') { ProduceKeeps(program, m, S, S'); }
    if OutputsDone(S, S') { OutputsDoneKeeps(program, m, S, S'); }
    if Read(S, S') { ReadKeeps(program, m, S, S'); }
    if Queue(S, S') { QueueKeeps(program, m, readonly, S, S'); }
    if Access(program, readonly, S, S') { AccessKeeps(program, m, readonly, S, S'); }
    if Collect(program, S, S') { CollectKeeps(program, m, S, S'); }
    if Kernel(S, S') { KernelKeeps(program, m, S, S'); }
    if Finish(S, S') { FinishKeeps(program, m, S, S'); }
  }

  lemma {:induction false} RunKeepsInv<V>(program: Program<V>, readonly: set<nat>, m: Mem<Loc, V>,
                                          states: seq<State<V>>, n: nat)
    requires Run(program, readonly, m, states) && n < |states| && LegalRun(program, m, readonly)
    ensures Inv(program, m, states[n])
  {
    hide Inv, OneStep;
    if n == 0 {
      StartsInv(program, m);
    } else {
      RunKeepsInv(program, readonly, m, states, n - 1);
      StepKeepsInv(program, readonly, m, states[n - 1], states[n]);
    }
  }

  /** Blocking equivalence: whatever the interleaving, the program has seen at any
      moment exactly what the blocking program saw, and once everything queued is
      done memory is what the blocking program left. */
  lemma BlockingEquivalence<V>(program: Program<V>, readonly: set<nat>, m: Mem<Loc, V>, states: seq<State<V>>, n: nat)
    requires Run(program, readonly, m, states) && n < |states| && LegalRun(program, m, readonly)
    ensures var S, b := states[n], BlockRun(program, m, |states[n].obs|);
            S.obs == b.obs && (AllCompleted(S) ==> S.mem == b.mem)
  {
    RunKeepsInv(program, readonly, m, states, n);
    var S := states[n];
    if AllCompleted(S) {
      RunAllFinished(S.works, S.mem);
    }
  }

  predicate AllCompleted<V>(S: State<V>) {
    forall k | 0 <= k < |S.completed| :: S.completed[k]
  }

  /** Two calls conflict when one may write what the other may touch. When the
      later of two is queued the earlier has completed. */
  lemma ConflictsCompleteFirst<V>(program: Program<V>, readonly: set<nat>, m: Mem<Loc, V>, states: seq<State<V>>,
                                  n: nat, k: nat)
    requires Run(program, readonly, m, states) && n + 1 < |states| && LegalRun(program, m, readonly)
    requires Queue(states[n], states[n + 1]) && k < |states[n].calls| == |states[n].completed|
    requires !Independent(states[n].calls[k].effect, states[n].phase.call.effect)
    ensures states[n].completed[k]
  {
    RunKeepsInv(program, readonly, m, states, n);
    var S := states[n];
    var c := S.phase.call;
    assert c.ins[..S.phase.i] == c.ins;
    assert Legal(program(BlockRun(program, m, |S.obs|).obs), Calls(S.obs), readonly);
    OrderMakesExclusive(S.log);
    QueueInOrder(S, c, |S.works|);
  }

  // ---- The program is never stuck ----

  /** Until the program has stopped and every call has completed something can
      always happen: a stub or an access that waits, waits for calls the kernel
      can get on with. */
  lemma NeverStuck<V>(program: Program<V>, readonly: set<nat>, m: Mem<Loc, V>, S: State<V>) returns (S': State<V>)
    requires Inv(program, m, S) && LegalRun(program, m, readonly)
    requires !(S.phase.Idle? && program(S.obs).Stop? && AllCompleted(S))
    ensures OneStep(program, readonly, S, S')
  {
    if AllCompleted(S) {
      S' := ProgramMoves(program, readonly, m, S);
    } else {
      var k :| 0 <= k < |S.completed| && !S.completed[k];
      S' := KernelMoves(S, k);
    }
  }

  lemma KernelMoves<V>(S: State<V>, k: nat) returns (S': State<V>)
    requires k < |S.completed| == |S.works| && !S.completed[k]
    ensures Kernel(S, S') || Finish(S, S')
  {
    if Finished(S.works[k]) {
      S' := S.(completed := S.completed[k := true], log := Release(S.log, k), marks := Complete(S.marks, k));
      assert CanFinish(S, k) && Finish(S, S');
    } else if S.works[k].Fresh? {
      S' := S.(works := S.works[k := Draining(Output(S.works[k].effect, S.mem))]);
      assert KernelMove(S.works, S.mem, k, S'.works, S'.mem);
      assert Kernel(S, S');
    } else {
      var l :| l in S.works[k].todo;
      S' := S.(works := S.works[k := Draining(S.works[k].todo - {l})], mem := S.mem[l := S.works[k].todo[l]]);
      assert KernelMove(S.works, S.mem, k, S'.works, S'.mem);
      assert Kernel(S, S');
    }
  }

  lemma ProgramMoves<V>(program: Program<V>, readonly: set<nat>, m: Mem<Loc, V>, S: State<V>) returns (S': State<V>)
    requires Inv(program, m, S) && LegalRun(program, m, readonly) && AllCompleted(S)
    requires !(S.phase.Idle? && program(S.obs).Stop?)
    ensures OneStep(program, readonly, S, S')
  {
    var t := |S.works|;
    match S.phase
    case Idle => S' := IdleMoves(program, readonly, m, S);
    case AtLocks(c, i) =>
      if i == |c.deps| {
        S' := S.(phase := AtOutputs(c, 0));
        assert Locked(S, S');
      } else {
        S' := S.(log := Arrive(S.log, t, c.deps[i].key, c.deps[i].write), phase := InQueue(c, i, |S.log|));
        assert Ask(S, S');
      }
    case InQueue(c, i, h) =>
      assert MayGrant(S.log, h);
      S' := S.(log := Grant(S.log, h), phase := AtLocks(c, i + 1));
      assert Take(S, S');
    case AtOutputs(c, i) =>
      if i == |c.outs| {
        S' := S.(phase := AtInputs(c, 0));
        assert OutputsDone(S, S');
      } else {
        var M' := CanProduce(S.marks, c.outs[i], t);
        S' := S.(marks := M', phase := AtOutputs(c, i + 1));
        assert Produce(S, S');
      }
    case AtInputs(c, i) =>
      if i == |c.ins| {
        S' := S.(works := S.works + [Fresh(c.effect)], calls := S.calls + [c], completed := S.completed + [false],
                           phase := Idle, obs := S.obs + [Called]);
        assert Queue(S, S');
      } else {
        S' := S.(marks := if Owns(S.marks, c.ins[i], t) then S.marks else Add(S.marks, c.ins[i], t, false),
                          phase := AtInputs(c, i + 1));
        assert Read(S, S');
      }
  }

  lemma CanProduce(M: Marks, o: nat, t: nat) returns (M': Marks)
    requires forall s | s in M.live :: M.live[s].owner == t
    ensures MayProduce(M, o, t, []) && Produced(M, M', o, t)
  {
    if Owns(M, o, t) {
      var s :| s in M.live && M.live[s].obj == o && M.live[s].owner == t;
      M' := MakeWrite(M, s);
    } else {
      M' := Add(M, o, t, true);
    }
  }

  lemma IdleMoves<V>(program: Program<V>, readonly: set<nat>, m: Mem<Loc, V>, S: State<V>) returns (S': State<V>)
    requires Inv(program, m, S) && LegalRun(program, m, readonly) && AllCompleted(S)
    requires S.phase.Idle? && !program(S.obs).Stop?
    ensures OneStep(program, readonly, S, S')
  {
    assert forall s :: s !in S.marks.live;
    assert Legal(program(BlockRun(program, m, |S.obs|).obs), Calls(S.obs), readonly);
    match program(S.obs)
    case Do(c) =>
      S' := S.(phase := AtLocks(c, 0));
      assert Begin(program, S, S');
    case Touch(o, e) =>
      S' := S.(mem := RunEffect(e, S.mem), obs := S.obs + [Saw(Restrict(S.mem, e.inputs))]);
      assert Access(program, readonly, S, S');
    case Await(i) =>
      S' := S.(obs := S.obs + [Saw(Restrict(S.mem, {ResultOf(i)}))]);
      assert Collect(program, S, S');
    case Stop =>
  }
}
