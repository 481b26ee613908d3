/** The protocol's phases are the calls the pass emits: every step the current call
    takes is the emitted call it stands at, and moves on to the next. */
module StubSteps {
  import opened LockLog
  import opened MarkSet
  import opened StubProtocol
  import F = FilAsync

  /** What the program passes for each argument: a key, and an object. */
  datatype Passed = Passed(key: Key, obj: nat)

  /** The declared call is the one with these arguments. */
  ghost predicate IsStub<V>(c: Call<V>, args: seq<F.Arg>, passed: seq<Passed>) {
    |passed| == |args| &&
    var locks, marks, inputs := F.LocksOf(args, 0), F.MarksOf(args, 0), F.InputsOf(args, 0);
    |c.deps| == |locks| && |c.outs| == |marks| && |c.ins| == |inputs| &&
    (forall i | 0 <= i < |locks| ::
      locks[i] in locks && c.deps[i] == Dep(passed[locks[i].arg].key, locks[i].mode == F.WRITE) &&
      passed[locks[i].arg].key.space == locks[i].space) &&
    (forall i | 0 <= i < |marks| :: marks[i] in marks && c.outs[i] == passed[marks[i].arg].obj) &&
    forall i | 0 <= i < |inputs| :: inputs[i] in inputs && c.ins[i] == passed[inputs[i].arg].obj
  }

  /** Which emitted call the phase stands at. */
  function At<V>(phase: Phase<V>): nat {
    match phase
    case Idle => 0
    case AtLocks(_, i) => 1 + i
    case InQueue(_, i, _) => 1 + i
    case AtOutputs(c, i) => 1 + |c.deps| + i
    case AtInputs(c, i) => 1 + |c.deps| + |c.outs| + i
  }

  /** The step is what the emitted call does: a lock call is the arrival of its
      request and then its grant. */
  ghost predicate Performs<V>(call: F.Call, passed: seq<Passed>, S: State<V>, S': State<V>) {
    var t := |S.works|;
    match call
    case Begin => S.phase.Idle? && S'.phase.AtLocks?
    case LockWord(a, space, mode) =>
      a < |passed| && passed[a].key.space == space && LockStep(passed[a].key, mode == F.WRITE, S, S')
    case LockPtr(a, space, mode) =>
      a < |passed| && passed[a].key.space == space && LockStep(passed[a].key, mode == F.WRITE, S, S')
    case Mark(a) =>
      a < |passed| && MayProduce(S.marks, passed[a].obj, t, []) && Produced(S.marks, S'.marks, passed[a].obj, t)
    case MarkInput(a) =>
      a < |passed| &&
      S'.marks == if Owns(S.marks, passed[a].obj, t) then S.marks else Add(S.marks, passed[a].obj, t, false)
    case Submit => |S'.works| == t + 1 && S'.phase.Idle?
  }

  ghost predicate LockStep<V>(key: Key, write: bool, S: State<V>, S': State<V>) {
    S'.log == Arrive(S.log, |S.works|, key, write) ||
    (S.phase.InQueue? && MayGrant(S.log, S.phase.h) && S'.log == Grant(S.log, S.phase.h))
  }

  /** The call a phase belongs to. */
  ghost predicate Current<V>(S: State<V>, c: Call<V>) {
    !S.phase.Idle? && S.phase.call == c
  }

  lemma StubAt(args: seq<F.Arg>)
    ensures var s, l, m, n := F.StubOf(args), F.LocksOf(args, 0), F.MarksOf(args, 0), F.InputsOf(args, 0);
            |s| == 2 + |l| + |m| + |n| && s[0] == F.Begin && s[|s| - 1] == F.Submit &&
            (forall i | 0 <= i < |l| :: s[1 + i] == l[i]) &&
            (forall i | 0 <= i < |m| :: s[1 + |l| + i] == m[i]) &&
            forall i | 0 <= i < |n| :: s[1 + |l| + |m| + i] == n[i]
  {
  }

  /** A call begins with the first emitted call. */
  lemma BeginsStub<V>(program: Program<V>, S: State<V>, S': State<V>, args: seq<F.Arg>, passed: seq<Passed>)
    requires StubProtocol.Begin(program, S, S') && IsStub(S'.phase.call, args, passed)
    ensures F.StubOf(args)[0] == F.Begin && Performs(F.Begin, passed, S, S') && At(S'.phase) == 1
  {
    StubAt(args);
  }

  /** Every step the current call takes performs the emitted call it stands at, and
      leaves it there only while it queues for a lock; nothing is skipped. */
  lemma FollowsStub<V>(program: Program<V>, readonly: set<nat>, S: State<V>, S': State<V>, c: Call<V>,
                       args: seq<F.Arg>, passed: seq<Passed>)
    requires Current(S, c) && IsStub(c, args, passed) && PhaseOk(program, S.obs, S.log, S.marks, S.phase, |S.works|)
    requires OneStep(program, readonly, S, S') && !Kernel(S, S') && !Finish(S, S')
    ensures At(S.phase) < |F.StubOf(args)|
    ensures Locked(S, S') || OutputsDone(S, S') ||
            (Performs(F.StubOf(args)[At(S.phase)], passed, S, S') && StepsTo(S, S', c, |F.StubOf(args)|))
    ensures Locked(S, S') || OutputsDone(S, S') ==> Current(S', c) && At(S'.phase) == At(S.phase)
  {
    StubAt(args);
    hide F.LocksOf, F.MarksOf, F.InputsOf, F.StubOf, Performs;
    if Ask(S, S') || Take(S, S') {
      LockFollows(S, S', c, args, passed);
    } else if StubProtocol.Produce(S, S') {
      MarkFollows(S, S', c, args, passed);
    } else if Read(S, S') {
      InputFollows(S, S', c, args, passed);
    } else if Queue(S, S') {
      SubmitFollows(S, S', c, args, passed);
    }
  }

  lemma MarkFollows<V>(S: State<V>, S': State<V>, c: Call<V>, args: seq<F.Arg>, passed: seq<Passed>)
    requires Current(S, c) && IsStub(c, args, passed) && StubProtocol.Produce(S, S')
    ensures At(S.phase) < |F.StubOf(args)| && Performs(F.StubOf(args)[At(S.phase)], passed, S, S')
  {
    StubAt(args);
    hide F.LocksOf, F.MarksOf, F.InputsOf, F.StubOf;
    assert F.StubOf(args)[At(S.phase)] == F.MarksOf(args, 0)[S.phase.i];
  }

  lemma InputFollows<V>(S: State<V>, S': State<V>, c: Call<V>, args: seq<F.Arg>, passed: seq<Passed>)
    requires Current(S, c) && IsStub(c, args, passed) && Read(S, S')
    ensures At(S.phase) < |F.StubOf(args)| && Performs(F.StubOf(args)[At(S.phase)], passed, S, S')
  {
    StubAt(args);
    hide F.LocksOf, F.MarksOf, F.InputsOf, F.StubOf;
    assert F.StubOf(args)[At(S.phase)] == F.InputsOf(args, 0)[S.phase.i];
  }

  lemma SubmitFollows<V>(S: State<V>, S': State<V>, c: Call<V>, args: seq<F.Arg>, passed: seq<Passed>)
    requires Current(S, c) && IsStub(c, args, passed) && Queue(S, S')
    ensures At(S.phase) == |F.StubOf(args)| - 1 && Performs(F.StubOf(args)[At(S.phase)], passed, S, S')
  {
    StubAt(args);
    hide F.LocksOf, F.MarksOf, F.InputsOf, F.StubOf;
  }

  /** Where a step leaves the call: still queueing, at the next emitted call, or,
      after the last one, done. */
  ghost predicate StepsTo<V>(S: State<V>, S': State<V>, c: Call<V>, length: nat) {
    if At(S.phase) == length - 1 then S'.phase.Idle?
    else Current(S', c) && At(S'.phase) == if Ask(S, S') then At(S.phase) else At(S.phase) + 1
  }

  lemma LockFollows<V>(S: State<V>, S': State<V>, c: Call<V>, args: seq<F.Arg>, passed: seq<Passed>)
    requires Current(S, c) && IsStub(c, args, passed) && (Ask(S, S') || Take(S, S'))
    requires S.phase.InQueue? ==> S.phase.i < |c.deps|
    ensures At(S.phase) < |F.StubOf(args)| && Performs(F.StubOf(args)[At(S.phase)], passed, S, S')
  {
    StubAt(args);
    assert F.StubOf(args)[At(S.phase)] == F.LocksOf(args, 0)[S.phase.i];
  }
}
