/** The stub the compiler pass emits for an annotated function: which framework
    calls it makes, and in which order. */
module FilAsync {

  datatype Kind = IGNORED | SCALAR | BUFFER_IN | BUFFER_OUT | PENDING

  datatype Mode = NONE | READ | WRITE

  /** An argument as declared: what it is to the call, and what it is a key of. */
  datatype Arg = Arg(kind: Kind, mode: Mode, space: nat, pointer: bool)

  datatype Call =
    | Begin
    | LockWord(arg: nat, space: nat, mode: Mode)
    | LockPtr(arg: nat, space: nat, mode: Mode)
    | Mark(arg: nat)
    | MarkInput(arg: nat)
    | Submit

  predicate IsOutput(a: Arg) {
    a.kind == BUFFER_OUT || a.kind == PENDING
  }

  predicate IsLock(c: Call) {
    c.LockWord? || c.LockPtr?
  }

  /** How far along the protocol a call is. */
  function Stage(c: Call): nat {
    match c
    case Begin => 0
    case LockWord(_, _, _) => 1
    case LockPtr(_, _, _) => 1
    case Mark(_) => 2
    case MarkInput(_) => 3
    case Submit => 4
  }

  /** The call that argument `i` of this kind brings at a stage. */
  predicate Due(args: seq<Arg>, c: Call) {
    match c
    case Begin => true
    case LockWord(i, space, mode) => i < |args| && args[i].mode == mode != NONE && args[i].space == space &&
      !args[i].pointer
    case LockPtr(i, space, mode) => i < |args| && args[i].mode == mode != NONE && args[i].space == space &&
      args[i].pointer
    case Mark(i) => i < |args| && IsOutput(args[i])
    case MarkInput(i) => i < |args| && args[i].kind == BUFFER_IN
    case Submit => true
  }

  /** Which argument a call is about; nothing else is at its stage before the
      first or after the last. */
  function ArgOf(c: Call): nat {
    if c.Begin? || c.Submit? then 0 else c.arg
  }

  /** Protocol order: by stage, and within a stage by argument. */
  predicate Before(a: Call, b: Call) {
    Stage(a) < Stage(b) || (Stage(a) == Stage(b) && ArgOf(a) < ArgOf(b))
  }

  predicate InOrder(calls: seq<Call>) {
    forall i, j | 0 <= i < j < |calls| :: Before(calls[i], calls[j])
  }

  function LockOf(args: seq<Arg>, i: nat): seq<Call>
    requires i < |args|
  {
    if args[i].mode == NONE then []
    else if args[i].pointer then [LockPtr(i, args[i].space, args[i].mode)]
    else [LockWord(i, args[i].space, args[i].mode)]
  }

  /** The lock calls of the arguments from `i` on. */
  function LocksOf(args: seq<Arg>, i: nat): (calls: seq<Call>)
    requires i <= |args|
    ensures forall c | c in calls :: (c.LockWord? || c.LockPtr?) && i <= c.arg < |args|
    decreases |args| - i
  {
    if i == |args| then [] else
      LockOf(args, i) + LocksOf(args, i + 1)
  }

  function MarksOf(args: seq<Arg>, i: nat): (calls: seq<Call>)
    requires i <= |args|
    ensures forall c | c in calls :: c.Mark? && i <= c.arg < |args|
    decreases |args| - i
  {
    if i == |args| then [] else (if IsOutput(args[i]) then [Mark(i)] else []) + MarksOf(args, i + 1)
  }

  function InputsOf(args: seq<Arg>, i: nat): (calls: seq<Call>)
    requires i <= |args|
    ensures forall c | c in calls :: c.MarkInput? && i <= c.arg < |args|
    decreases |args| - i
  {
    if i == |args| then [] else (if args[i].kind == BUFFER_IN then [MarkInput(i)] else []) + InputsOf(args, i + 1)
  }

  /** The whole stub. */
  function StubOf(args: seq<Arg>): seq<Call> {
    [Begin] + LocksOf(args, 0) + MarksOf(args, 0) + InputsOf(args, 0) + [Submit]
  }

  /** The calls emitted so far: exactly the ones due at earlier stages, or at this
      one for the first `n` arguments. */
  ghost predicate Emitted(args: seq<Arg>, calls: seq<Call>, stage: nat, n: nat) {
    InOrder(calls) &&
    forall c :: c in calls <==> Due(args, c) && (Stage(c) < stage || (Stage(c) == stage && ArgOf(c) < n))
  }

  /** A call due next comes last in the order. */
  lemma EmitDue(args: seq<Arg>, calls: seq<Call>, stage: nat, n: nat, c: Call)
    requires Emitted(args, calls, stage, n) && Due(args, c) && Stage(c) == stage && ArgOf(c) == n
    requires forall d | Due(args, d) && Stage(d) == stage && ArgOf(d) == n :: d == c
    ensures Emitted(args, calls + [c], stage, n + 1)
  {
  }

  lemma EmitNone(args: seq<Arg>, calls: seq<Call>, stage: nat, n: nat)
    requires Emitted(args, calls, stage, n) && forall d | Due(args, d) && Stage(d) == stage :: ArgOf(d) != n
    ensures Emitted(args, calls, stage, n + 1)
  {
  }

  lemma NextStage(args: seq<Arg>, calls: seq<Call>, stage: nat, n: nat)
    requires Emitted(args, calls, stage, n) && forall d | Due(args, d) && Stage(d) == stage :: ArgOf(d) < n
    ensures Emitted(args, calls, stage + 1, 0)
  {
  }

  lemma LocksOfNext(args: seq<Arg>, i: nat)
    requires i <= |args|
    ensures i == |args| ==> LocksOf(args, i) == []
    ensures i < |args| ==>
              forall calls: seq<Call> :: calls + LocksOf(args, i) == (calls + LockOf(args, i)) + LocksOf(args, i + 1)
  {
  }

  lemma MarksOfNext(args: seq<Arg>, i: nat)
    requires i <= |args|
    ensures i == |args| ==> MarksOf(args, i) == []
    ensures i < |args| ==>
              forall calls: seq<Call> :: calls + MarksOf(args, i) ==
                (calls + (if IsOutput(args[i]) then [Mark(i)] else [])) + MarksOf(args, i + 1)
  {
  }

  lemma InputsOfNext(args: seq<Arg>, i: nat)
    requires i <= |args|
    ensures i == |args| ==> InputsOf(args, i) == []
    ensures i < |args| ==>
              forall calls: seq<Call> :: calls + InputsOf(args, i) ==
                (calls + (if args[i].kind == BUFFER_IN then [MarkInput(i)] else [])) + InputsOf(args, i + 1)
  {
  }

  /** The locks, in argument order. */
  method EmitLocks(args: seq<Arg>, before: seq<Call>) returns (calls: seq<Call>)
    requires Emitted(args, before, 1, 0)
    ensures Emitted(args, calls, 2, 0) && calls == before + LocksOf(args, 0)
  {
    hide Emitted, LocksOf;
    calls := before;
    for i := 0 to |args|
      invariant Emitted(args, calls, 1, i) && calls + LocksOf(args, i) == before + LocksOf(args, 0)
    {
      LocksOfNext(args, i);
      if args[i].mode == NONE {
        EmitNone(args, calls, 1, i);
      } else if args[i].pointer {
        EmitDue(args, calls, 1, i, LockPtr(i, args[i].space, args[i].mode));
        calls := calls + [LockPtr(i, args[i].space, args[i].mode)];
      } else {
        EmitDue(args, calls, 1, i, LockWord(i, args[i].space, args[i].mode));
        calls := calls + [LockWord(i, args[i].space, args[i].mode)];
      }
    }
    LocksOfNext(args, |args|);
    NextStage(args, calls, 1, |args|);
  }

  /** The output marks, in argument order. */
  method EmitMarks(args: seq<Arg>, before: seq<Call>) returns (calls: seq<Call>)
    requires Emitted(args, before, 2, 0)
    ensures Emitted(args, calls, 3, 0) && calls == before + MarksOf(args, 0)
  {
    hide Emitted, MarksOf;
    calls := before;
    for i := 0 to |args|
      invariant Emitted(args, calls, 2, i) && calls + MarksOf(args, i) == before + MarksOf(args, 0)
    {
      MarksOfNext(args, i);
      if args[i].kind == BUFFER_OUT || args[i].kind == PENDING {
        EmitDue(args, calls, 2, i, Mark(i));
        calls := calls + [Mark(i)];
      } else {
        EmitNone(args, calls, 2, i);
      }
    }
    MarksOfNext(args, |args|);
    NextStage(args, calls, 2, |args|);
  }

  /** The input marks, in argument order. */
  method EmitInputs(args: seq<Arg>, before: seq<Call>) returns (calls: seq<Call>)
    requires Emitted(args, before, 3, 0)
    ensures Emitted(args, calls, 4, 0) && calls == before + InputsOf(args, 0)
  {
    hide Emitted, InputsOf;
    calls := before;
    for i := 0 to |args|
      invariant Emitted(args, calls, 3, i) && calls + InputsOf(args, i) == before + InputsOf(args, 0)
    {
      InputsOfNext(args, i);
      if args[i].kind == BUFFER_IN {
        EmitDue(args, calls, 3, i, MarkInput(i));
        calls := calls + [MarkInput(i)];
      } else {
        EmitNone(args, calls, 3, i);
      }
    }
    InputsOfNext(args, |args|);
    NextStage(args, calls, 3, |args|);
  }

  /** Begin, then the locks, then the outputs, then the inputs, then submit: every
      call that is due, once, and no other. */
  method EmitStub(args: seq<Arg>) returns (calls: seq<Call>)
    ensures InOrder(calls) && calls == StubOf(args)
    ensures forall c :: c in calls <==> Due(args, c)
    ensures forall i: nat :: Mark(i) in calls <==> i < |args| && args[i].kind in {BUFFER_OUT, PENDING}
    ensures forall i: nat :: MarkInput(i) in calls <==> i < |args| && args[i].kind == BUFFER_IN
    ensures forall i: nat, space, mode :: LockWord(i, space, mode) in calls <==>
              i < |args| && !args[i].pointer && args[i].space == space && args[i].mode == mode && mode != NONE
    ensures forall i: nat, space, mode :: LockPtr(i, space, mode) in calls <==>
              i < |args| && args[i].pointer && args[i].space == space && args[i].mode == mode && mode != NONE
    ensures forall x, y | 0 <= x < y < |calls| ::
              (calls[y].LockWord? || calls[y].LockPtr? ==> !calls[x].Mark? && !calls[x].MarkInput?) &&
              (calls[y].Mark? ==> !calls[x].MarkInput?) && !calls[x].Submit? && !calls[y].Begin?
    ensures forall x, y | 0 <= x < y < |calls| && IsLock(calls[x]) && IsLock(calls[y]) :: calls[x].arg < calls[y].arg
    ensures forall x, y | 0 <= x < y < |calls| && ((calls[x].Mark? && calls[y].Mark?) ||
                                                   (calls[x].MarkInput? && calls[y].MarkInput?)) ::
              calls[x].arg < calls[y].arg
  {
    hide Emitted, InOrder, Before, LocksOf, MarksOf, InputsOf;
    Nothing(args);
    EmitDue(args, [], 0, 0, Begin);
    calls := [] + [Begin];
    NextStage(args, calls, 0, 1);
    calls := EmitLocks(args, calls);
    calls := EmitMarks(args, calls);
    calls := EmitInputs(args, calls);
    EmitDue(args, calls, 4, 0, Submit);
    calls := calls + [Submit];
    AllEmitted(args, calls);
  }

  lemma Nothing(args: seq<Arg>)
    ensures Emitted(args, [], 0, 0)
  {
  }

  lemma AllEmitted(args: seq<Arg>, calls: seq<Call>)
    requires Emitted(args, calls, 4, 1)
    ensures InOrder(calls) && forall c :: c in calls <==> Due(args, c)
    ensures forall i: nat :: Mark(i) in calls <==> i < |args| && args[i].kind in {BUFFER_OUT, PENDING}
    ensures forall i: nat :: MarkInput(i) in calls <==> i < |args| && args[i].kind == BUFFER_IN
    ensures forall i: nat, space, mode :: LockWord(i, space, mode) in calls <==>
              i < |args| && !args[i].pointer && args[i].space == space && args[i].mode == mode && mode != NONE
    ensures forall i: nat, space, mode :: LockPtr(i, space, mode) in calls <==>
              i < |args| && args[i].pointer && args[i].space == space && args[i].mode == mode && mode != NONE
    ensures forall x, y | 0 <= x < y < |calls| ::
              (calls[y].LockWord? || calls[y].LockPtr? ==> !calls[x].Mark? && !calls[x].MarkInput?) &&
              (calls[y].Mark? ==> !calls[x].MarkInput?) && !calls[x].Submit? && !calls[y].Begin?
    ensures forall x, y | 0 <= x < y < |calls| && IsLock(calls[x]) && IsLock(calls[y]) :: calls[x].arg < calls[y].arg
    ensures forall x, y | 0 <= x < y < |calls| && ((calls[x].Mark? && calls[y].Mark?) ||
                                                   (calls[x].MarkInput? && calls[y].MarkInput?)) ::
              calls[x].arg < calls[y].arg
  {
  }

  /** The order and the calls due leave no choice: any two such stubs are the
      same. */
  lemma {:induction false} OrderDecides(a: seq<Call>, b: seq<Call>)
    requires InOrder(a) && InOrder(b) && forall c :: c in a <==> c in b
    ensures a == b
  {
    assert a != [] ==> a[0] in a;
    assert b != [] ==> b[0] in b;
    if a != [] && b != [] {
      assert a[0] == b[0];
      forall c
        ensures c in a[1..] <==> c in b[1..]
      {
        assert c in a[1..] ==> c in a && c != a[0];
        assert c in b[1..] ==> c in b && c != b[0];
      }
      OrderDecides(a[1..], b[1..]);
    }
  }
}
