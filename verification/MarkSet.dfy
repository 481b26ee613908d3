/** Pending marks as a history: every marking of an object by a call gets the
    next number, and is in the set until it ends. The registry refines this
    set; who can own an object when is decided here. */
module MarkSet {

  type Owner = int

  /** A mark set by the program itself. */
  const NOBODY: Owner := -1

  /** A write mark says the owner produces the object, a read mark that it only
      reads it. */
  datatype Marking = Marking(obj: nat, owner: Owner, write: bool)

  datatype Marks = Marks(live: map<nat, Marking>, next: nat)

  predicate Numbered(M: Marks) {
    forall s | s in M.live :: s < M.next
  }

  /** A call holds at most one mark on an object, and so does the program. */
  predicate OneEach(M: Marks) {
    forall s, r | s in M.live && r in M.live && M.live[s].obj == M.live[r].obj && M.live[s].owner == M.live[r].owner ::
      s == r
  }

  /** At most one call produces an object. */
  predicate OneProducer(M: Marks) {
    forall s, r | s in M.live && r in M.live && M.live[s].obj == M.live[r].obj && M.live[s].write && M.live[r].write ::
      s == r
  }

  predicate Sound(M: Marks) {
    Numbered(M) && OneEach(M)
  }

  const NO_MARKS: Marks := Marks(map[], 0)

  lemma NoMarksSound()
    ensures Sound(NO_MARKS)
  {
  }

  /** What an access hook needs to know: somebody produces the object, or the
      program could store into it while somebody reads it. */
  predicate Pending(M: Marks, o: nat, readonly: bool) {
    exists s | s in M.live :: M.live[s].obj == o && (M.live[s].write || !readonly)
  }

  predicate Owns(M: Marks, o: nat, t: Owner) {
    exists s | s in M.live :: M.live[s].obj == o && M.live[s].owner == t
  }

  // ---- Operations ----

  function Add(M: Marks, o: nat, t: Owner, write: bool): Marks {
    Marks(M.live[M.next := Marking(o, t, write)], M.next + 1)
  }

  function MakeWrite(M: Marks, s: nat): Marks
    requires s in M.live
  {
    M.(live := M.live[s := M.live[s].(write := true)])
  }

  function End(M: Marks, s: nat): Marks {
    M.(live := M.live - {s})
  }

  /** A completed call gives up all its marks. */
  function Complete(M: Marks, t: Owner): Marks {
    M.(live := map s | s in M.live && M.live[s].owner != t :: M.live[s])
  }

  /** A mark that `t` has to wait for before producing object `o`; the program
      (no task) waits for its own as well, and no call waits for the reads of
      calls active on its thread. */
  predicate Foreign(m: Marking, o: nat, t: Owner, active: seq<nat>) {
    m.obj == o && (t == NOBODY || m.owner != t) && (m.write || m.owner !in active)
  }

  predicate MayProduce(M: Marks, o: nat, t: Owner, active: seq<nat>) {
    forall s | s in M.live :: !Foreign(M.live[s], o, t, active)
  }

  /** `t` ends up with a mark that makes it a producer: its own one upgraded, or
      a new one. */
  predicate Produced(M: Marks, M': Marks, o: nat, t: Owner) {
    if t != NOBODY && Owns(M, o, t) then
      exists s | s in M.live :: M.live[s].obj == o && M.live[s].owner == t && M' == MakeWrite(M, s)
    else
      M' == Add(M, o, t, true)
  }

  /** Nothing changed but what `t` owns on object `o`. */
  predicate SameBeside(M: Marks, M': Marks, o: nat, t: Owner) {
    (forall s | s in M.live && (M.live[s].obj != o || M.live[s].owner != t) ::
      s in M'.live && M'.live[s] == M.live[s]) &&
    forall s | s in M'.live && (M'.live[s].obj != o || M'.live[s].owner != t) :: s in M.live
  }

  lemma ProducedMarking(M: Marks, M': Marks, o: nat, t: Owner)
    requires Sound(M) && Produced(M, M', o, t)
    ensures exists s | s in M'.live :: M'.live[s] == Marking(o, t, true)
    ensures SameBeside(M, M', o, t)
  {
    if t != NOBODY && Owns(M, o, t) {
      var s :| s in M.live && M.live[s].obj == o && M.live[s].owner == t && M' == MakeWrite(M, s);
      assert M'.live[s] == Marking(o, t, true);
    } else {
      assert M'.live[M.next] == Marking(o, t, true);
    }
  }

  lemma InputMarking(M: Marks, M': Marks, o: nat, t: Owner)
    requires Sound(M) && M' == if Owns(M, o, t) then M else Add(M, o, t, false)
    ensures exists s | s in M'.live :: M'.live[s].obj == o && M'.live[s].owner == t
    ensures SameBeside(M, M', o, t)
    ensures forall s | s in M'.live && M'.live[s].write :: s in M.live && M.live[s].write
  {
    if !Owns(M, o, t) {
      assert M'.live[M.next] == Marking(o, t, false);
    }
  }

  lemma CompleteMarkings(M: Marks, t: Owner)
    ensures forall s :: s in Complete(M, t).live <==> s in M.live && M.live[s].owner != t
    ensures forall s | s in Complete(M, t).live :: Complete(M, t).live[s] == M.live[s]
  {
  }

  datatype Step =
    | Produce(o: nat, t: Owner, active: seq<nat>)
    | Share(o: nat, t: Owner)
    | Input(o: nat, t: Owner)
    | Join(o: nat, t: Owner)
    | Ended(s: nat)
    | Completed(t: Owner)

  ghost predicate Does(M: Marks, step: Step, M': Marks) {
    match step
    case Produce(o, t, active) => t >= NOBODY && MayProduce(M, o, t, active) && Produced(M, M', o, t)
    case Share(o, t) => t != NOBODY && Produced(M, M', o, t)
    case Input(o, t) => t != NOBODY && M' == if Owns(M, o, t) then M else Add(M, o, t, false)
    case Join(o, t) => t != NOBODY && (forall s | s in M.live :: M.live[s].obj != o) && M' == Add(M, o, t, true)
    case Ended(s) => M' == End(M, s)
    case Completed(t) => M' == Complete(M, t)
  }

  ghost predicate Run(states: seq<Marks>, steps: seq<Step>) {
    |states| == |steps| + 1 && states[0] == NO_MARKS &&
    forall i | 0 <= i < |steps| :: Does(states[i], steps[i], states[i + 1])
  }

  // ---- Who owns what ----

  lemma StepKeepsSound(M: Marks, step: Step, M': Marks)
    requires Sound(M) && Does(M, step, M')
    ensures Sound(M') && M'.next >= M.next
  {
  }

  /** Only runtimes that share buffers between their requests give an object two
      producers. */
  lemma StepKeepsOneProducer(M: Marks, step: Step, M': Marks)
    requires Sound(M) && OneProducer(M) && Does(M, step, M') && !step.Share?
    ensures OneProducer(M')
  {
  }

  /** In every reachable state a call has at most one mark on an object, and
      without sharing an object has at most one producer. */
  lemma {:induction false} OwnershipOverRuns(states: seq<Marks>, steps: seq<Step>, n: nat)
    requires Run(states, steps) && n < |states|
    ensures Sound(states[n])
    ensures (forall i | 0 <= i < n :: !steps[i].Share?) ==> OneProducer(states[n])
  {
    if n > 0 {
      OwnershipOverRuns(states, steps, n - 1);
      StepKeepsSound(states[n - 1], steps[n - 1], states[n]);
      if forall i | 0 <= i < n :: !steps[i].Share? {
        StepKeepsOneProducer(states[n - 1], steps[n - 1], states[n]);
      }
    }
  }

  lemma ProducedMark(M: Marks, M': Marks, o: nat, t: Owner) returns (s: nat)
    requires Produced(M, M', o, t)
    ensures s in M'.live && M'.live[s] == Marking(o, t, true)
    ensures forall r | r in M.live && r < M.next ::
              r in M'.live && (M'.live[r] == M.live[r] || M'.live[r] == M.live[r].(write := true))
    ensures forall r | r in M'.live && r != s :: r in M.live && M'.live[r] == M.live[r]
    ensures s in M.live && s < M.next ==> M.live[s] == Marking(o, t, M.live[s].write)
  {
    if t != NOBODY && Owns(M, o, t) {
      s :| s in M.live && M.live[s].obj == o && M.live[s].owner == t && M' == MakeWrite(M, s);
    } else {
      s := M.next;
    }
  }

  /** When a call has been made a producer, nobody else was on the object but
      active readers of its own thread. */
  lemma ProducerAlone(M: Marks, o: nat, t: nat, active: seq<nat>, M': Marks)
    requires Does(M, Produce(o, t, active), M')
    ensures forall s | s in M'.live && M'.live[s].obj == o ::
              M'.live[s].owner == t || (!M'.live[s].write && M'.live[s].owner in active)
    ensures exists s | s in M'.live :: M'.live[s] == Marking(o, t, true)
  {
    var r := ProducedMark(M, M', o, t);
    forall s | s in M.live && M.live[s].obj == o
      ensures M.live[s].owner == t || (!M.live[s].write && M.live[s].owner in active)
    {
      assert !Foreign(M.live[s], o, t, active);
    }
  }

  // ---- Markings end once ----

  /** A marking that has ended never comes back, and one that has not keeps its
      object, its owner, and whether it produces. */
  lemma StepKeepsMarking(M: Marks, step: Step, M': Marks, s: nat)
    requires Sound(M) && Does(M, step, M') && s < M.next
    ensures s in M'.live ==> s in M.live && M'.live[s].obj == M.live[s].obj && M'.live[s].owner == M.live[s].owner
    ensures s in M'.live && M.live[s].write ==> M'.live[s].write
  {
  }

  lemma {:induction false} EndedForGood(states: seq<Marks>, steps: seq<Step>, a: nat, b: nat, s: nat)
    requires Run(states, steps) && a <= b < |states| && s < states[a].next
    ensures s < states[b].next
    ensures s in states[b].live ==>
              s in states[a].live && states[b].live[s].obj == states[a].live[s].obj &&
              states[b].live[s].owner == states[a].live[s].owner &&
              (states[a].live[s].write ==> states[b].live[s].write)
    decreases b - a
  {
    if a < b {
      OwnershipOverRuns(states, steps, a);
      StepKeepsSound(states[a], steps[a], states[a + 1]);
      StepKeepsMarking(states[a], steps[a], states[a + 1], s);
      EndedForGood(states, steps, a + 1, b, s);
    }
  }

  // ---- Outputs win ----

  /** The step makes `t` a producer of the object. */
  predicate MakesProducer(step: Step, o: nat, t: Owner) {
    (step.Produce? || step.Share? || step.Join?) && step.o == o && step.t == t
  }

  /** An argument that makes the call a producer wins: whatever its other arguments
      and everybody else do before and afterwards, a mark the call had by then is a
      write mark for as long as it exists, and it is the call's only one. */
  lemma OutputWins(states: seq<Marks>, steps: seq<Step>, a: nat, b: nat, s: nat)
    requires Run(states, steps) && a < b < |states|
    requires s in states[b].live && s < states[a + 1].next && states[b].live[s].owner != NOBODY
    requires MakesProducer(steps[a], states[b].live[s].obj, states[b].live[s].owner)
    ensures states[b].live[s].write
    ensures forall r | r in states[b].live && states[b].live[r].obj == states[b].live[s].obj &&
                       states[b].live[r].owner == states[b].live[s].owner :: r == s
  {
    OwnershipOverRuns(states, steps, a + 1);
    OwnershipOverRuns(states, steps, b);
    assert Does(states[a], steps[a], states[a + 1]);
    if !steps[a].Join? {
      var r := ProducedMark(states[a], states[a + 1], steps[a].o, steps[a].t);
    }
    EndedForGood(states, steps, a + 1, b, s);
  }

  /** In every reachable state, a call's mark is a write mark if and only if some
      step up to then made the call a producer while it had the mark or by giving
      it. */
  lemma {:induction false} WriteMarkExact(states: seq<Marks>, steps: seq<Step>, b: nat, s: nat)
    requires Run(states, steps) && b < |states| && s in states[b].live && states[b].live[s].owner != NOBODY
    ensures var m := states[b].live[s];
            m.write <==> exists a | 0 <= a < b :: MakesProducer(steps[a], m.obj, m.owner) && s < states[a + 1].next
  {
    var m := states[b].live[s];
    forall a | 0 <= a < b && MakesProducer(steps[a], m.obj, m.owner) && s < states[a + 1].next
      ensures m.write
    {
      OutputWins(states, steps, a, b, s);
    }
    if m.write {
      assert b > 0;
      OwnershipOverRuns(states, steps, b - 1);
      OwnershipOverRuns(states, steps, b);
      var M, step := states[b - 1], steps[b - 1];
      assert Does(M, step, states[b]);
      if s in M.live && M.live[s].write {
        StepKeepsMarking(M, step, states[b], s);
        WriteMarkExact(states, steps, b - 1, s);
      } else {
        assert MakesProducer(step, m.obj, m.owner);
      }
    }
  }
}
