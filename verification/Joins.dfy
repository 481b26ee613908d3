/** Groups of pending buffers: a join's snapshot of the markings its buffers had,
    and the token buffer that stays pending until all of them have ended. Groups
    may contain the tokens of other groups. */
module Joins {
  import opened Chains
  import opened MarkSet
  import opened MarkRegistry
  import opened Polling

  /** A group as its construction left it: the numbers of its own marking and of
      the ones it captured. */
  datatype Group = Group(own: nat, token: nat, captured: seq<nat>)

  datatype Snap = Snap(history: seq<Tag>, M: Marks, running: seq<bool>, joins: map<nat, seq<Tag>>,
                       groups: map<nat, Group>)

  predicate AllEnded(M: Marks, captured: seq<nat>) {
    forall i | 0 <= i < |captured| :: captured[i] !in M.live
  }

  predicate IsGroup(S: Snap, t: nat)
    requires t in S.groups && t in S.joins
  {
    var g := S.groups[t];
    t < |S.running| && g.own < |S.history| && |S.joins[t]| == |g.captured| &&
    (forall i | 0 <= i < |g.captured| :: g.captured[i] < g.own && S.history[g.captured[i]] == S.joins[t][i]) &&
    (forall s | s in S.M.live && S.M.live[s].owner == t :: s == g.own) &&
    (g.own in S.M.live ==> S.M.live[g.own] == Marking(g.token, t, true)) &&
    (!S.running[t] || g.own !in S.M.live ==> AllEnded(S.M, g.captured))
  }

  /** Every group's own marking outlives the ones it captured, all older. */
  predicate Grouped(S: Snap) {
    Sound(S.M) && |S.history| == S.M.next && S.joins.Keys == S.groups.Keys && forall t | t in S.groups :: IsGroup(S, t)
  }

  /** What any time that passes leaves in place. */
  predicate Evolves(S: Snap, S': Snap) {
    S.history <= S'.history && S.M.next <= S'.M.next &&
    |S.running| <= |S'.running| && (forall t | 0 <= t < |S.running| && S'.running[t] :: S.running[t]) &&
    (forall t | t in S.groups :: t in S'.groups && S'.groups[t] == S.groups[t]) &&
    (forall t | t in S.joins :: t in S'.joins && S'.joins[t] == S.joins[t]) &&
    (forall t | t in S'.joins && t !in S.joins :: t >= |S.running|) &&
    (forall s | s < S.M.next && s in S'.M.live ::
      s in S.M.live && S'.M.live[s].owner == S.M.live[s].owner && S'.M.live[s].obj == S.M.live[s].obj) &&
    forall s | s < S.M.next && s in S'.M.live && 0 <= S'.M.live[s].owner < |S.running| ::
      S.running[S'.M.live[s].owner] ==> S'.running[S'.M.live[s].owner]
  }

  /** Only new tasks become joins. */
  lemma NotJoinedLater(S: Snap, S': Snap, t: nat)
    requires Evolves(S, S') && t < |S.running| && t !in S.joins
    ensures t < |S'.running| && t !in S'.joins
  {
  }

  lemma EvolvesSame(S: Snap)
    ensures Evolves(S, S)
  {
  }

  lemma EvolvesThen(S: Snap, S1: Snap, S2: Snap)
    requires Evolves(S, S1) && Evolves(S1, S2)
    ensures Evolves(S, S2)
  {
  }

  /** The tasks a step marks for, or completes. */
  function TaskOf(step: Step): Owner {
    match step
    case Produce(_, t, _) => t
    case Share(_, t) => t
    case Input(_, t) => t
    case Join(_, t) => t
    case Ended(_) => NOBODY
    case Completed(t) => t
  }

  /** Calls and runtimes go about their business, and do not end the markings of
      tokens by hand. */
  ghost predicate Outside(S: Snap, step: Step) {
    TaskOf(step) !in S.groups && !step.Join? && (step.Ended? ==> forall t | t in S.groups :: S.groups[t].own != step.s)
  }

  lemma StepKeepsGroups(S: Snap, step: Step, S': Snap)
    requires Grouped(S) && Outside(S, step) && Does(S.M, step, S'.M)
    requires S.history <= S'.history && |S'.history| == S'.M.next
    requires S'.joins == S.joins && S'.groups == S.groups
    requires |S.running| <= |S'.running| && forall t | 0 <= t < |S.running| && S'.running[t] :: S.running[t]
    requires forall t | t in S.groups :: t < |S'.running| && S'.running[t] == S.running[t]
    requires forall t | 0 <= t < |S.running| && S.running[t] && !S'.running[t] :: step == Completed(t)
    ensures Grouped(S') && Evolves(S, S')
  {
    StepKeepsSound(S.M, step, S'.M);
    forall s | s < S.M.next && s in S'.M.live
      ensures s in S.M.live && S'.M.live[s].owner == S.M.live[s].owner && S'.M.live[s].obj == S.M.live[s].obj
    {
      StepKeepsMarking(S.M, step, S'.M, s);
    }
    forall t | t in S.groups
      ensures IsGroup(S', t)
    {
      StepKeepsGroup(S, step, S', t);
    }
  }

  lemma StepKeepsGroup(S: Snap, step: Step, S': Snap, t: nat)
    requires t in S.groups && t in S.joins && IsGroup(S, t) && Numbered(S.M) && |S.history| == S.M.next
    requires Outside(S, step) && Does(S.M, step, S'.M) && S.history <= S'.history
    requires S'.joins == S.joins && S'.groups == S.groups && t < |S'.running| && S'.running[t] == S.running[t]
    ensures IsGroup(S', t)
  {
    var g := S.groups[t];
    assert forall s | s in S'.M.live && S'.M.live[s].owner == t :: s in S.M.live;
    assert g.own in S.M.live ==> g.own in S'.M.live && S'.M.live[g.own] == S.M.live[g.own];
    forall i | 0 <= i < |g.captured| && g.captured[i] !in S.M.live
      ensures g.captured[i] !in S'.M.live
    {
    }
  }

  /** A group completes when everything it captured has ended. */
  lemma CompleteKeepsGroups(S: Snap, t: nat, S': Snap)
    requires Grouped(S) && t in S.groups && AllEnded(S.M, S.groups[t].captured)
    requires S' == S.(M := Complete(S.M, t), running := S.running[t := false])
    ensures Grouped(S') && Evolves(S, S')
  {
    StepKeepsSound(S.M, Completed(t), S'.M);
  }

  ghost predicate Formed(S: Snap, entries: seq<Tag>, captured: seq<nat>, token: nat, tag: Tag, S': Snap) {
    |entries| == |captured| && !Pending(S.M, token, false) &&
    (forall i | 0 <= i < |captured| :: captured[i] < |S.history| && S.history[captured[i]] == entries[i]) &&
    (forall s | s in S.M.live :: S.M.live[s].owner < |S.running|) &&
    var t := |S.running|;
    S' == Snap(S.history + [tag], Add(S.M, token, t, true), S.running + [true], S.joins[t := entries],
               S.groups[t := Group(S.M.next, token, captured)])
  }

  /** A new group, whose marking comes after everything it captured. */
  lemma NewGroup(S: Snap, entries: seq<Tag>, captured: seq<nat>, token: nat, tag: Tag, S': Snap)
    requires Grouped(S) && Formed(S, entries, captured, token, tag, S')
    ensures Grouped(S') && Evolves(S, S')
  {
    var t := |S.running|;
    JoinDoes(S.M, token, t);
    StepKeepsSound(S.M, Join(token, t), S'.M);
    FormedGroup(S, entries, captured, token, tag, S');
    FormedEvolves(S, entries, captured, token, tag, S');
    hide Sound, Pending, Does, IsGroup, Evolves, Formed;
  }

  lemma FormedGroup(S: Snap, entries: seq<Tag>, captured: seq<nat>, token: nat, tag: Tag, S': Snap)
    requires Grouped(S) && Formed(S, entries, captured, token, tag, S')
    ensures |S'.history| == S'.M.next && S'.joins.Keys == S'.groups.Keys
    ensures forall u | u in S'.groups :: IsGroup(S', u)
  {
    SoundNumbers(S.M);
    hide Sound, Pending;
    forall u | u in S'.groups
      ensures IsGroup(S', u)
    {
      if u != |S.running| {
        GroupStays(S, u, S', tag);
      }
    }
  }

  lemma FormedEvolves(S: Snap, entries: seq<Tag>, captured: seq<nat>, token: nat, tag: Tag, S': Snap)
    requires Grouped(S) && Formed(S, entries, captured, token, tag, S')
    ensures Evolves(S, S')
  {
    GroupedShape(S);
    hide Sound, Pending, IsGroup, Grouped;
  }

  lemma JoinDoes(M: Marks, token: nat, t: nat)
    requires !Pending(M, token, false)
    ensures Does(M, Join(token, t), Add(M, token, t, true))
  {
    assert forall s | s in M.live :: M.live[s].obj != token;
  }

  lemma SoundNumbers(M: Marks)
    requires Sound(M)
    ensures Numbered(M)
  {
  }

  lemma GroupStays(S: Snap, u: nat, S': Snap, tag: Tag)
    requires u in S.groups && u in S.joins && IsGroup(S, u) && |S.history| == S.M.next
    requires u in S'.groups && u in S'.joins && S'.groups[u] == S.groups[u] && S'.joins[u] == S.joins[u]
    requires S'.history == S.history + [tag] && S.running <= S'.running
    requires forall s | s in S'.M.live :: s < S.M.next ==> s in S.M.live && S'.M.live[s] == S.M.live[s]
    requires forall s | s in S.M.live :: s in S'.M.live
    requires forall s | s in S'.M.live && s >= S.M.next :: S'.M.live[s].owner != u
    ensures IsGroup(S', u)
  {
  }

  lemma BeginKeeps(S: Snap, S': Snap)
    requires Grouped(S) && S' == S.(running := S.running + [true])
    ensures Grouped(S') && Evolves(S, S')
  {
    forall u | u in S'.groups
      ensures IsGroup(S', u)
    {
      assert IsGroup(S, u);
    }
  }

  lemma GroupedShape(S: Snap)
    requires Grouped(S)
    ensures Sound(S.M) && |S.history| == S.M.next && S.joins.Keys == S.groups.Keys
    ensures forall t | t in S.groups :: t in S.joins && IsGroup(S, t) && t < |S.running|
  {
  }

  lemma CompletedDoes(M: Marks, t: Owner)
    ensures Does(M, Completed(t), Complete(M, t))
  {
  }

  /** A mark whose owner is no join is dropped: no group's own. */
  lemma EndedKeepsGroups(S: Snap, s: nat, S': Snap)
    requires Grouped(S) && s in S.M.live && S.M.live[s].owner !in S.groups
    requires S' == S.(history := S'.history, M := End(S.M, s)) && S.history <= S'.history && |S'.history| == S'.M.next
    ensures Grouped(S') && Evolves(S, S')
  {
    assert forall t | t in S.groups :: IsGroup(S, t);
    StepKeepsGroups(S, Ended(s), S');
  }

  lemma SameKeeps(S: Snap, S': Snap)
    requires Grouped(S) && S' == S.(history := S'.history) && S.history <= S'.history && |S'.history| == S'.M.next
    ensures Grouped(S') && Evolves(S, S')
  {
    assert S'.history == S.history;
  }

  // ---- Taking the snapshot ----

  predicate Hit(R: Records, m: nat, obj: Obj)
    requires Sized(R) && m < |R.buf|
  {
    R.lower[m] == obj.lower && R.write[m]
  }

  /** The write marks of an object, in the order of its bucket. */
  function Hits(R: Records, s: seq<nat>, obj: Obj): seq<nat>
    requires Sized(R) && forall i | 0 <= i < |s| :: s[i] < |R.buf|
  {
    if s == [] then [] else (if Hit(R, s[0], obj) then [s[0]] else []) + Hits(R, s[1..], obj)
  }

  lemma {:induction false} HitsAre(R: Records, s: seq<nat>, obj: Obj)
    requires Sized(R) && forall i | 0 <= i < |s| :: s[i] < |R.buf|
    ensures forall m :: m in Hits(R, s, obj) <==> m in s && Hit(R, m, obj)
  {
    if s != [] {
      HitsAre(R, s[1..], obj);
      assert s == [s[0]] + s[1..];
    }
  }

  method CountBucket(R: Records, head: Ref, ghost s: seq<nat>, obj: Obj, before: nat) returns (capacity: nat)
    requires Sized(R) && Linked(R.bucketNext, head, s) && forall i | 0 <= i < |s| :: s[i] < |R.buf|
    ensures capacity == before + |Hits(R, s, obj)|
  {
    hide Hit;
    capacity := before;
    var m := head;
    ghost var i := 0;
    while m != NULL
      invariant 0 <= i <= |s| && m == if i < |s| then s[i] else NULL
      invariant capacity + |Hits(R, s[i..], obj)| == before + |Hits(R, s, obj)|
      decreases |s| - i
    {
      assert s[i..][0] == m && s[i..][1..] == s[i + 1..];
      if Hit(R, m, obj) {
        capacity := capacity + 1;
      }
      m := R.bucketNext[m];
      i := i + 1;
    }
  }

  /** The entries are the marks met, each once, with its generation. */
  predicate Captures(R: Records, entries: seq<Tag>, met: seq<nat>) {
    |entries| <= |met| &&
    (forall i | 0 <= i < |entries| :: entries[i].mark in met && entries[i].mark < |R.generation| &&
      entries[i].generation == R.generation[entries[i].mark]) &&
    (forall m | m in met :: exists i :: 0 <= i < |entries| && entries[i].mark == m) &&
    forall i, j | 0 <= i < j < |entries| :: entries[i].mark != entries[j].mark
  }

  lemma CapturesOne(R: Records, entries: seq<Tag>, met: seq<nat>, m: nat)
    requires Captures(R, entries, met) && m < |R.generation|
    ensures (exists i :: 0 <= i < |entries| && entries[i].mark == m) ==> Captures(R, entries, met + [m])
    ensures (forall i | 0 <= i < |entries| :: entries[i].mark != m) ==>
              Captures(R, entries + [Tag(m, R.generation[m])], met + [m])
  {
    var entries' := entries + [Tag(m, R.generation[m])];
    assert entries'[|entries|].mark == m;
    forall n | n in met
      ensures exists i :: 0 <= i < |entries'| && entries'[i].mark == n
    {
      var i :| 0 <= i < |entries| && entries[i].mark == n;
      assert entries'[i].mark == n;
    }
  }

  /** Whether the snapshot already has the mark: a buffer may be given twice. */
  method Has(entries: seq<Tag>, m: nat) returns (has: bool)
    ensures has <==> exists i :: 0 <= i < |entries| && entries[i].mark == m
  {
    for j := 0 to |entries|
      invariant forall i | 0 <= i < j :: entries[i].mark != m
    {
      if entries[j].mark == m {
        return true;
      }
    }
    return false;
  }

  method CaptureBucket(R: Records, head: Ref, ghost s: seq<nat>, obj: Obj, before: seq<Tag>, ghost met: seq<nat>)
    returns (entries: seq<Tag>)
    requires Sized(R) && Linked(R.bucketNext, head, s) && forall i | 0 <= i < |s| :: s[i] < |R.buf|
    requires Captures(R, before, met)
    ensures Captures(R, entries, met + Hits(R, s, obj))
  {
    hide Hit, Captures;
    entries := before;
    var m := head;
    ghost var i := 0;
    ghost var done: seq<nat> := met;
    assert s[0..] == s;
    while m != NULL
      invariant 0 <= i <= |s| && m == if i < |s| then s[i] else NULL
      invariant Captures(R, entries, done) && done + Hits(R, s[i..], obj) == met + Hits(R, s, obj)
      decreases |s| - i
    {
      assert s[i..][0] == m && s[i..][1..] == s[i + 1..];
      if Hit(R, m, obj) {
        CapturesOne(R, entries, done, m);
        var has := Has(entries, m);
        if !has {
          entries := entries + [Tag(m, R.generation[m])];
        }
        assert done + ([m] + Hits(R, s[i + 1..], obj)) == (done + [m]) + Hits(R, s[i + 1..], obj);
        done := done + [m];
      } else {
        assert [] + Hits(R, s[i + 1..], obj) == Hits(R, s[i + 1..], obj);
      }
      m := R.bucketNext[m];
      i := i + 1;
    }
    assert Hits(R, s[i..], obj) == [] && done + [] == done;
  }

  ghost predicate Chained(R: Records, heads: seq<Ref>, lists: seq<seq<nat>>) {
    Sized(R) && |heads| == |lists| == MARK_BUCKETS &&
    forall b | 0 <= b < |lists| ::
      Linked(R.bucketNext, heads[b], lists[b]) && forall i | 0 <= i < |lists[b]| :: lists[b][i] < |R.buf|
  }

  predicate Buffers(objs: seq<Obj>, buffers: seq<Ref>) {
    forall i | 0 <= i < |buffers| :: NULL <= buffers[i] < |objs|
  }

  /** Every write mark of every buffer, buffer by buffer. */
  ghost function Met(R: Records, heads: seq<Ref>, lists: seq<seq<nat>>, objs: seq<Obj>, buffers: seq<Ref>): seq<nat>
    requires Chained(R, heads, lists) && Buffers(objs, buffers)
  {
    if buffers == [] then [] else
      Met(R, heads, lists, objs, buffers[..|buffers| - 1]) + HitsAt(R, heads, lists, objs, buffers[|buffers| - 1])
  }

  ghost function HitsAt(R: Records, heads: seq<Ref>, lists: seq<seq<nat>>, objs: seq<Obj>, o: Ref): seq<nat>
    requires Chained(R, heads, lists) && NULL <= o < |objs|
  {
    if o == NULL then [] else Hits(R, lists[BucketOf(objs[o].lower)], objs[o])
  }

  lemma MetNext(R: Records, heads: seq<Ref>, lists: seq<seq<nat>>, objs: seq<Obj>, buffers: seq<Ref>, i: nat)
    requires Chained(R, heads, lists) && Buffers(objs, buffers) && i < |buffers|
    ensures Met(R, heads, lists, objs, buffers[..i + 1]) ==
            Met(R, heads, lists, objs, buffers[..i]) + HitsAt(R, heads, lists, objs, buffers[i])
  {
    assert buffers[..i + 1][..i] == buffers[..i];
  }

  /** First the marks are counted, then captured. */
  method Capture(R: Records, heads: seq<Ref>, ghost lists: seq<seq<nat>>, objs: seq<Obj>, buffers: seq<Ref>)
    returns (capacity: nat, entries: seq<Tag>)
    requires Chained(R, heads, lists) && Buffers(objs, buffers)
    ensures capacity == |Met(R, heads, lists, objs, buffers)|
    ensures Captures(R, entries, Met(R, heads, lists, objs, buffers))
  {
    capacity, entries := 0, [];
    assert Captures(R, [], []);
    hide Captures, Hits, BucketOf;
    for i := 0 to |buffers|
      invariant capacity == |Met(R, heads, lists, objs, buffers[..i])|
    {
      MetNext(R, heads, lists, objs, buffers, i);
      if buffers[i] != NULL {
        var b := BucketOf(objs[buffers[i]].lower);
        capacity := CountBucket(R, heads[b], lists[b], objs[buffers[i]], capacity);
      }
    }
    assert buffers[..|buffers|] == buffers;
    if capacity == 0 {
      return;
    }
    for i := 0 to |buffers|
      invariant Captures(R, entries, Met(R, heads, lists, objs, buffers[..i]))
    {
      MetNext(R, heads, lists, objs, buffers, i);
      if buffers[i] != NULL {
        var b := BucketOf(objs[buffers[i]].lower);
        entries := CaptureBucket(R, heads[b], lists[b], objs[buffers[i]], entries,
                                 Met(R, heads, lists, objs, buffers[..i]));
      }
    }
  }

  /** The marks met are the write marks of the buffers. */
  lemma {:induction false} MetAre(R: Records, heads: seq<Ref>, ownHeads: seq<Ref>, V: View, objs: seq<Obj>,
                                  buffers: seq<Ref>)
    requires Apart(objs) && Described(objs, R, |ownHeads| - 1) && Filing(R, heads, ownHeads, V, -1) &&
             Buffers(objs, buffers)
    ensures Chained(R, heads, V.byBucket)
    ensures forall m :: m in Met(R, heads, V.byBucket, objs, buffers) <==>
                        0 <= m < |R.buf| && R.write[m] && R.buf[m] != NULL && R.buf[m] in buffers
  {
    FilingChained(R, heads, ownHeads, V);
    if buffers != [] {
      var last := |buffers| - 1;
      MetAre(R, heads, ownHeads, V, objs, buffers[..last]);
      assert buffers == buffers[..last] + [buffers[last]];
      if buffers[last] != NULL {
        HitsAtAre(R, heads, ownHeads, V, objs, buffers[last]);
      }
    }
    hide Filing, Hits, Apart;
  }

  lemma FilingChained(R: Records, heads: seq<Ref>, ownHeads: seq<Ref>, V: View)
    requires Filing(R, heads, ownHeads, V, -1)
    ensures Chained(R, heads, V.byBucket)
  {
  }

  lemma HitsAtAre(R: Records, heads: seq<Ref>, ownHeads: seq<Ref>, V: View, objs: seq<Obj>, o: nat)
    requires Apart(objs) && Described(objs, R, |ownHeads| - 1) && Filing(R, heads, ownHeads, V, -1) && o < |objs|
    requires Chained(R, heads, V.byBucket)
    ensures forall m :: m in HitsAt(R, heads, V.byBucket, objs, o) <==> 0 <= m < |R.buf| && R.buf[m] == o && R.write[m]
  {
    HitsAre(R, V.byBucket[BucketOf(objs[o].lower)], objs[o]);
    BucketHolds(objs, R, heads, ownHeads, V, o, Product);
    hide BucketOf, Filing, Apart, Linked, Hits;
    var s := V.byBucket[BucketOf(objs[o].lower)];
    forall m | m in s
      ensures Hit(R, m, objs[o]) <==> R.buf[m] == o && R.write[m]
    {
      var i :| 0 <= i < |s| && s[i] == m;
      assert Covers(R, s[i], objs[o], Product) <==> R.buf[s[i]] == o;
    }
  }

  /** A marking that produces one of the buffers. */
  predicate Producing(M: Marks, buffers: seq<Ref>, s: nat) {
    s in M.live && M.live[s].write && M.live[s].obj in buffers
  }

  lemma EntrySerial(R: Records, serial: seq<nat>, history: seq<Tag>, M: Marks, met: seq<nat>, buffers: seq<Ref>,
                    entries: seq<Tag>, i: nat)
    requires Represents(R, serial, history, M) && Captures(R, entries, met) && i < |entries|
    requires forall m :: m in met <==> 0 <= m < |R.buf| && R.write[m] && R.buf[m] != NULL && R.buf[m] in buffers
    ensures entries[i].mark < |serial| && serial[entries[i].mark] < |history|
    ensures history[serial[entries[i].mark]] == entries[i] && Producing(M, buffers, serial[entries[i].mark])
  {
  }

  lemma SerialEntry(R: Records, serial: seq<nat>, history: seq<Tag>, M: Marks, met: seq<nat>, buffers: seq<Ref>,
                    entries: seq<Tag>, s: nat) returns (i: nat)
    requires Represents(R, serial, history, M) && Captures(R, entries, met) && Producing(M, buffers, s)
    requires forall m :: m in met <==> 0 <= m < |R.buf| && R.write[m] && R.buf[m] != NULL && R.buf[m] in buffers
    ensures i < |entries| && entries[i].mark < |serial| && serial[entries[i].mark] == s && met != []
  {
    var m := history[s].mark;
    assert serial[m] == s;
    RepresentsLive(R, serial, history, M, m);
    assert m in met;
    i :| 0 <= i < |entries| && entries[i].mark == m;
  }

  lemma SerialsOf(objs: seq<Obj>, R: Records, tasks: int, serial: seq<nat>, history: seq<Tag>, M: Marks, met: seq<nat>,
                  buffers: seq<Ref>, entries: seq<Tag>)
    returns (captured: seq<nat>)
    requires Described(objs, R, tasks) && Represents(R, serial, history, M) && Captures(R, entries, met)
    requires forall m :: m in met <==> 0 <= m < |R.buf| && R.write[m] && R.buf[m] != NULL && R.buf[m] in buffers
    ensures |entries| == |captured|
    ensures forall i | 0 <= i < |captured| :: captured[i] < |history| && history[captured[i]] == entries[i]
    ensures forall s :: s in captured <==> Producing(M, buffers, s)
    ensures forall i, j | 0 <= i < j < |captured| :: captured[i] != captured[j]
    ensures |met| == 0 <==> forall s :: !Producing(M, buffers, s)
  {
    forall i | 0 <= i < |entries|
      ensures entries[i].mark < |serial| && serial[entries[i].mark] < |history|
      ensures history[serial[entries[i].mark]] == entries[i] && Producing(M, buffers, serial[entries[i].mark])
    {
      EntrySerial(R, serial, history, M, met, buffers, entries, i);
    }
    captured := seq(|entries|, i requires 0 <= i < |entries| => serial[entries[i].mark]);
    forall s: nat | Producing(M, buffers, s)
      ensures s in captured && met != []
    {
      var i := SerialEntry(R, serial, history, M, met, buffers, entries, s);
      assert captured[i] == s;
    }
    hide Described, Represents, Producing;
    forall i, j | 0 <= i < j < |captured|
      ensures captured[i] != captured[j]
    {
      assert history[captured[i]] == entries[i] && history[captured[j]] == entries[j];
    }
    if met != [] {
      assert met[0] in met;
      var i :| 0 <= i < |entries| && entries[i].mark == met[0];
      assert captured[i] == serial[entries[i].mark];
    }
  }

  /** A join asks others with CHECK if it is asked with CHECK, and never asks
      them to block. */
  predicate OnlyAsks(before: seq<Poll>, after: seq<Poll>, mode: Mode) {
    before <= after && forall k | |before| <= k < |after| ::
      after[k].mode != BLOCK && (mode == CHECK ==> after[k].mode == CHECK)
  }

  lemma OnlyAsksSame(polls: seq<Poll>, mode: Mode)
    ensures OnlyAsks(polls, polls, mode)
  {
  }

  lemma OnlyAsksThen(a: seq<Poll>, b: seq<Poll>, c: seq<Poll>, mode: Mode)
    requires OnlyAsks(a, b, mode) && OnlyAsks(b, c, mode)
    ensures OnlyAsks(a, c, mode)
  {
  }

  lemma OnlyAsksOne(polls: seq<Poll>, t: nat, ask: Mode, mode: Mode)
    requires ask == if mode == CHECK then CHECK else PROGRESS
    ensures OnlyAsks(polls, polls + [Poll(t, ask)], mode)
  {
  }

  /** Entry `i` of group `t` was dealt with: its producer was asked first of all, or
      the marking had ended or has no task to ask and nothing happened. */
  predicate Asked(S: Snap, S': Snap, before: seq<Poll>, after: seq<Poll>, t: nat, i: nat, mode: Mode) {
    t in S.groups && i < |S.groups[t].captured| &&
    var s := S.groups[t].captured[i];
    if s in S.M.live && S.M.live[s].owner >= 0 then
      |after| > |before| && after[|before|] == Poll(S.M.live[s].owner, if mode == CHECK then CHECK else PROGRESS)
    else
      S' == S && after == before
  }

  lemma AskedFirst(a: seq<Poll>, b: seq<Poll>, c: seq<Poll>, ask: Mode)
    requires OnlyAsks(b, c, ask) && |a| < |b|
    ensures |a| < |c| && c[|a|] == b[|a|]
  {
  }

  lemma OnlyAsksBelow(a: seq<Poll>, b: seq<Poll>, c: seq<Poll>, ask: Mode, mode: Mode)
    requires OnlyAsks(a, b, mode) && OnlyAsks(b, c, ask) && ask == if mode == CHECK then CHECK else PROGRESS
    ensures OnlyAsks(a, c, mode)
  {
  }

  /** The group is as it was, and complete only if all it captured has ended. */
  predicate StillGroup(S: Snap, S': Snap, t: nat) {
    t in S.groups && t in S.joins && t in S'.groups && t in S'.joins && S'.groups[t] == S.groups[t] &&
    S'.joins[t] == S.joins[t] &&
    t < |S'.running| && (!S'.running[t] ==> AllEnded(S'.M, S.groups[t].captured))
  }

  /** Everything group `t` waits for can be had by asking: each captured marking
      that still exists belongs to a running call whose runtime has an answer, or to
      another group of which the same holds. */
  ghost predicate AllReady(S: Snap, answered: set<nat>, t: nat)
    decreases if t in S.groups then S.groups[t].own else 0
  {
    t in S.groups &&
    forall s | s in S.groups[t].captured && s in S.M.live ::
      var u := S.M.live[s].owner;
      0 <= u < |S.running| && S.running[u] &&
      if u in S.groups then S.groups[u].own < S.groups[t].own && AllReady(S, answered, u) else u in answered
  }

  lemma {:induction false} ReadyLater(S: Snap, S': Snap, answered: set<nat>, answered': set<nat>, t: nat)
    requires AllReady(S, answered, t) && Grouped(S) && Grouped(S') && Evolves(S, S') && answered <= answered'
    ensures AllReady(S', answered', t)
    decreases S.groups[t].own
  {
    assert IsGroup(S, t) && S'.groups[t] == S.groups[t];
    forall s | s in S'.groups[t].captured && s in S'.M.live
      ensures var u := S'.M.live[s].owner;
              0 <= u < |S'.running| && S'.running[u] &&
              if u in S'.groups then S'.groups[u].own < S'.groups[t].own && AllReady(S', answered', u)
              else u in answered'
    {
      var u := S.M.live[s].owner;
      if u in S.groups {
        ReadyLater(S, S', answered, answered', u);
      }
    }
  }

  lemma ReadyEntry(S: Snap, answered: set<nat>, t: nat, i: nat)
    requires AllReady(S, answered, t) && i < |S.groups[t].captured| && S.groups[t].captured[i] in S.M.live
    ensures var u := S.M.live[S.groups[t].captured[i]].owner;
            0 <= u < |S.running| && S.running[u] &&
            if u in S.groups then AllReady(S, answered, u) else u in answered
  {
  }

  /** A call that completes ends what it owned. */
  lemma EntryEnds(S: Snap, S': Snap, s: nat, u: nat)
    requires Grouped(S) && Evolves(S, S') && s in S.M.live && S.M.live[s].owner == u < |S.running| && S.running[u]
    requires u < |S'.running| && !S'.running[u]
    ensures s !in S'.M.live
  {
  }

  /** Of the first `n` captured markings those that still exist have had their
      producer asked since `from`. */
  ghost predicate Reached(M: Marks, captured: seq<nat>, n: nat, from: nat, polls: seq<Poll>, mode: Mode) {
    n <= |captured| && from <= |polls| &&
    forall i | 0 <= i < n && captured[i] in M.live && M.live[captured[i]].owner >= 0 ::
      Poll(M.live[captured[i]].owner, if mode == CHECK then CHECK else PROGRESS) in polls[from..]
  }

  lemma ReachedLater(S: Snap, S': Snap, t: nat, n: nat, from: nat, polls: seq<Poll>, polls': seq<Poll>, mode: Mode)
    requires Grouped(S) && Evolves(S, S') && t in S.groups && polls <= polls'
    requires Reached(S.M, S.groups[t].captured, n, from, polls, mode)
    ensures Reached(S'.M, S.groups[t].captured, n, from, polls', mode)
  {
    assert IsGroup(S, t);
    assert polls'[from..] == polls[from..] + polls'[|polls|..];
  }

  lemma ReachedOne(S: Snap, S': Snap, t: nat, i: nat, from: nat, polls: seq<Poll>, polls': seq<Poll>, mode: Mode)
    requires Grouped(S) && Evolves(S, S') && t in S.groups && polls <= polls' && i < |S.groups[t].captured|
    requires Reached(S.M, S.groups[t].captured, i, from, polls, mode) && Asked(S, S', polls, polls', t, i, mode)
    ensures Reached(S'.M, S.groups[t].captured, i + 1, from, polls', mode)
  {
    assert IsGroup(S, t);
    ReachedLater(S, S', t, i, from, polls, polls', mode);
    var s := S.groups[t].captured[i];
    if s in S.M.live && S.M.live[s].owner >= 0 {
      assert polls'[from..][|polls| - from] == polls'[|polls|];
    }
  }

  predicate EndedUpTo(M: Marks, captured: seq<nat>, n: nat) {
    n <= |captured| && forall i | 0 <= i < n :: captured[i] !in M.live
  }

  lemma EndedOne(S: Snap, S': Snap, t: nat, i: nat)
    requires Grouped(S) && Evolves(S, S') && t in S.groups && i < |S.groups[t].captured|
    requires EndedUpTo(S.M, S.groups[t].captured, i) && S.groups[t].captured[i] !in S'.M.live
    ensures EndedUpTo(S'.M, S.groups[t].captured, i + 1)
  {
    assert IsGroup(S, t);
  }

  lemma EndedAll(M: Marks, captured: seq<nat>)
    requires EndedUpTo(M, captured, |captured|)
    ensures AllEnded(M, captured)
  {
  }

  lemma OnlyAsksMore(before: seq<Poll>, after: seq<Poll>, mode: Mode)
    requires OnlyAsks(before, after, mode)
    ensures before <= after
  {
  }

  class Joins {
    const marks: MarkRegistry
    /** Which tasks have not completed. */
    var running: seq<bool>
    /** The snapshots of the tasks that are joins. */
    var joins: map<nat, seq<Tag>>
    ghost var groups: map<nat, Group>
    /** The polls issued by joins on this thread. */
    ghost var polls: seq<Poll>
    /** The calls whose runtime has an answer, whether or not anyone has asked. */
    var answered: set<nat>

    ghost function Now(): Snap
      reads this, marks
    {
      Snap(marks.history, marks.M, running, joins, groups)
    }

    ghost predicate Valid()
      reads this, marks
    {
      marks.Valid() && |running| == |marks.ownHeads| - 1 && Grouped(Now())
    }

    constructor (marks: MarkRegistry)
      requires marks.Valid() && marks.M == NO_MARKS && |marks.ownHeads| == 1
      ensures Valid() && this.marks == marks && joins == map[]
    {
      this.marks := marks;
      running, joins, groups, polls, answered := [], map[], map[], [], {};
      new;
      MarksShape(marks);
    }

    /** Whether a mark can still be given without its generation overflowing. */
    predicate Room()
      reads marks
    {
      forall m | 0 <= m < |marks.records.generation| :: marks.records.generation[m] != U64_MAX
    }

    /** Other threads and the runtimes, for as long as they like: calls begin,
        mark, resolve and complete. */
    method Others()
      requires Valid()
      modifies this, marks
      ensures Valid() && Evolves(old(Now()), Now()) && polls == old(polls) && old(answered) <= answered
    {
      var steps: nat := *;
      while steps > 0
        invariant Valid() && Evolves(old(Now()), Now()) && polls == old(polls) && old(answered) <= answered
      {
        ghost var S := Now();
        Other();
        EvolvesThen(old(Now()), S, Now());
        steps := steps - 1;
      }
    }

    method Other()
      requires Valid()
      modifies this, marks
      ensures Valid() && Evolves(old(Now()), Now()) && polls == old(polls) && old(answered) <= answered
    {
      EvolvesSame(Now());
      hide *;
      var t: nat, o: nat, which: nat := *, *, *;
      if which == 0 {
        Begin();
      } else if which == 1 {
        OtherCall(t, o);
      } else if which == 2 {
        OtherPoll(t);
      } else if which == 3 {
        Answers(t);
      } else {
        OtherGroup(o);
      }
    }

    /** A runtime comes by the answer to a call. */
    method Answers(t: nat)
      requires Valid()
      modifies this`answered
      ensures Valid() && answered == old(answered) + {t} && Now() == old(Now())
    {
      hide Grouped;
      answered := answered + {t};
    }

    /** A call of another thread marks, resolves a buffer early, or completes. */
    method OtherCall(t: nat, o: nat)
      requires Valid()
      modifies this`running, marks
      ensures Valid() && Evolves(old(Now()), Now())
    {
      EvolvesSame(Now());
      assert NOBODY == -1 && NOBODY !in joins;
      hide *;
      var which: nat := *;
      if t < |running| && t !in joins && o < |marks.objs| && Room() {
        if which == 0 {
          var active: seq<nat>, program: bool := *, *;
          OtherProduces(if program then NOBODY else t, o, active);
        } else if which == 1 {
          Share(t, o);
        } else if which == 2 {
          Input(t, o);
        } else if which == 3 {
          Resolve(t, o);
        } else if which == 4 {
          Resolved(o);
        } else {
          CompleteTask(t);
        }
      }
    }

    /** A call, or the program itself, makes an object pending. */
    method OtherProduces(t: Owner, o: nat, active: seq<nat>)
      requires Valid() && NOBODY <= t < |running| && t !in joins && o < |marks.objs| && Room()
      modifies marks
      ensures Valid() && Evolves(old(Now()), Now())
    {
      hide *;
      var turn := Produce(t, o, active);
    }

    /** Another thread polls a group to its end. */
    method OtherPoll(t: nat)
      requires Valid()
      modifies this`running, marks
      ensures Valid() && Evolves(old(Now()), Now())
    {
      EvolvesSame(Now());
      SameKeys();
      hide *;
      if t in joins && t < |running| {
        var pending := AnyPending(t);
        if !pending {
          CompleteJoin(t);
        }
      }
    }

    lemma SameKeys()
      requires Valid()
      ensures forall t :: t in joins <==> t in groups
    {
    }

    /** Another thread makes a group, with an object nobody owns for its token. */
    method OtherGroup(token: nat)
      requires Valid()
      modifies this`running, this`joins, this`groups, marks
      ensures Valid() && Evolves(old(Now()), Now()) && polls == old(polls)
    {
      hide Grouped, Evolves, Apart, Described, Filing, Represents, Told, Flagged, Sound, Found;
      EvolvesSame(Now());
      var buffers: seq<Ref> := *;
      if token < |marks.objs| && Buffers(marks.objs, buffers) && Room() {
        var any := WalkToken(token);
        if any == NULL {
          var joined, fatal := WaitAll(buffers, token);
        }
      }
    }

    method WalkToken(token: nat) returns (any: Ref)
      requires Valid() && token < |marks.objs|
      ensures any == NULL <==> !Pending(marks.M, token, false)
    {
      hide Grouped, Apart, Described, Filing, Represents, Told, Flagged, Sound;
      any := marks.Walk(token, Any);
    }

    /** A runtime ends its call's marking of a buffer before the call completes. */
    method Resolve(t: nat, o: nat)
      requires Valid() && t < |running| && t !in joins && o < |marks.objs|
      modifies marks
      ensures Valid() && Evolves(old(Now()), Now())
    {
      hide Grouped, Evolves, Does, Apart, Described, Filing, Represents, Told, Flagged, Sound, Pending;
      ghost var S := Now();
      GroupedShape(S);
      marks.ResolveBuffer(t, o);
      MarksShape(marks);
      if Owns(S.M, o, t) {
        ghost var s :| s in S.M.live && S.M.live[s].obj == o && S.M.live[s].owner == t && marks.M == End(S.M, s);
        EndedKeepsGroups(S, s, Now());
      } else {
        SameKeeps(S, Now());
      }
    }

    /** A producer's marking of an object that is no token is ended by hand. */
    method Resolved(o: nat)
      requires Valid() && o < |marks.objs|
      modifies marks
      ensures Valid() && Evolves(old(Now()), Now())
    {
      hide Grouped, Evolves, Does, Apart, Described, Filing, Represents, Told, Flagged, Sound, Pending, Meets, Found;
      ghost var S := Now();
      GroupedShape(S);
      EvolvesSame(S);
      var m := marks.Walk(o, Product);
      FoundShape(marks.records, marks.M, marks.view.serial, o, Product, m);
      if m == NULL {
        return;
      }
      DescribedShape(marks.records, marks.objs, |marks.ownHeads| - 1);
      RepresentsLive(marks.records, marks.view.serial, marks.history, marks.M, m);
      if marks.records.owner[m] in joins {
        return;
      }
      ghost var s := marks.view.serial[m];
      marks.Remove(m);
      MarksShape(marks);
      EndedKeepsGroups(S, s, Now());
    }

    method Begin()
      requires Valid()
      modifies this`running, marks
      ensures Valid() && Evolves(old(Now()), Now())
    {
      hide Grouped, Evolves, Apart, Described, Filing, Represents, Told, Flagged, Sound;
      ghost var S := Now();
      var t := marks.NewTask();
      running := running + [true];
      BeginKeeps(S, Now());
    }

    /** One turn of making the call a producer of the object, or of the program
        marking it by itself. */
    method Produce(t: Owner, o: nat, active: seq<nat>) returns (turn: Turn)
      requires Valid() && NOBODY <= t < |running| && t !in joins && o < |marks.objs| && Room()
      modifies marks
      ensures Valid() && Evolves(old(Now()), Now())
      ensures turn.Done? ==> Does(old(marks.M), Step.Produce(o, t, active), marks.M)
      ensures turn.WaitFor? ==> exists s | s in marks.M.live ::
                marks.M.live[s].obj == o && marks.M.live[s].owner == turn.owner && turn.owner != t &&
                turn.owner != NOBODY && (marks.M.live[s].write || turn.owner !in active)
      ensures turn.Again? ==> |marks.M.live| < |old(marks.M).live|
      ensures !turn.Overflow?
    {
      hide Grouped, Evolves, Does, Apart, Described, Filing, Represents, Told, Flagged, Sound, Pending;
      ghost var S := Now();
      GroupedShape(S);
      turn := marks.MarkPending(t, o, active);
      assert !turn.Overflow?;
      MarksShape(marks);
      if turn.Done? {
        StepKeepsGroups(S, Step.Produce(o, t, active), Now());
      } else if turn.Again? {
        ghost var s :| s in S.M.live && S.M.live[s].owner == NOBODY && S.M.live[s].obj == o && marks.M == End(S.M, s);
        FewerLive(S.M, s);
        EndedKeepsGroups(S, s, Now());
      } else {
        SameKeeps(S, Now());
      }
    }

    lemma FewerLive(M: Marks, s: nat)
      requires s in M.live
      ensures |End(M, s).live| < |M.live|
    {
      assert M.live.Keys == (M.live - {s}).Keys + {s};
      assert |M.live.Keys| == |(M.live - {s}).Keys| + 1;
    }

    /** The whole wait: the call looks again each time an owner it waited for may
        have completed, up to `patience` times. When it has marked the object,
        nobody else owns it but active readers of the same thread; when it gives up,
        somebody else still does, or a generation is at its limit. */
    method ProduceWait(t: nat, o: nat, active: seq<nat>, patience: nat) returns (marked: bool)
      requires Valid() && t < |running| && t !in joins && o < |marks.objs|
      modifies this, marks
      ensures Valid() && Evolves(old(Now()), Now())
      ensures marked ==>
                (exists s | s in marks.M.live :: marks.M.live[s] == Marking(o, t, true)) &&
                forall s | s in marks.M.live && marks.M.live[s].obj == o ::
                  marks.M.live[s].owner == t || (!marks.M.live[s].write && marks.M.live[s].owner in active)
      ensures !marked ==>
                !Room() ||
                exists s | s in marks.M.live ::
                  marks.M.live[s].obj == o && marks.M.live[s].owner != t && marks.M.live[s].owner != NOBODY &&
                  (marks.M.live[s].write || marks.M.live[s].owner !in active)
    {
      hide Valid, Evolves, Does, Room;
      ghost var S := Now();
      EvolvesSame(S);
      var left := patience;
      while true
        invariant Valid() && Evolves(S, Now()) && t < |running| && t !in joins
        decreases left, |marks.M.live|
      {
        if !Room() {
          return false;
        }
        ghost var S1 := Now();
        var turn := Produce(t, o, active);
        EvolvesThen(S, S1, Now());
        NotJoinedLater(S1, Now(), t);
        if turn.Done? {
          ProducerAlone(S1.M, o, t, active, marks.M);
          return true;
        }
        if turn.WaitFor? {
          if left == 0 {
            return false;
          }
          left := left - 1;
          ghost var S2 := Now();
          Others();
          EvolvesThen(S, S2, Now());
          NotJoinedLater(S2, Now(), t);
        }
      }
    }

    /** The program's access to an object. Whether an active call owns it is decided
        once, at the start; what is left to wait for, each time round. */
    method AccessWait(o: nat, active: seq<nat>, patience: nat) returns (clear: bool)
      requires Valid() && o < |marks.objs|
      modifies this, marks
      ensures Valid() && Evolves(old(Now()), Now())
      ensures clear <==>
                var own := exists s | s in old(marks.M).live ::
                  old(marks.M).live[s].obj == o && old(marks.M).live[s].owner in active;
                forall s | s in marks.M.live && marks.M.live[s].obj == o && (marks.M.live[s].write || !own) ::
                  marks.M.live[s].owner == NOBODY || marks.M.live[s].owner in active
    {
      hide Evolves;
      ghost var S := Now();
      EvolvesSame(S);
      var own := marks.OwnAccess(o, active);
      hide *;
      var left := patience;
      while true
        invariant Valid() && Evolves(S, Now())
        decreases left
      {
        var owner := LookAccess(o, own, active);
        if owner == NOBODY || left == 0 {
          return owner == NOBODY;
        }
        left := left - 1;
        ghost var S1 := Now();
        Others();
        EvolvesThen(S, S1, Now());
      }
    }

    method LookAccess(o: nat, own: bool, active: seq<nat>) returns (owner: Owner)
      requires Valid() && o < |marks.objs|
      ensures owner == NOBODY <==>
                forall s | s in marks.M.live && marks.M.live[s].obj == o && (marks.M.live[s].write || !own) ::
                  marks.M.live[s].owner == NOBODY || marks.M.live[s].owner in active
    {
      hide Grouped;
      owner := marks.WaitAccess(o, own, active);
    }

    /** A runtime's wait for a buffer it will let the kernel read. */
    method BufferWait(t: Owner, body: Owner, o: nat, patience: nat) returns (ready: bool)
      requires Valid() && o < |marks.objs|
      modifies this, marks
      ensures Valid() && Evolves(old(Now()), Now())
      ensures ready <==>
                forall s | s in marks.M.live && marks.M.live[s].obj == o && marks.M.live[s].write ::
                  marks.M.live[s].owner in {NOBODY, t, body}
    {
      hide Valid, Evolves;
      ghost var S := Now();
      EvolvesSame(S);
      var left := patience;
      while true
        invariant Valid() && Evolves(S, Now())
        decreases left
      {
        var owner := LookBuffer(t, body, o);
        if owner == NOBODY || left == 0 {
          return owner == NOBODY;
        }
        left := left - 1;
        ghost var S1 := Now();
        Others();
        EvolvesThen(S, S1, Now());
      }
    }

    method LookBuffer(t: Owner, body: Owner, o: nat) returns (owner: Owner)
      requires Valid() && o < |marks.objs|
      ensures owner == NOBODY <==>
                forall s | s in marks.M.live && marks.M.live[s].obj == o && marks.M.live[s].write ::
                  marks.M.live[s].owner in {NOBODY, t, body}
    {
      hide Grouped;
      owner := marks.WaitBuffer(t, body, o);
    }

    method Share(t: nat, o: nat)
      requires Valid() && t < |running| && t !in joins && o < |marks.objs| && Room()
      modifies marks
      ensures Valid() && Evolves(old(Now()), Now())
    {
      hide Grouped, Evolves, Does, Apart, Described, Filing, Represents, Told, Flagged, Sound, Pending;
      ghost var S := Now();
      GroupedShape(S);
      var fatal := marks.MarkShared(t, o);
      MarksShape(marks);
      StepKeepsGroups(S, Step.Share(o, t), Now());
    }

    method Input(t: nat, o: nat)
      requires Valid() && t < |running| && t !in joins && o < |marks.objs| && Room()
      modifies marks
      ensures Valid() && Evolves(old(Now()), Now())
    {
      hide Grouped, Evolves, Does, Apart, Described, Filing, Represents, Told, Flagged, Sound, Pending;
      ghost var S := Now();
      GroupedShape(S);
      var fatal := marks.MarkInput(t, o);
      MarksShape(marks);
      StepKeepsGroups(S, Step.Input(o, t), Now());
    }

    /** A call that is not a join completes; the second time nothing happens. */
    method CompleteTask(t: nat)
      requires Valid() && t < |running| && t !in joins
      modifies this`running, marks
      ensures Valid() && Evolves(old(Now()), Now()) && running == old(running)[t := false]
      ensures marks.M == if old(running)[t] then Complete(old(marks.M), t) else old(marks.M)
      ensures marks.history == old(marks.history)
    {
      hide Grouped, Evolves, Does, Apart, Described, Filing, Represents, Told, Flagged, Sound, Pending, Complete;
      ghost var S := Now();
      GroupedShape(S);
      if !running[t] {
        EvolvesSame(S);
        return;
      }
      running := running[t := false];
      marks.CompleteMarks(t);
      MarksShape(marks);
      CompletedDoes(S.M, t);
      StepKeepsGroups(S, Completed(t), Now());
    }

    /** The markings behind the entries. */
    lemma SnapshotIs(buffers: seq<Ref>, entries: seq<Tag>) returns (captured: seq<nat>)
      requires Valid() && Buffers(marks.objs, buffers) && Chained(marks.records, marks.heads, marks.view.byBucket)
      requires Captures(marks.records, entries,
                        Met(marks.records, marks.heads, marks.view.byBucket, marks.objs, buffers))
      ensures |entries| == |captured|
      ensures forall i | 0 <= i < |captured| :: captured[i] < |marks.history| &&
                marks.history[captured[i]] == entries[i]
      ensures forall s :: s in captured <==> Producing(marks.M, buffers, s)
      ensures forall i, j | 0 <= i < j < |captured| :: captured[i] != captured[j]
      ensures |Met(marks.records, marks.heads, marks.view.byBucket, marks.objs, buffers)| == 0 <==>
              forall s :: !Producing(marks.M, buffers, s)
    {
      MetAre(marks.records, marks.heads, marks.ownHeads, marks.view, marks.objs, buffers);
      MarksShape(marks);
      captured := SerialsOf(marks.objs, marks.records, |marks.ownHeads| - 1, marks.view.serial, marks.history, marks.M,
                            Met(marks.records, marks.heads, marks.view.byBucket, marks.objs, buffers), buffers,
                              entries);
      hide *;
    }

    lemma TokenFree(token: nat)
      requires Valid() && !Pending(marks.M, token, false) && token < |marks.objs|
      ensures forall t :: !Owns(marks.M, token, t)
      ensures forall s | s in marks.M.live :: marks.M.live[s].owner < |running|
    {
      hide Apart, Filing, Told, Flagged, Grouped;
    }

    /** Makes a group of the buffers: a token that stays pending until every
        marking that produces one of them now has ended. */
    method WaitAll(buffers: seq<Ref>, token: nat) returns (joined: bool, fatal: bool)
      requires Valid() && Buffers(marks.objs, buffers) && token < |marks.objs|
      requires !Pending(marks.M, token, false)
      modifies this`running, this`joins, this`groups, marks
      ensures !fatal ==> Valid() && Evolves(old(Now()), Now()) && polls == old(polls)
      ensures joined <==> exists s | s in old(marks.M).live ::
                old(marks.M).live[s].write && old(marks.M).live[s].obj in buffers
      ensures !joined ==> !fatal && Now() == old(Now())
      ensures !fatal && joined ==> marks.M == Add(old(marks.M), token, |old(running)|, true)
      ensures !fatal && joined ==>
                var t := |old(running)|;
                t in groups && running == old(running) + [true] && groups[t].own == old(marks.M).next &&
                groups[t].token == token &&
                (forall s :: s in groups[t].captured <==>
                  s in old(marks.M).live && old(marks.M).live[s].write && old(marks.M).live[s].obj in buffers) &&
                forall i, j | 0 <= i < j < |groups[t].captured| :: groups[t].captured[i] != groups[t].captured[j]
      ensures fatal ==> exists m | 0 <= m < |old(marks.records).generation| ::
                old(marks.records).generation[m] == U64_MAX
    {
      hide Valid, Evolves, Grouped, Add, Pending;
      joined, fatal := GroupOf(buffers, token);
      ghost var M := old(marks.M);
      assert forall s :: Producing(M, buffers, s) <==> s in M.live && M.live[s].write && M.live[s].obj in buffers;
    }

    /** The snapshot is taken and the group made, if there is anything to wait for. */
    method GroupOf(buffers: seq<Ref>, token: nat) returns (joined: bool, fatal: bool)
      requires Valid() && Buffers(marks.objs, buffers) && token < |marks.objs|
      requires !Pending(marks.M, token, false)
      modifies this`running, this`joins, this`groups, marks
      ensures !fatal ==> Valid() && Evolves(old(Now()), Now()) && polls == old(polls)
      ensures joined <==> exists s :: Producing(old(marks.M), buffers, s)
      ensures !joined ==> !fatal && Now() == old(Now())
      ensures !fatal && joined ==> marks.M == Add(old(marks.M), token, |old(running)|, true)
      ensures !fatal && joined ==>
                var t := |old(running)|;
                t in groups && running == old(running) + [true] && groups[t].own == old(marks.M).next &&
                groups[t].token == token &&
                (forall s :: s in groups[t].captured <==> Producing(old(marks.M), buffers, s)) &&
                forall i, j | 0 <= i < j < |groups[t].captured| :: groups[t].captured[i] != groups[t].captured[j]
      ensures fatal ==> exists m | 0 <= m < |old(marks.records).generation| ::
                old(marks.records).generation[m] == U64_MAX
    {
      hide Grouped, Evolves, Apart, Described, Filing, Represents, Told, Flagged, Sound, Pending, Captures, Producing;
      EvolvesSame(Now());
      FilingChained(marks.records, marks.heads, marks.ownHeads, marks.view);
      var capacity, entries := Capture(marks.records, marks.heads, marks.view.byBucket, marks.objs, buffers);
      ghost var captured := SnapshotIs(buffers, entries);
      fatal := false;
      joined := capacity != 0;
      if !joined {
        return;
      }
      fatal := FormGroup(token, entries, captured);
    }

    /** The group's task and its own marking, published last. */
    method FormGroup(token: nat, entries: seq<Tag>, ghost captured: seq<nat>) returns (fatal: bool)
      requires Valid() && token < |marks.objs| && !Pending(marks.M, token, false) && |entries| == |captured|
      requires forall i | 0 <= i < |captured| :: captured[i] < |marks.history| &&
                 marks.history[captured[i]] == entries[i]
      modifies this`running, this`joins, this`groups, marks
      ensures !fatal ==> Valid() && Evolves(old(Now()), Now())
      ensures !fatal ==>
                running == old(running) + [true] && marks.M == Add(old(marks.M), token, |old(running)|, true) &&
                groups == old(groups)[|old(running)| := Group(old(marks.M).next, token, captured)]
      ensures fatal ==> exists m | 0 <= m < |old(marks.records).generation| ::
                old(marks.records).generation[m] == U64_MAX
    {
      hide Grouped, Evolves, Apart, Described, Filing, Represents, Told, Flagged, Sound, Pending, Owns;
      ghost var S := Now();
      GroupedShape(S);
      TokenFree(token);
      var t := marks.NewTask();
      fatal := marks.AddMark(token, t, true);
      if fatal {
        return;
      }
      MarksShape(marks);
      running, joins := running + [true], joins[t := entries];
      groups := groups[t := Group(S.M.next, token, captured)];
      assert marks.history == S.history + [marks.history[|S.history|]];
      NewGroup(S, entries, captured, token, marks.history[|S.history|], Now());
    }

    /** Asks the producers of everything the group captured to make progress, and
        completes the group once all of it has ended. When everything it waits for
        can be had by asking, this poll completes it. A blocking poll goes round
        again whenever something changed, up to `patience` times. */
    method JoinPoll(t: nat, mode: Mode, patience: nat) returns (done: bool)
      requires Valid() && t in groups && t in joins
      modifies this, marks
      ensures Valid() && Evolves(old(Now()), Now()) && OnlyAsks(old(polls), polls, mode) && old(answered) <= answered
      ensures StillGroup(old(Now()), Now(), t) && (done ==> !running[t])
      ensures AllEnded(old(marks.M), old(groups)[t].captured) ==> done
      ensures AllReady(old(Now()), old(answered), t) ==> done
      ensures t < |old(running)| && t in groups && |old(polls)| <= |polls|
      ensures old(running)[t] ==>
                forall s | s in groups[t].captured && s in marks.M.live && marks.M.live[s].owner >= 0 ::
                  Poll(marks.M.live[s].owner, if mode == CHECK then CHECK else PROGRESS) in polls[|old(polls)|..]
      decreases groups[t].own, 2
    {
      hide Grouped, Evolves, OnlyAsks, AllEnded, AllReady, Reached, Valid;
      var left := patience;
      ghost var S, answered0, polls0, captured, asked := Now(), answered, polls, groups[t].captured, false;
      NowGrouped();
      EvolvesSame(S);
      OnlyAsksSame(polls, mode);
      GroupStill(S, t);
      while running[t]
        invariant Valid() && Evolves(S, Now()) && OnlyAsks(polls0, polls, mode) && StillGroup(S, Now(), t)
        invariant answered0 <= answered && (!asked ==> Now() == S && polls == polls0)
        invariant asked ==> Reached(marks.M, captured, |captured|, |polls0|, polls, mode)
        invariant asked ==> !AllReady(S, answered0, t)
        decreases left
      {
        done := Round(S, answered0, t, mode, polls0);
        asked := true;
        if done || mode != BLOCK || left == 0 {
          ReachedAll(captured, |polls0|, mode);
          ReadyEnded(S, answered0, t);
          return;
        }
        left := left - 1;
        ghost var S1 := Now();
        NowGrouped();
        Others();
        EvolvesThen(S, S1, Now());
        ReachedLater(S1, Now(), t, |captured|, |polls0|, polls, polls, mode);
        GroupStill(S, t);
      }
      done := true;
      OnlyAsksMore(polls0, polls, mode);
      if asked {
        ReachedAll(captured, |polls0|, mode);
      }
    }

    lemma ReachedAll(captured: seq<nat>, from: nat, mode: Mode)
      requires Reached(marks.M, captured, |captured|, from, polls, mode)
      ensures from <= |polls| && forall s | s in captured && s in marks.M.live && marks.M.live[s].owner >= 0 ::
                Poll(marks.M.live[s].owner, if mode == CHECK then CHECK else PROGRESS) in polls[from..]
    {
    }

    lemma ReadyEnded(S: Snap, answered0: set<nat>, t: nat)
      requires t in S.groups
      ensures AllEnded(S.M, S.groups[t].captured) ==> AllReady(S, answered0, t)
    {
    }

    /** Every producer is asked, without waiting for any one of them; then the
        snapshot is looked at again. */
    method Round(ghost S: Snap, ghost answered0: set<nat>, t: nat, mode: Mode, ghost polls0: seq<Poll>)
      returns (done: bool)
      requires Valid() && Grouped(S) && Evolves(S, Now()) && OnlyAsks(polls0, polls, mode) && t in S.groups &&
               StillGroup(S, Now(), t) && answered0 <= answered
      modifies this, marks
      ensures Valid() && Evolves(S, Now()) && OnlyAsks(polls0, polls, mode) && StillGroup(S, Now(), t)
      ensures done ==> !running[t]
      ensures AllReady(S, answered0, t) ==> done
      ensures answered0 <= answered
      ensures Reached(marks.M, S.groups[t].captured, |S.groups[t].captured|, |polls0|, polls, mode)
      decreases groups[t].own, 1
    {
      hide Grouped, Evolves, OnlyAsks, AllEnded, AllReady, Asked, Reached, Valid;
      AskAll(S, answered0, t, mode, polls0);
      ghost var captured, S0 := S.groups[t].captured, Now();
      NowGrouped();
      var pending := AnyPending(t);
      if pending {
        return !running[t];
      }
      Others();
      EvolvesThen(S, S0, Now());
      EndedStill(S0, t);
      GroupStill(S, t);
      ghost var S2 := Now();
      CompleteJoin(t);
      EvolvesThen(S0, S2, Now());
      EvolvesThen(S, S2, Now());
      ReachedLater(S0, Now(), t, |captured|, |polls0|, polls, polls, mode);
      GroupStill(S, t);
      done := true;
    }

    /** Asks about each entry of the snapshot. */
    method AskAll(ghost S: Snap, ghost answered0: set<nat>, t: nat, mode: Mode, ghost polls0: seq<Poll>)
      requires Valid() && Grouped(S) && Evolves(S, Now()) && OnlyAsks(polls0, polls, mode) && t in S.groups &&
               StillGroup(S, Now(), t) && answered0 <= answered
      modifies this, marks
      ensures Valid() && Evolves(S, Now()) && OnlyAsks(polls0, polls, mode) && StillGroup(S, Now(), t)
      ensures AllReady(S, answered0, t) ==> AllEnded(marks.M, S.groups[t].captured)
      ensures answered0 <= answered
      ensures Reached(marks.M, S.groups[t].captured, |S.groups[t].captured|, |polls0|, polls, mode)
      decreases groups[t].own, 1, 0
    {
      hide Grouped, Evolves, OnlyAsks, AllEnded, AllReady, Asked, Reached, Valid;
      var entries := joins[t];
      ghost var captured := S.groups[t].captured;
      SnapshotSize(t);
      OnlyAsksMore(polls0, polls, mode);
      NoneReached(captured, |polls0|, mode);
      for i := 0 to |entries|
        invariant Valid() && Evolves(S, Now()) && OnlyAsks(polls0, polls, mode) && StillGroup(S, Now(), t)
        invariant answered0 <= answered && Reached(marks.M, captured, i, |polls0|, polls, mode)
        invariant AllReady(S, answered0, t) ==> EndedUpTo(marks.M, captured, i)
      {
        ghost var S1, polls1, answered1 := Now(), polls, answered;
        NowGrouped();
        AskOne(t, i, mode);
        OnlyAsksMore(polls1, polls, mode);
        ReachedOne(S1, Now(), t, i, |polls0|, polls1, polls, mode);
        if AllReady(S, answered0, t) {
          ReadyLater(S, S1, answered0, answered1, t);
          EndedOne(S1, Now(), t, i);
        }
        OnlyAsksThen(polls0, polls1, polls, mode);
        EvolvesThen(S, S1, Now());
        GroupStill(S, t);
      }
      if AllReady(S, answered0, t) {
        EndedAll(marks.M, captured);
      }
    }

    lemma NoneReached(captured: seq<nat>, from: nat, mode: Mode)
      requires from <= |polls|
      ensures Reached(marks.M, captured, 0, from, polls, mode) && EndedUpTo(marks.M, captured, 0)
    {
    }

    /** One entry of the snapshot: if its marking still exists, its producer is
        polled, with the mutex released, and completes if its runtime has an answer.
        A join can be the producer of another one's token; that one is older. */
    method AskOne(t: nat, i: nat, mode: Mode)
      requires Valid() && t in groups && t in joins && i < |joins[t]|
      modifies this, marks
      ensures Valid() && Evolves(old(Now()), Now()) && OnlyAsks(old(polls), polls, mode) && old(answered) <= answered
      ensures Asked(old(Now()), Now(), old(polls), polls, t, i, mode)
      ensures i < |old(groups)[t].captured|
      ensures AllReady(old(Now()), old(answered), t) ==> old(groups)[t].captured[i] !in marks.M.live
      decreases groups[t].own, 0
    {
      hide Grouped, Evolves, OnlyAsks, AllEnded, AllReady, Valid, StillGroup;
      ghost var S, answered0 := Now(), answered;
      EvolvesSame(S);
      OnlyAsksSame(polls, mode);
      EntryExact(t, i);
      var e := joins[t][i];
      if !EntryPending(marks.records, e) {
        return;
      }
      ghost var ready := AllReady(S, answered, t);
      if ready {
        ReadyEntry(S, answered, t, i);
      }
      var owner := marks.records.owner[e.mark];
      if owner == NOBODY {
        return;
      }
      OlderGroup(t, i, owner);
      NowGrouped();
      AskProducer(owner, mode, groups[t].own);
      if ready {
        EntryEnds(S, Now(), S.groups[t].captured[i], owner);
      }
    }

    /** Asks the runtime of a call, which is a join's own poll if the call is one. */
    method AskProducer(owner: nat, mode: Mode, ghost bound: nat)
      requires Valid() && (owner in joins ==> owner in groups && groups[owner].own < bound)
      modifies this, marks
      ensures Valid() && Evolves(old(Now()), Now()) && OnlyAsks(old(polls), polls, mode) && old(answered) <= answered
      ensures |polls| > |old(polls)| &&
              polls[|old(polls)|] == Poll(owner, if mode == CHECK then CHECK else PROGRESS)
      ensures owner < |old(running)| &&
              (if owner in old(groups) then AllReady(old(Now()), old(answered), owner) else owner in old(answered)) ==>
                owner < |running| && !running[owner]
      decreases bound, 0, 0
    {
      hide Grouped, Evolves, OnlyAsks, AllEnded, AllReady, Valid, StillGroup;
      ghost var S, polls0, answered0 := Now(), polls, answered;
      SameKeys();
      NowGrouped();
      var ask := if mode == CHECK then CHECK else PROGRESS;
      Note(owner, ask);
      OnlyAsksOne(polls0, owner, ask, mode);
      var isJoin := owner in joins;
      ghost var polls1 := polls;
      assert polls1[|polls0|] == Poll(owner, ask);
      Others();
      if isJoin {
        AskJoin(S, answered0, owner, ask);
        OnlyAsksBelow(polls0, polls1, polls, ask, mode);
        AskedFirst(polls0, polls1, polls, ask);
      } else {
        PollCall(S, owner);
      }
    }

    /** A join is asked in its turn. */
    method AskJoin(ghost S: Snap, ghost answered0: set<nat>, t: nat, ask: Mode)
      requires Valid() && Evolves(S, Now()) && Grouped(S) && t in S.groups && t in S.joins && answered0 <= answered
      modifies this, marks
      ensures Valid() && Evolves(S, Now()) && OnlyAsks(old(polls), polls, ask) && old(answered) <= answered
      ensures t < |running| && (AllReady(S, answered0, t) ==> !running[t])
      decreases S.groups[t].own, 3
    {
      hide Grouped, Evolves, OnlyAsks, AllEnded, AllReady, Valid;
      GroupStill(S, t);
      ghost var S1 := Now();
      NowGrouped();
      if AllReady(S, answered0, t) {
        ReadyLater(S, S1, answered0, answered, t);
      }
      var done := JoinPoll(t, ask, 0);
      EvolvesThen(S, S1, Now());
      GroupStill(S, t);
    }

    /** The runtime of a call that is no join is asked: it completes the call if it
        has an answer. */
    method PollCall(ghost S: Snap, t: nat)
      requires Valid() && Evolves(S, Now()) && t !in S.joins && Grouped(S)
      modifies this`running, marks
      ensures Valid() && Evolves(S, Now())
      ensures t in answered && t < |S.running| ==> t < |running| && !running[t]
    {
      hide Grouped, Valid;
      ghost var S1 := Now();
      if t in answered && t < |running| && t !in joins {
        CompleteTask(t);
        EvolvesThen(S, S1, Now());
      }
    }

    ghost method Note(t: nat, ask: Mode)
      requires Valid()
      modifies this`polls
      ensures Valid() && polls == old(polls) + [Poll(t, ask)]
    {
      hide Grouped;
      polls := polls + [Poll(t, ask)];
    }

    /** Whether anything the group captured still exists. */
    method AnyPending(t: nat) returns (pending: bool)
      requires Valid() && t in groups && t in joins
      ensures pending <==> !AllEnded(marks.M, groups[t].captured)
    {
      hide Valid;
      var entries := joins[t];
      ghost var captured := groups[t].captured;
      SnapshotSize(t);
      for i := 0 to |entries|
        invariant forall j | 0 <= j < i :: captured[j] !in marks.M.live
      {
        EntryExact(t, i);
        if EntryPending(marks.records, entries[i]) {
          return true;
        }
      }
      return false;
    }

    /** The group's task completes, unless it has already. */
    method CompleteJoin(t: nat)
      requires Valid() && t in groups && AllEnded(marks.M, groups[t].captured) && t < |running|
      modifies this`running, marks
      ensures Valid() && Evolves(old(Now()), Now()) && running == old(running)[t := false]
      ensures marks.M == if old(running)[t] then Complete(old(marks.M), t) else old(marks.M)
    {
      hide Grouped, Evolves, Apart, Described, Filing, Represents, Told, Flagged, Sound, AllEnded, Complete;
      ghost var S := Now();
      EvolvesSame(S);
      if !running[t] {
        return;
      }
      running := running[t := false];
      marks.CompleteMarks(t);
      CompleteKeepsGroups(S, t, Now());
    }

    /** What an entry reads as, and whose the marking is. */
    lemma EntryExact(t: nat, i: nat)
      requires Valid() && t in groups && t in joins && i < |joins[t]|
      ensures i < |groups[t].captured| && Sized(marks.records) && joins[t][i].mark < |marks.records.buf|
      ensures EntryPending(marks.records, joins[t][i]) <==> groups[t].captured[i] in marks.M.live
      ensures EntryPending(marks.records, joins[t][i]) ==>
                marks.M.live[groups[t].captured[i]].owner == marks.records.owner[joins[t][i].mark]
    {
      assert IsGroup(Now(), t);
      SnapshotExact(marks.records, marks.view.serial, marks.history, marks.M, groups[t].captured[i]);
      hide Told, Filing, Flagged, Sound, Grouped;
    }

    lemma SnapshotSize(t: nat)
      requires Valid() && t in groups && t in joins
      ensures |joins[t]| == |groups[t].captured|
    {
    }

    /** The producer of a captured marking is a task; if it is a join, its group
        is older. */
    lemma OlderGroup(t: nat, i: nat, owner: Owner)
      requires Valid() && t in groups && i < |groups[t].captured| && groups[t].captured[i] in marks.M.live
      requires marks.M.live[groups[t].captured[i]].owner == owner != NOBODY
      ensures owner >= 0 && (owner in joins ==> owner in groups && groups[owner].own < groups[t].own)
    {
      hide Filing, Told, Flagged, Apart;
      assert IsGroup(Now(), t);
      if owner in groups {
        assert IsGroup(Now(), owner);
      }
      assert Represents(marks.records, marks.view.serial, marks.history, marks.M);
    }

    /** A token whose own marking has ended belongs to a group all of whose captured
        markings have. */
    lemma TokenOutlives(t: nat)
      requires Valid() && t in groups && groups[t].own !in marks.M.live
      ensures forall i | 0 <= i < |groups[t].captured| :: groups[t].captured[i] !in marks.M.live
    {
      hide Apart, Described, Filing, Represents, Told, Flagged, Sound;
      assert IsGroup(Now(), t);
    }

    lemma NowGrouped()
      requires Valid()
      ensures Grouped(Now())
    {
    }

    lemma GroupStill(S: Snap, t: nat)
      requires Valid() && t in S.groups && t in S.joins && Evolves(S, Now())
      ensures StillGroup(S, Now(), t)
    {
    }

    lemma EndedStill(S: Snap, t: nat)
      requires Valid() && t in S.groups && t in S.joins && Evolves(S, Now()) && Grouped(S) &&
               AllEnded(S.M, S.groups[t].captured)
      ensures t in groups && groups[t] == S.groups[t] && AllEnded(marks.M, S.groups[t].captured)
    {
    }
  }

  lemma MarksShape(marks: MarkRegistry)
    requires marks.Valid()
    ensures |marks.history| == marks.M.next && Sound(marks.M) && |marks.ownHeads| > 0
  {
  }
}
