/** The registry of pending marks: recycled mark records hashed by the lower
    bound of the object they cover, listed by owner, and numbered by
    generation; and the pending flag in each object's header. */
module MarkRegistry {
  import opened Bits
  import opened Chains
  import opened MarkSet

  const MARK_BUCKET_BITS: nat := 11
  const MARK_BUCKETS: nat := 2048
  const U64_MAX: nat := 0xFFFF_FFFF_FFFF_FFFF

  /** An object's bounds, and whether the program can store into it. */
  datatype Obj = Obj(lower: nat, upper: nat, readonly: bool)

  /** Objects live at the same time do not overlap. */
  predicate Apart(objs: seq<Obj>) {
    (forall o | 0 <= o < |objs| :: objs[o].lower < objs[o].upper) &&
    forall o, p | 0 <= o < |objs| && 0 <= p < |objs| && o != p ::
      objs[o].upper <= objs[p].lower || objs[p].upper <= objs[o].lower
  }

  /** The mark records, field by field. `ownerNext` links the owner's marks, or
      the free list. */
  datatype Records = Records(buf: seq<Ref>, lower: seq<nat>, upper: seq<nat>, generation: seq<nat>, owner: seq<Owner>,
                             write: seq<bool>, bucketNext: seq<Ref>, ownerNext: seq<Ref>)

  /** A marking as a snapshot keeps it: which record, and its generation. */
  datatype Tag = Tag(mark: nat, generation: nat)

  /** The lists the links form, the list each record is in, and the number of the
      last marking it stood for. */
  datatype View = View(byBucket: seq<seq<nat>>, home: seq<int>, byOwner: seq<seq<nat>>, place: seq<int>,
                       serial: seq<nat>)

  function BucketOf(lower: nat): (b: nat)
    ensures b < MARK_BUCKETS
  {
    assert Pow2(11) == 2048 by {
      assert Pow2(5) == 32 && Pow2(6) == 64;
      Pow2Add(5, 6);
    }
    HashBits(lower, MARK_BUCKET_BITS)
  }

  predicate Sized(R: Records) {
    |R.buf| == |R.lower| == |R.upper| == |R.generation| == |R.owner| == |R.write| == |R.bucketNext| == |R.ownerNext|
  }

  predicate Live(R: Records, m: int) {
    0 <= m < |R.buf| && R.buf[m] != NULL
  }

  /** What a record says about its object and owner. */
  predicate Described(objs: seq<Obj>, R: Records, tasks: int) {
    Sized(R) && forall m | 0 <= m < |R.buf| ::
      if R.buf[m] != NULL then
        0 <= R.buf[m] < |objs| && R.lower[m] == objs[R.buf[m]].lower && R.upper[m] == objs[R.buf[m]].upper &&
        NOBODY <= R.owner[m] < tasks
      else
        R.owner[m] == NOBODY && !R.write[m]
  }

  const FREE: nat := 0

  /** The list of an owner's marks; the free list comes first. */
  function ListOf(t: Owner): int {
    if t < 0 then -1 else t + 1
  }

  /** Every live mark is in the bucket of its lower bound and in its owner's list,
      every other one on the free list. `except` is a record being moved. */
  ghost predicate Homes(R: Records, home: seq<int>, place: seq<int>, except: int) {
    Sized(R) && |home| == |place| == |R.buf| &&
    forall m | 0 <= m < |R.buf| ::
      home[m] == (if R.buf[m] != NULL then BucketOf(R.lower[m]) else -1) &&
      place[m] == if m == except then -1 else if R.buf[m] != NULL then ListOf(R.owner[m]) else FREE
  }

  ghost predicate Filing(R: Records, heads: seq<Ref>, ownHeads: seq<Ref>, V: View, except: int) {
    Filed(R.bucketNext, heads, V.byBucket, V.home) && Filed(R.ownerNext, ownHeads, V.byOwner, V.place) &&
    |heads| == MARK_BUCKETS && |ownHeads| > 0 && Homes(R, V.home, V.place, except)
  }

  /** The records stand for the markings `M`, the `s`th of which was given
      `history[s]`. */
  ghost predicate Represents(R: Records, serial: seq<nat>, history: seq<Tag>, M: Marks) {
    Sized(R) && |serial| == |R.buf| && |history| == M.next &&
    (forall m {:trigger serial[m]} | 0 <= m < |R.buf| && R.buf[m] != NULL ::
      serial[m] < |history| && history[serial[m]] == Tag(m, R.generation[m]) && 0 <= R.buf[m] &&
      serial[m] in M.live && M.live[serial[m]] == Marking(R.buf[m], R.owner[m], R.write[m])) &&
    (forall s | s in M.live :: s < |history| && Live(R, history[s].mark) && serial[history[s].mark] == s) &&
    (forall m | 0 <= m < |R.buf| :: R.generation[m] <= U64_MAX)
  }

  /** No marking was ever given another one's tag. */
  ghost predicate Told(R: Records, history: seq<Tag>) {
    (forall s | 0 <= s < |history| ::
      history[s].mark < |R.generation| && history[s].generation <= R.generation[history[s].mark]) &&
    forall s, r | 0 <= s < |history| && 0 <= r < |history| && history[s] == history[r] :: s == r
  }

  ghost predicate Flagged(objs: seq<Obj>, flag: seq<bool>, M: Marks) {
    |flag| == |objs| && forall o | 0 <= o < |objs| :: flag[o] <==> Pending(M, o, objs[o].readonly)
  }

  // ---- Looking in one bucket ----

  /** What a walk along a bucket looks for. */
  datatype Want =
    | Any
    | Writer
    | Other(t: Owner, active: seq<nat>)
    | Own(t: Owner)
    | Product
    | Producer(t: Owner, body: Owner)
    | Active(active: seq<nat>)
    | Blocking(own: bool, active: seq<nat>)

  predicate Meets(m: Marking, want: Want) {
    match want
    case Any => true
    case Writer => m.write
    case Other(t, active) => (t == NOBODY || m.owner != t) && (m.write || m.owner !in active)
    case Own(t) => m.owner == t
    case Product => m.write
    case Producer(t, body) => m.write && m.owner != NOBODY && m.owner != t && m.owner != body
    case Active(active) => m.owner != NOBODY && m.owner in active
    case Blocking(own, active) => m.owner != NOBODY && m.owner !in active && (m.write || !own)
  }

  /** Some walks look for overlap with the object, some for its lower bound. */
  predicate Covers(R: Records, m: nat, obj: Obj, want: Want)
    requires Sized(R) && m < |R.buf|
  {
    if want.Own? || want.Product? then R.lower[m] == obj.lower else obj.lower < R.upper[m] && R.lower[m] < obj.upper
  }

  function MarkingOf(R: Records, m: nat): Marking
    requires Sized(R) && m < |R.buf| && R.buf[m] >= 0
  {
    Marking(R.buf[m], R.owner[m], R.write[m])
  }

  /** Comparing bounds within one bucket finds exactly the object's marks. */
  lemma BucketHolds(objs: seq<Obj>, R: Records, heads: seq<Ref>, ownHeads: seq<Ref>, V: View, o: nat, want: Want)
    requires Apart(objs) && Described(objs, R, |ownHeads| - 1) && Filing(R, heads, ownHeads, V, -1) && o < |objs|
    ensures Sized(R)
    ensures var b := BucketOf(objs[o].lower);
            b < |heads| == |V.byBucket| && Linked(R.bucketNext, heads[b], V.byBucket[b]) &&
            (forall i | 0 <= i < |V.byBucket[b]| ::
              V.byBucket[b][i] < |R.buf| && R.buf[V.byBucket[b][i]] >= 0 &&
              (Covers(R, V.byBucket[b][i], objs[o], want) <==> R.buf[V.byBucket[b][i]] == o)) &&
            (forall m | 0 <= m < |R.buf| && R.buf[m] == o :: m in V.byBucket[b])
  {
    hide BucketOf, Linked, Filed;
    FiledList(R.bucketNext, heads, V.byBucket, V.home, BucketOf(objs[o].lower));
  }

  // ---- A record is found for a new mark ----

  function Grown(R: Records): Records {
    Records(R.buf + [NULL], R.lower + [0], R.upper + [0], R.generation + [0], R.owner + [NOBODY], R.write + [false],
            R.bucketNext + [NULL], R.ownerNext + [NULL])
  }

  function GrownView(V: View): View {
    View(V.byBucket, V.home + [-1], V.byOwner, V.place + [-1], V.serial + [0])
  }

  lemma FilingGrown(R: Records, heads: seq<Ref>, ownHeads: seq<Ref>, V: View)
    requires Filing(R, heads, ownHeads, V, -1)
    ensures Filing(Grown(R), heads, ownHeads, GrownView(V), |R.buf|)
  {
  }

  lemma GrownKeeps(objs: seq<Obj>, R: Records, tasks: int, serial: seq<nat>, history: seq<Tag>, M: Marks)
    requires Described(objs, R, tasks) && Represents(R, serial, history, M) && Told(R, history)
    ensures Described(objs, Grown(R), tasks) && Represents(Grown(R), serial + [0], history, M) &&
            Told(Grown(R), history)
  {
  }

  lemma FilingPop(R: Records, heads: seq<Ref>, ownHeads: seq<Ref>, V: View) returns (x: nat)
    requires Filing(R, heads, ownHeads, V, -1) && ownHeads[FREE] != NULL
    ensures V.byOwner != [] && V.byOwner[FREE] != [] && x == ownHeads[FREE] && x < |R.ownerNext| == |R.buf| == |V.place|
    ensures Filing(R, heads, ownHeads[FREE := R.ownerNext[x]],
                   V.(byOwner := V.byOwner[FREE := Without(V.byOwner[FREE], 0)], place := V.place[x := -1]), x)
    ensures R.buf[x] == NULL && |R.generation| == |R.buf|
  {
    hide BucketOf;
    FiledList(R.ownerNext, ownHeads, V.byOwner, V.place, FREE);
    x := V.byOwner[FREE][0];
    FiledOut(R.ownerNext, ownHeads, V.byOwner, V.place, x, 0);
    hide Filed;
  }

  // ---- The record is filled in and filed ----

  function Filled(R: Records, x: nat, o: nat, obj: Obj, t: Owner, write: bool, bucketLink: Ref, ownerLink: Ref): Records
    requires Sized(R) && x < |R.buf|
  {
    Records(R.buf[x := o], R.lower[x := obj.lower], R.upper[x := obj.upper], R.generation[x := R.generation[x] + 1],
            R.owner[x := t], R.write[x := write], R.bucketNext[x := bucketLink], R.ownerNext[x := ownerLink])
  }

  lemma FilingFilled(R: Records, heads: seq<Ref>, ownHeads: seq<Ref>, V: View, x: nat, o: nat, obj: Obj, t: Owner,
                     write: bool, s: nat)
    requires Filing(R, heads, ownHeads, V, x) && x < |R.buf| && R.buf[x] == NULL && NOBODY <= t < |ownHeads| - 1
    ensures var b := BucketOf(obj.lower);
            var R' := Filled(R, x, o, obj, t, write, heads[b], if t == NOBODY then NULL else ownHeads[t + 1]);
            b < |heads| == |V.byBucket| && x < |V.home| && |V.byOwner| == |ownHeads| && x < |V.place| &&
            x < |V.serial| ==>
            Filing(R', heads[b := x], if t == NOBODY then ownHeads else ownHeads[t + 1 := x],
                   View(V.byBucket[b := [x] + V.byBucket[b]], V.home[x := b],
                        if t == NOBODY then V.byOwner else V.byOwner[t + 1 := [x] + V.byOwner[t + 1]],
                        V.place[x := ListOf(t)], V.serial[x := s]), -1)
  {
    var b := BucketOf(obj.lower);
    var ownerLink := if t == NOBODY then NULL else ownHeads[t + 1];
    if |heads| == |V.byBucket| && |V.byOwner| == |ownHeads| && x < |V.serial| && x < |V.home| && x < |V.place| {
      HomesFilled(R, V, x, o, obj, t, write, s, heads[b], ownerLink);
      BucketFilled(R, heads, V, x, b);
      OwnerFilled(R, ownHeads, V, x, t);
    }
    hide *;
  }

  lemma BucketFilled(R: Records, heads: seq<Ref>, V: View, x: nat, b: nat)
    requires Filed(R.bucketNext, heads, V.byBucket, V.home) && x < |V.home| && V.home[x] < 0 &&
             b < |heads| == |V.byBucket|
    ensures x < |R.bucketNext| &&
            Filed(R.bucketNext[x := heads[b]], heads[b := x], V.byBucket[b := [x] + V.byBucket[b]], V.home[x := b])
  {
    hide Filed;
    UnfiledNowhere(R.bucketNext, heads, V.byBucket, V.home, x);
    FiledIn(R.bucketNext, heads, V.byBucket, V.home, x, b);
  }

  lemma OwnerFilled(R: Records, ownHeads: seq<Ref>, V: View, x: nat, t: Owner)
    requires Filed(R.ownerNext, ownHeads, V.byOwner, V.place) && x < |V.place| && V.place[x] == -1
    requires NOBODY <= t < |ownHeads| - 1 && |V.byOwner| == |ownHeads|
    ensures x < |R.ownerNext| &&
            Filed(R.ownerNext[x := if t == NOBODY then NULL else ownHeads[t + 1]],
                  if t == NOBODY then ownHeads else ownHeads[t + 1 := x],
                  if t == NOBODY then V.byOwner else V.byOwner[t + 1 := [x] + V.byOwner[t + 1]],
                    V.place[x := ListOf(t)])
  {
    hide Filed;
    UnfiledNowhere(R.ownerNext, ownHeads, V.byOwner, V.place, x);
    if t == NOBODY {
      FiledIgnore(R.ownerNext, ownHeads, V.byOwner, V.place, x, NULL);
      assert V.place[x := -1] == V.place;
    } else {
      FiledIn(R.ownerNext, ownHeads, V.byOwner, V.place, x, t + 1);
    }
  }

  lemma HomesFilled(R: Records, V: View, x: nat, o: nat, obj: Obj, t: Owner, write: bool, s: nat, bucketLink: Ref,
                    ownerLink: Ref)
    requires Homes(R, V.home, V.place, x) && x < |R.buf| && x < |V.serial|
    ensures Homes(Filled(R, x, o, obj, t, write, bucketLink, ownerLink),
                  V.home[x := BucketOf(obj.lower)], V.place[x := ListOf(t)], -1)
  {
  }

  lemma FilledKeeps(objs: seq<Obj>, R: Records, tasks: int, serial: seq<nat>, history: seq<Tag>, M: Marks,
                    x: nat, o: nat, t: Owner, write: bool, bucketLink: Ref, ownerLink: Ref)
    requires Described(objs, R, tasks) && Represents(R, serial, history, M) && Told(R, history)
    requires x < |R.buf| && R.buf[x] == NULL && R.generation[x] < U64_MAX && o < |objs| && NOBODY <= t < tasks
    ensures var R' := Filled(R, x, o, objs[o], t, write, bucketLink, ownerLink);
            var history' := history + [Tag(x, R.generation[x] + 1)];
            x < |serial| && Described(objs, R', tasks) &&
            Represents(R', serial[x := M.next], history', Add(M, o, t, write)) && Told(R', history')
  {
    assert Sized(R) && x < |serial|;
    FilledDescribed(objs, R, tasks, x, o, t, write, bucketLink, ownerLink);
    FilledRepresents(objs, R, serial, history, M, x, o, t, write, bucketLink, ownerLink);
    FilledTold(objs, R, history, x, o, t, write, bucketLink, ownerLink);
    hide *;
  }

  lemma FilledDescribed(objs: seq<Obj>, R: Records, tasks: int, x: nat, o: nat, t: Owner, write: bool, bucketLink: Ref,
                        ownerLink: Ref)
    requires Described(objs, R, tasks) && x < |R.buf| && o < |objs| && NOBODY <= t < tasks
    ensures Described(objs, Filled(R, x, o, objs[o], t, write, bucketLink, ownerLink), tasks)
  {
  }

  lemma FilledRepresents(objs: seq<Obj>, R: Records, serial: seq<nat>, history: seq<Tag>, M: Marks, x: nat, o: nat,
                         t: Owner, write: bool, bucketLink: Ref, ownerLink: Ref)
    requires Represents(R, serial, history, M) && x < |R.buf| && R.buf[x] == NULL && R.generation[x] < U64_MAX
    requires o < |objs|
    ensures x < |serial| &&
            Represents(Filled(R, x, o, objs[o], t, write, bucketLink, ownerLink), serial[x := M.next],
                       history + [Tag(x, R.generation[x] + 1)], Add(M, o, t, write))
  {
    var R' := Filled(R, x, o, objs[o], t, write, bucketLink, ownerLink);
    var history' := history + [Tag(x, R.generation[x] + 1)];
    var M', serial' := Add(M, o, t, write), serial[x := M.next];
    forall s | s in M'.live
      ensures s < |history'| && Live(R', history'[s].mark) && serial'[history'[s].mark] == s
    {
      if s in M.live {
        assert history'[s] == history[s] && history[s].mark != x;
      }
    }
  }

  lemma FilledTold(objs: seq<Obj>, R: Records, history: seq<Tag>, x: nat, o: nat, t: Owner, write: bool,
                   bucketLink: Ref, ownerLink: Ref)
    requires Sized(R) && Told(R, history) && x < |R.buf| && o < |objs|
    ensures Told(Filled(R, x, o, objs[o], t, write, bucketLink, ownerLink),
                 history + [Tag(x, R.generation[x] + 1)])
  {
  }

  // ---- A record is given back ----

  function Cleared(R: Records, x: nat, bucketNext: seq<Ref>, ownerNext: seq<Ref>): Records
    requires Sized(R) && x < |R.buf|
  {
    R.(buf := R.buf[x := NULL], owner := R.owner[x := NOBODY], write := R.write[x := false],
       bucketNext := bucketNext, ownerNext := ownerNext)
  }

  lemma ClearedKeeps(objs: seq<Obj>, R: Records, tasks: int, serial: seq<nat>, history: seq<Tag>, M: Marks,
                     x: nat, bucketNext: seq<Ref>, ownerNext: seq<Ref>)
    requires Described(objs, R, tasks) && Represents(R, serial, history, M) && Told(R, history)
    requires x < |R.buf| && R.buf[x] != NULL && |bucketNext| == |ownerNext| == |R.buf|
    ensures var R' := Cleared(R, x, bucketNext, ownerNext);
            x < |serial| && Described(objs, R', tasks) && Represents(R', serial, history, End(M, serial[x])) &&
            Told(R', history)
  {
    var R', M' := Cleared(R, x, bucketNext, ownerNext), End(M, serial[x]);
    forall m {:trigger serial[m]} | 0 <= m < |R'.buf| && R'.buf[m] != NULL
      ensures serial[m] in M'.live
    {
      assert history[serial[m]] == Tag(m, R.generation[m]);
    }
  }

  /** Out of the bucket it is in at `i`, and out of its owner's list, where it is
      at `k`, into the free list. */
  lemma FilingCleared(R: Records, heads: seq<Ref>, ownHeads: seq<Ref>, V: View, x: nat, i: nat, k: nat)
    requires Filing(R, heads, ownHeads, V, -1) && x < |R.buf| && R.buf[x] != NULL && |heads| == |V.byBucket| &&
             |ownHeads| == |V.byOwner|
    requires 0 <= V.home[x] < |V.byBucket| && i < |V.byBucket[V.home[x]]| && V.byBucket[V.home[x]][i] == x
    requires V.place[x] >= 0 ==>
               V.place[x] < |V.byOwner| && k < |V.byOwner[V.place[x]]| && V.byOwner[V.place[x]][k] == x
    requires forall j | 0 <= j < |V.byBucket[V.home[x]]| :: V.byBucket[V.home[x]][j] < |R.bucketNext|
    requires V.place[x] >= 0 ==> forall j | 0 <= j < |V.byOwner[V.place[x]]| :: V.byOwner[V.place[x]][j] < |R.ownerNext|
    ensures var b, p := V.home[x], V.place[x];
            var ownNext1 := if p < 0 then R.ownerNext else RemoveNext(R.ownerNext, V.byOwner[p], k);
            var ownHeads1 := if p < 0 || k > 0 then ownHeads else ownHeads[p := R.ownerNext[x]];
            var byOwner1 := if p < 0 then V.byOwner else V.byOwner[p := Without(V.byOwner[p], k)];
            Filing(Cleared(R, x, RemoveNext(R.bucketNext, V.byBucket[b], i), ownNext1[x := ownHeads1[FREE]]),
                   if i > 0 then heads else heads[b := R.bucketNext[x]], ownHeads1[FREE := x],
                   View(V.byBucket[b := Without(V.byBucket[b], i)], V.home[x := -1],
                        byOwner1[FREE := [x] + byOwner1[FREE]], V.place[x := FREE], V.serial), -1)
  {
    var b, p := V.home[x], V.place[x];
    var ownNext1 := if p < 0 then R.ownerNext else RemoveNext(R.ownerNext, V.byOwner[p], k);
    var ownHeads1 := if p < 0 || k > 0 then ownHeads else ownHeads[p := R.ownerNext[x]];
    BucketCleared(R.bucketNext, heads, V.byBucket, V.home, x, i);
    OwnerCleared(R.ownerNext, ownHeads, V.byOwner, V.place, x, k);
    HomesCleared(R, V.home, V.place, x, RemoveNext(R.bucketNext, V.byBucket[b], i), ownNext1[x := ownHeads1[FREE]]);
    hide *;
  }

  lemma BucketCleared(next: seq<Ref>, heads: seq<Ref>, lists: seq<seq<nat>>, home: seq<int>, x: nat, i: nat)
    requires Filed(next, heads, lists, home) && x < |home| && 0 <= home[x] < |lists| == |heads|
    requires i < |lists[home[x]]| && lists[home[x]][i] == x
    ensures |next| == |home| && forall j | 0 <= j < |lists[home[x]]| :: lists[home[x]][j] < |next|
    ensures Filed(RemoveNext(next, lists[home[x]], i), if i > 0 then heads else heads[home[x] := next[x]],
                  lists[home[x] := Without(lists[home[x]], i)], home[x := -1])
  {
    hide Filed;
    FiledOut(next, heads, lists, home, x, i);
    assert heads[home[x] := heads[home[x]]] == heads;
  }

  lemma OwnerCleared(next: seq<Ref>, heads: seq<Ref>, lists: seq<seq<nat>>, place: seq<int>, x: nat, k: nat)
    requires Filed(next, heads, lists, place) && x < |place| && place[x] >= -1 && |lists| == |heads| > 0
    requires place[x] >= 0 ==> place[x] < |lists| && k < |lists[place[x]]| && lists[place[x]][k] == x
    ensures |next| == |place| && (place[x] >= 0 ==>
                                  forall j | 0 <= j < |lists[place[x]]| :: lists[place[x]][j] < |next|)
    ensures var p := place[x];
            var next1 := if p < 0 then next else RemoveNext(next, lists[p], k);
            var heads1 := if p < 0 || k > 0 then heads else heads[p := next[x]];
            var lists1 := if p < 0 then lists else lists[p := Without(lists[p], k)];
            Filed(next1[x := heads1[FREE]], heads1[FREE := x], lists1[FREE := [x] + lists1[FREE]], place[x := FREE])
  {
    hide Filed;
    var p := place[x];
    if p >= 0 {
      BucketCleared(next, heads, lists, place, x, k);
      FiledIn(RemoveNext(next, lists[p], k), if k > 0 then heads else heads[p := next[x]],
              lists[p := Without(lists[p], k)], place[x := -1], x, FREE);
      assert place[x := -1][x := FREE] == place[x := FREE];
    } else {
      FiledIn(next, heads, lists, place, x, FREE);
    }
  }

  lemma HomesCleared(R: Records, home: seq<int>, place: seq<int>, x: nat, bucketNext: seq<Ref>, ownerNext: seq<Ref>)
    requires Homes(R, home, place, -1) && x < |R.buf| && |bucketNext| == |ownerNext| == |R.buf|
    ensures Homes(Cleared(R, x, bucketNext, ownerNext), home[x := -1], place[x := FREE], -1)
    ensures R.buf[x] != NULL ==> place[x] >= -1
  {
  }

  // ---- The flag ----

  datatype Pend = PENDING_CLEAR | PENDING_SET | PENDING_READERS

  /** How the header of a read-only object is left alone. */
  function SetPending(flag: seq<bool>, objs: seq<Obj>, o: nat, pend: Pend): seq<bool>
    requires o < |flag| == |objs|
  {
    flag[o := pend.PENDING_SET? || (pend.PENDING_READERS? && !objs[o].readonly)]
  }

  predicate Marked(M: Marks, o: nat, writer: bool) {
    exists s | s in M.live :: M.live[s].obj == o && (writer ==> M.live[s].write)
  }

  lemma FlaggedAdd(objs: seq<Obj>, flag: seq<bool>, M: Marks, o: nat, t: Owner, write: bool, raise: bool)
    requires Flagged(objs, flag, M) && Sound(M) && o < |objs| && raise == !Marked(M, o, write)
    ensures var change := if write then PENDING_SET else PENDING_READERS;
            Flagged(objs, if raise then SetPending(flag, objs, o, change) else flag, Add(M, o, t, write))
  {
    var M' := Add(M, o, t, write);
    assert M'.live[M.next] == Marking(o, t, write);
    assert forall s | s in M.live :: s in M'.live && M'.live[s] == M.live[s];
    assert forall s | s in M'.live :: s == M.next || s in M.live;
  }

  lemma FlaggedMakeWrite(objs: seq<Obj>, flag: seq<bool>, M: Marks, s: nat, raise: bool)
    requires Flagged(objs, flag, M) && s in M.live && M.live[s].obj < |objs| && raise == !Marked(M, M.live[s].obj, true)
    ensures Flagged(objs, if raise then SetPending(flag, objs, M.live[s].obj, PENDING_SET) else flag, MakeWrite(M, s))
  {
    var M' := MakeWrite(M, s);
    assert M'.live[s].write && forall r | r in M.live :: r in M'.live && (r != s ==> M'.live[r] == M.live[r]);
  }

  /** The flag is cleared with the last mark, and looked at again with the last
      write mark. */
  lemma FlaggedEnd(objs: seq<Obj>, flag: seq<bool>, M: Marks, s: nat)
    requires Flagged(objs, flag, M) && s in M.live && M.live[s].obj < |objs|
    ensures var o, M' := M.live[s].obj, End(M, s);
            Flagged(objs, if !Marked(M', o, false) then SetPending(flag, objs, o, PENDING_CLEAR)
                          else if M.live[s].write && !Marked(M', o, true)
                               then SetPending(flag, objs, o, PENDING_READERS)
                          else flag, M')
  {
    var o, M' := M.live[s].obj, End(M, s);
    assert forall r | r in M.live && r != s :: r in M'.live && M'.live[r] == M.live[r];
  }

  /** What a walk finds, in terms of markings. */
  ghost predicate Found(R: Records, M: Marks, serial: seq<nat>, o: nat, want: Want, m: Ref) {
    if m == NULL then
      forall s | s in M.live && M.live[s].obj == o :: !Meets(M.live[s], want)
    else
      Sized(R) && Live(R, m) && R.buf[m] == o && m < |serial| && serial[m] in M.live &&
      M.live[serial[m]] == Marking(o, R.owner[m], R.write[m]) && Meets(M.live[serial[m]], want)
  }

  lemma NoneFound(R: Records, serial: seq<nat>, history: seq<Tag>, M: Marks, bucket: seq<nat>, o: nat, want: Want)
    requires Represents(R, serial, history, M)
    requires forall i | 0 <= i < |bucket| :: bucket[i] < |R.buf| &&
               (R.buf[bucket[i]] == o ==> !Meets(MarkingOf(R, bucket[i]), want))
    requires forall m | 0 <= m < |R.buf| && R.buf[m] == o :: m in bucket
    ensures Found(R, M, serial, o, want, NULL)
  {
  }

  lemma OneFound(R: Records, serial: seq<nat>, history: seq<Tag>, M: Marks, o: nat, want: Want, m: nat)
    requires Represents(R, serial, history, M) && m < |R.buf| && R.buf[m] == o && Meets(MarkingOf(R, m), want)
    ensures Found(R, M, serial, o, want, m)
  {
  }

  const NO_RECORDS: Records := Records([], [], [], [], [], [], [], [])

  lemma Empty(objs: seq<Obj>, flag: seq<bool>, heads: seq<Ref>, V: View)
    requires V.home == [] && V.byOwner == [[]] && V.place == [] && V.serial == []
    requires |V.byBucket| == |heads| == MARK_BUCKETS
    requires forall b | 0 <= b < |heads| :: heads[b] == NULL && V.byBucket[b] == []
    requires |flag| == |objs| && forall o | 0 <= o < |objs| :: !flag[o]
    ensures Described(objs, NO_RECORDS, 0) && Filing(NO_RECORDS, heads, [NULL], V, -1)
    ensures Represents(NO_RECORDS, V.serial, [], NO_MARKS) && Told(NO_RECORDS, []) && Flagged(objs, flag, NO_MARKS)
  {
  }

  lemma FilingShape(R: Records, heads: seq<Ref>, ownHeads: seq<Ref>, V: View, except: int)
    requires Filing(R, heads, ownHeads, V, except)
    ensures Sized(R) && |heads| == |V.byBucket| == MARK_BUCKETS && |ownHeads| == |V.byOwner| > 0
    ensures |V.home| == |V.place| == |R.buf|
  {
  }

  lemma GrownShape(R: Records)
    requires Sized(R)
    ensures Sized(Grown(R)) && |Grown(R).buf| == |R.buf| + 1 && Grown(R).buf[|R.buf|] == NULL &&
            |Grown(R).generation| == |R.buf| + 1 && Grown(R).generation[|R.buf|] == 0
  {
  }

  lemma DescribedShape(R: Records, objs: seq<Obj>, tasks: int)
    requires Described(objs, R, tasks)
    ensures Sized(R) && forall m | 0 <= m < |R.buf| && R.buf[m] != NULL ::
              0 <= R.buf[m] < |objs| && NOBODY <= R.owner[m] < tasks
  {
  }

  lemma RepresentsShape(R: Records, serial: seq<nat>, history: seq<Tag>, M: Marks)
    requires Represents(R, serial, history, M)
    ensures Sized(R) && |serial| == |R.buf| && forall m | 0 <= m < |R.generation| :: R.generation[m] <= U64_MAX
  {
  }

  lemma FlaggedShape(objs: seq<Obj>, flag: seq<bool>, M: Marks)
    requires Flagged(objs, flag, M)
    ensures |flag| == |objs|
  {
  }

  lemma FoundSays(R: Records, M: Marks, serial: seq<nat>, o: nat, write: bool, m: Ref)
    requires Found(R, M, serial, o, if write then Writer else Any, m)
    ensures m == NULL <==> !Marked(M, o, write)
  {
  }

  lemma AddSound(M: Marks, o: nat, t: Owner, write: bool)
    requires Sound(M) && !Owns(M, o, t)
    ensures Sound(Add(M, o, t, write))
  {
  }

  /** What a live record stands for. */
  lemma RepresentsLive(R: Records, serial: seq<nat>, history: seq<Tag>, M: Marks, m: nat)
    requires Represents(R, serial, history, M) && Live(R, m)
    ensures Sized(R) && |serial| == |R.buf| && R.buf[m] >= 0
    ensures serial[m] in M.live && M.live[serial[m]] == Marking(R.buf[m], R.owner[m], R.write[m])
  {
    assert R.buf[m] != NULL ==> serial[m] < |history|;
  }

  lemma MakeWriteAgain(M: Marks, s: nat)
    requires s in M.live && M.live[s].write
    ensures MakeWrite(M, s) == M
  {
  }

  lemma MakeWriteSound(M: Marks, s: nat)
    requires Sound(M) && s in M.live
    ensures Sound(MakeWrite(M, s))
  {
  }

  lemma EndSound(M: Marks, s: nat)
    requires Sound(M)
    ensures Sound(End(M, s))
  {
  }

  lemma UpgradedKeeps(objs: seq<Obj>, R: Records, heads: seq<Ref>, ownHeads: seq<Ref>, V: View, history: seq<Tag>,
                      M: Marks,
                      m: nat)
    requires Described(objs, R, |ownHeads| - 1) && Filing(R, heads, ownHeads, V, -1)
    requires Represents(R, V.serial, history, M) && Told(R, history) && Live(R, m)
    ensures m < |V.serial| && V.serial[m] in M.live && m < |R.write|
    ensures var R' := R.(write := R.write[m := true]);
            Described(objs, R', |ownHeads| - 1) && Filing(R', heads, ownHeads, V, -1) &&
            Represents(R', V.serial, history, MakeWrite(M, V.serial[m])) && Told(R', history)
  {
    hide BucketOf, Filed;
    assert V.serial[m] in M.live;
    var R', M' := R.(write := R.write[m := true]), MakeWrite(M, V.serial[m]);
    forall n {:trigger V.serial[n]} | 0 <= n < |R.buf| && R.buf[n] != NULL
      ensures V.serial[n] in M'.live && M'.live[V.serial[n]] == Marking(R'.buf[n], R'.owner[n], R'.write[n])
    {
      assert history[V.serial[n]] == Tag(n, R.generation[n]) && history[V.serial[m]] == Tag(m, R.generation[m]);
    }
  }

  /** Where a live mark is in its two lists. */
  lemma Whereabouts(R: Records, heads: seq<Ref>, ownHeads: seq<Ref>, V: View, m: nat) returns (i: nat, k: nat)
    requires Filing(R, heads, ownHeads, V, -1) && Live(R, m)
    ensures Sized(R) && |V.home| == |V.place| == |R.buf| && |heads| == |V.byBucket| && |ownHeads| == |V.byOwner| > 0
    ensures V.home[m] == BucketOf(R.lower[m]) < |heads| && V.place[m] == ListOf(R.owner[m])
    ensures i < |V.byBucket[V.home[m]]| && V.byBucket[V.home[m]][i] == m
    ensures Linked(R.bucketNext, heads[V.home[m]], V.byBucket[V.home[m]])
    ensures forall j | 0 <= j < |V.byBucket[V.home[m]]| :: V.byBucket[V.home[m]][j] < |R.bucketNext|
    ensures V.place[m] >= 0 ==>
              V.place[m] < |V.byOwner| && k < |V.byOwner[V.place[m]]| && V.byOwner[V.place[m]][k] == m &&
              Linked(R.ownerNext, ownHeads[V.place[m]], V.byOwner[V.place[m]]) &&
              forall j | 0 <= j < |V.byOwner[V.place[m]]| :: V.byOwner[V.place[m]][j] < |R.ownerNext|
  {
    hide BucketOf, Filed;
    i := FiledAt(R.bucketNext, heads, V.byBucket, V.home, m);
    k := 0;
    FilingShape(R, heads, ownHeads, V, -1);
    if V.place[m] >= 0 {
      k := FiledAt(R.ownerNext, ownHeads, V.byOwner, V.place, m);
    }
  }

  method WalkBucket(R: Records, head: Ref, ghost s: seq<nat>, obj: Obj, ghost o: nat, want: Want) returns (m: Ref)
    requires Sized(R) && Linked(R.bucketNext, head, s)
    requires forall i | 0 <= i < |s| ::
               s[i] < |R.buf| && R.buf[s[i]] >= 0 && (Covers(R, s[i], obj, want) <==> R.buf[s[i]] == o)
    ensures m == NULL ==> forall i | 0 <= i < |s| :: R.buf[s[i]] == o ==> !Meets(MarkingOf(R, s[i]), want)
    ensures m != NULL ==> 0 <= m < |R.buf| && R.buf[m] == o && Meets(MarkingOf(R, m), want)
  {
    hide Meets, Covers, MarkingOf;
    m := head;
    ghost var i := 0;
    while m != NULL
      invariant 0 <= i <= |s| && m == if i < |s| then s[i] else NULL
      invariant forall j | 0 <= j < i :: R.buf[s[j]] == o ==> !Meets(MarkingOf(R, s[j]), want)
      decreases |s| - i
    {
      if Covers(R, m, obj, want) && Meets(MarkingOf(R, m), want) {
        return;
      }
      m := R.bucketNext[m];
      i := i + 1;
    }
  }

  datatype Turn = Done | WaitFor(owner: Owner) | Again | Overflow

  lemma FoundShape(R: Records, M: Marks, serial: seq<nat>, o: nat, want: Want, m: Ref)
    requires Found(R, M, serial, o, want, m)
    ensures m == NULL ==> forall s | s in M.live && M.live[s].obj == o :: !Meets(M.live[s], want)
    ensures m != NULL ==>
              Live(R, m) && m < |serial| && serial[m] in M.live && M.live[serial[m]].obj == o &&
              Meets(M.live[serial[m]], want)
  {
  }

  lemma FoundForeign(R: Records, M: Marks, serial: seq<nat>, o: nat, t: Owner, active: seq<nat>, m: Ref)
    requires Found(R, M, serial, o, Other(t, active), m)
    ensures m == NULL <==> MayProduce(M, o, t, active)
    ensures m != NULL ==> Live(R, m) && m < |serial| && serial[m] in M.live && Foreign(M.live[serial[m]], o, t, active)
  {
  }

  lemma FoundOwn(R: Records, M: Marks, serial: seq<nat>, o: nat, t: Owner, m: Ref)
    requires Found(R, M, serial, o, Own(t), m)
    ensures m == NULL <==> !Owns(M, o, t)
    ensures m != NULL ==>
              Live(R, m) && m < |serial| && serial[m] in M.live && M.live[serial[m]].obj == o &&
              M.live[serial[m]].owner == t
  {
  }

  lemma NobodyHere(M: Marks, o: nat, t: Owner, active: seq<nat>)
    requires MayProduce(M, o, t, active) && (t != NOBODY ==> !Owns(M, o, t))
    ensures !Owns(M, o, t)
  {
  }

  predicate PartComplete(M0: Marks, M: Marks, t: Owner) {
    M.next == M0.next && (forall s | s in M.live :: s in M0.live && M.live[s] == M0.live[s]) &&
    forall s | s in M0.live && M0.live[s].owner != t :: s in M.live
  }

  lemma CompleteStart(M: Marks, t: Owner)
    ensures PartComplete(M, M, t)
  {
  }

  lemma CompleteMore(M0: Marks, M: Marks, t: Owner, s: nat)
    requires PartComplete(M0, M, t) && s in M.live && M.live[s].owner == t
    ensures PartComplete(M0, End(M, s), t) && |End(M, s).live| < |M.live|
  {
  }

  lemma CompleteDone(M0: Marks, M: Marks, t: Owner)
    requires PartComplete(M0, M, t) && forall s | s in M.live :: M.live[s].owner != t
    ensures M == Complete(M0, t)
  {
  }

  lemma FilingNewTask(objs: seq<Obj>, R: Records, heads: seq<Ref>, ownHeads: seq<Ref>, V: View)
    requires Described(objs, R, |ownHeads| - 1) && Filing(R, heads, ownHeads, V, -1)
    ensures Described(objs, R, |ownHeads + [NULL]| - 1)
    ensures Filing(R, heads, ownHeads + [NULL], V.(byOwner := V.byOwner + [[]]), -1)
  {
  }

  /** What a snapshot asks about a tag. */
  predicate EntryPending(R: Records, e: Tag)
    requires Sized(R) && e.mark < |R.buf|
  {
    R.buf[e.mark] != NULL && R.generation[e.mark] == e.generation
  }

  /** Whatever has been recycled or marked again since, a tag reads as pending
      exactly while the very marking it was taken from exists. */
  lemma SnapshotExact(R: Records, serial: seq<nat>, history: seq<Tag>, M: Marks, s: nat)
    requires Represents(R, serial, history, M) && Told(R, history) && s < |history|
    ensures history[s].mark < |R.buf| && (EntryPending(R, history[s]) <==> s in M.live)
  {
    var m := history[s].mark;
    if R.buf[m] != NULL && R.generation[m] == history[s].generation {
      assert history[serial[m]] == history[s];
    }
  }

  class MarkRegistry {
    const objs: seq<Obj>
    /** The pending flag of each object. */
    var flag: seq<bool>
    var records: Records
    var heads: seq<Ref>
    /** The head of the free list, then of each task's list. */
    var ownHeads: seq<Ref>
    ghost var view: View
    ghost var history: seq<Tag>
    ghost var M: Marks

    ghost predicate Valid()
      reads this
    {
      Consistent() && Flagged(objs, flag, M)
    }

    /** Everything but the flags. */
    ghost predicate Consistent()
      reads this
    {
      Apart(objs) && Described(objs, records, |ownHeads| - 1) && Filing(records, heads, ownHeads, view, -1) &&
      Represents(records, view.serial, history, M) && Told(records, history) && Sound(M)
    }

    constructor (objs: seq<Obj>)
      requires Apart(objs)
      ensures Valid() && this.objs == objs && M == NO_MARKS && ownHeads == [NULL]
    {
      hide Apart, Described, Filing, Represents, Told, Flagged, Sound;
      var flags, buckets := seq(|objs|, _ => false), seq(MARK_BUCKETS, _ => NULL);
      ghost var V := View(seq(MARK_BUCKETS, _ => []), [], [[]], [], []);
      Empty(objs, flags, buckets, V);
      NoMarksSound();
      this.objs := objs;
      flag, records, heads, ownHeads := flags, NO_RECORDS, buckets, [NULL];
      view, history, M := V, [], NO_MARKS;
    }

    /** The first record in the object's bucket that covers it and is of the
        wanted kind. */
    method Walk(o: nat, want: Want) returns (m: Ref)
      requires Consistent() && o < |objs|
      ensures Found(records, M, view.serial, o, want, m)
    {
      BucketHolds(objs, records, heads, ownHeads, view, o, want);
      assert Represents(records, view.serial, history, M);
      hide Filing, Represents, Told, Sound, Apart, Meets, Covers, BucketOf, Found, Described, MarkingOf, Consistent,
           Linked;
      var b := BucketOf(objs[o].lower);
      m := WalkBucket(records, heads[b], view.byBucket[b], objs[o], o, want);
      if m == NULL {
        NoneFound(records, view.serial, history, M, view.byBucket[b], o, want);
      } else {
        OneFound(records, view.serial, history, M, o, want, m);
      }
    }

    /** Record `x` is unused and in no list. */
    ghost predicate Ready(x: nat)
      reads this
    {
      Apart(objs) && Described(objs, records, |ownHeads| - 1) && Filing(records, heads, ownHeads, view, x) &&
      Represents(records, view.serial, history, M) && Told(records, history) && Sound(M) &&
      x < |records.buf| && records.buf[x] == NULL && |records.generation| == |records.buf|
    }

    /** A record taken off the free list, or a new one. */
    method Spare() returns (x: nat)
      requires Consistent()
      modifies this`records, this`ownHeads, this`view
      ensures Ready(x) && |ownHeads| == |old(ownHeads)| && x < |records.generation|
      ensures records.generation[x] > 0 ==>
                x < |old(records).generation| && old(records).generation[x] == records.generation[x]
    {
      FilingShape(records, heads, ownHeads, view, -1);
      hide Consistent, Ready, Apart, Described, Filing, Represents, Told, Sound;
      if ownHeads[FREE] != NULL {
        x := Pop();
      } else {
        x := Grow();
      }
    }

    method Pop() returns (x: nat)
      requires Consistent() && |ownHeads| > 0 && ownHeads[FREE] != NULL
      modifies this`ownHeads, this`view
      ensures Ready(x) && |ownHeads| == |old(ownHeads)| && x < |records.generation|
    {
      hide Apart, Described, Filing, Represents, Told, Sound;
      FilingShape(records, heads, ownHeads, view, -1);
      ghost var top := FilingPop(records, heads, ownHeads, view);
      x := ownHeads[FREE];
      ownHeads := ownHeads[FREE := records.ownerNext[x]];
      view := view.(byOwner := view.byOwner[FREE := Without(view.byOwner[FREE], 0)], place := view.place[x := -1]);
    }

    method Grow() returns (x: nat)
      requires Consistent()
      modifies this`records, this`view
      ensures Ready(x) && x < |records.generation| && records.generation[x] == 0
    {
      hide Apart, Described, Filing, Represents, Told, Sound, Grown;
      FilingShape(records, heads, ownHeads, view, -1);
      x := |records.buf|;
      FilingGrown(records, heads, ownHeads, view);
      GrownKeeps(objs, records, |ownHeads| - 1, view.serial, history, M);
      GrownShape(records);
      records, view := Grown(records), GrownView(view);
    }

    /** Sets the flag if the new mark calls for it: a read mark if the object has
        no mark yet, a write mark if it has no write mark. */
    method FlagFor(o: nat, ghost t: Owner, write: bool)
      requires Valid() && o < |objs|
      modifies this`flag
      ensures Flagged(objs, flag, Add(M, o, t, write))
    {
      hide Apart, Described, Filing, Represents, Told, Flagged, Sound, Add, Found, SetPending, Marked;
      var found := Walk(o, if write then Writer else Any);
      FoundSays(records, M, view.serial, o, write, found);
      FlaggedAdd(objs, flag, M, o, t, write, found == NULL);
      if found == NULL {
        FlaggedShape(objs, flag, M);
        flag := SetPending(flag, objs, o, if write then PENDING_SET else PENDING_READERS);
      }
    }

    /** A new mark on an object `t` has none on. */
    method AddMark(o: nat, t: Owner, write: bool) returns (fatal: bool)
      requires Valid() && o < |objs| && NOBODY <= t < |ownHeads| - 1 && !Owns(M, o, t)
      modifies this`flag, this`records, this`heads, this`ownHeads, this`view, this`history, this`M
      ensures !fatal ==>
                Valid() && M == Add(old(M), o, t, write) && |ownHeads| == |old(ownHeads)| && old(history) <= history
      ensures fatal ==> exists m | 0 <= m < |old(records).generation| :: old(records).generation[m] == U64_MAX
    {
      hide Apart, Described, Filing, Represents, Told, Flagged, Sound, Add, Owns;
      FlagFor(o, t, write);
      var x := Spare();
      RepresentsShape(records, view.serial, history, M);
      if records.generation[x] == U64_MAX {
        return true;
      }
      fatal := false;
      Fill(x, o, t, write);
    }

    /** The record `x` becomes the mark and goes to the head of its two lists. */
    method Fill(x: nat, o: nat, t: Owner, write: bool)
      requires Ready(x) && records.generation[x] < U64_MAX
      requires o < |objs| && NOBODY <= t < |ownHeads| - 1 && !Owns(M, o, t) && Flagged(objs, flag, Add(M, o, t, write))
      modifies this`records, this`heads, this`ownHeads, this`view, this`history, this`M
      ensures Valid() && M == Add(old(M), o, t, write) && |ownHeads| == |old(ownHeads)| && old(history) <= history
    {
      hide *;
      FillShape(x, o, t, write);
      var b := BucketOf(objs[o].lower);
      var ownerLink := if t == NOBODY then NULL else ownHeads[t + 1];
      ghost var view' :=
        View(view.byBucket[b := [x] + view.byBucket[b]], view.home[x := b],
             if t == NOBODY then view.byOwner else view.byOwner[t + 1 := [x] + view.byOwner[t + 1]],
             view.place[x := ListOf(t)], view.serial[x := M.next]);
      ghost var history' := history + [Tag(x, records.generation[x] + 1)];
      Put(Filled(records, x, o, objs[o], t, write, heads[b], ownerLink), heads[b := x],
          if t == NOBODY then ownHeads else ownHeads[t + 1 := x], view', history', Add(M, o, t, write));
    }

    lemma FillShape(x: nat, o: nat, t: Owner, write: bool)
      requires Ready(x) && records.generation[x] < U64_MAX
      requires o < |objs| && NOBODY <= t < |ownHeads| - 1 && !Owns(M, o, t)
      ensures var b := BucketOf(objs[o].lower);
              Sized(records) && b < |heads| == |view.byBucket| && NOBODY == -1 &&
              x < |records.buf| == |records.generation| == |view.home| &&
              |view.byOwner| == |ownHeads| && x < |view.place| && x < |view.serial| && Apart(objs) &&
              var R' := Filled(records, x, o, objs[o], t, write, heads[b],
                               if t == NOBODY then NULL else ownHeads[t + 1]);
              var ownHeads' := if t == NOBODY then ownHeads else ownHeads[t + 1 := x];
              var serial', history' := view.serial[x := M.next], history + [Tag(x, records.generation[x] + 1)];
              Filing(R', heads[b := x], ownHeads',
                     View(view.byBucket[b := [x] + view.byBucket[b]], view.home[x := b],
                          if t == NOBODY then view.byOwner else view.byOwner[t + 1 := [x] + view.byOwner[t + 1]],
                          view.place[x := ListOf(t)], serial'), -1) &&
              Described(objs, R', |ownHeads'| - 1) && Represents(R', serial', history', Add(M, o, t, write)) &&
              Told(R', history') && Sound(Add(M, o, t, write))
    {
      hide Apart, Described, Filing, Represents, Told, Flagged, Sound, Add, Owns, Filled;
      FilingShape(records, heads, ownHeads, view, x);
      RepresentsShape(records, view.serial, history, M);
      FilingFilled(records, heads, ownHeads, view, x, o, objs[o], t, write, M.next);
      var b := BucketOf(objs[o].lower);
      var ownerLink := if t == NOBODY then NULL else ownHeads[t + 1];
      FilledKeeps(objs, records, |ownHeads| - 1, view.serial, history, M, x, o, t, write, heads[b], ownerLink);
      AddSound(M, o, t, write);
    }

    method Put(R: Records, heads': seq<Ref>, ownHeads': seq<Ref>, ghost view': View, ghost history': seq<Tag>,
               ghost M': Marks)
      requires Apart(objs) && Described(objs, R, |ownHeads'| - 1) && Filing(R, heads', ownHeads', view', -1)
      requires Represents(R, view'.serial, history', M') && Told(R, history') && Sound(M') && Flagged(objs, flag, M')
      modifies this`records, this`heads, this`ownHeads, this`view, this`history, this`M
      ensures Valid() && M == M' && ownHeads == ownHeads' && history == history'
    {
      hide Apart, Described, Filing, Represents, Told, Flagged, Sound;
      records, heads, ownHeads, view, history, M := R, heads', ownHeads', view', history', M';
    }

    /** Makes a read mark a write mark. */
    method Upgrade(m: nat)
      requires Valid() && Live(records, m) && m < |view.serial| && view.serial[m] in M.live
      modifies this`flag, this`records, this`M
      ensures Valid() && M == MakeWrite(old(M), view.serial[m])
    {
      hide Apart, Described, Filing, Represents, Told, Flagged, Sound, Found, SetPending, Marked, MakeWrite;
      DescribedShape(records, objs, |ownHeads| - 1);
      RepresentsLive(records, view.serial, history, M, m);
      if records.write[m] {
        MakeWriteAgain(M, view.serial[m]);
        return;
      }
      var o := records.buf[m];
      var found := Walk(o, Writer);
      FoundSays(records, M, view.serial, o, true, found);
      FlaggedMakeWrite(objs, flag, M, view.serial[m], found == NULL);
      FlaggedShape(objs, flag, M);
      if found == NULL {
        flag := SetPending(flag, objs, o, PENDING_SET);
      }
      UpgradedKeeps(objs, records, heads, ownHeads, view, history, M, m);
      MakeWriteSound(M, view.serial[m]);
      M := MakeWrite(M, view.serial[m]);
      records := records.(write := records.write[m := true]);
    }

    /** Unlinks a mark from its bucket and its owner, and recycles it. */
    method Unfile(m: nat)
      requires Consistent() && Live(records, m) && m < |view.serial|
      modifies this`records, this`heads, this`ownHeads, this`view, this`M
      ensures Consistent() && M == End(old(M), old(view).serial[m]) && |ownHeads| == |old(ownHeads)|
    {
      hide Apart, Described, Filing, Represents, Told, Sound, End, Cleared, RemoveNext, BucketOf;
      ghost var i, k := Whereabouts(records, heads, ownHeads, view, m);
      DescribedShape(records, objs, |ownHeads| - 1);
      RepresentsShape(records, view.serial, history, M);
      FilingCleared(records, heads, ownHeads, view, m, i, k);
      var b, t := BucketOf(records.lower[m]), records.owner[m];
      var bucketNext, head := Unlink(records.bucketNext, heads[b], view.byBucket[b], m, i);
      var ownerNext, own := records.ownerNext, ownHeads;
      if t != NOBODY {
        var first;
        ownerNext, first := Unlink(ownerNext, own[t + 1], view.byOwner[t + 1], m, k);
        own := own[t + 1 := first];
      }
      assert heads[b := head] == if i > 0 then heads else heads[b := records.bucketNext[m]];
      assert own == if view.place[m] < 0 || k > 0 then ownHeads else ownHeads[view.place[m] := records.ownerNext[m]];
      ClearedKeeps(objs, records, |ownHeads| - 1, view.serial, history, M, m, bucketNext, ownerNext[m := own[FREE]]);
      EndSound(M, view.serial[m]);
      M := End(M, view.serial[m]);
      view := View(view.byBucket[b := Without(view.byBucket[b], i)], view.home[m := -1],
                   var byOwner1 := if t == NOBODY then view.byOwner
                     else view.byOwner[t + 1 := Without(view.byOwner[t + 1], k)];
                   byOwner1[FREE := [m] + byOwner1[FREE]], view.place[m := FREE], view.serial);
      heads, ownHeads := heads[b := head], own[FREE := m];
      records := Cleared(records, m, bucketNext, ownerNext[m := own[FREE]]);
    }

    /** Ends a marking: its record is recycled, and the flag goes with the last
        mark that calls for it. */
    method Remove(m: nat)
      requires Valid() && Live(records, m) && m < |view.serial|
      modifies this`flag, this`records, this`heads, this`ownHeads, this`view, this`M
      ensures Valid() && M == End(old(M), old(view).serial[m]) && |ownHeads| == |old(ownHeads)|
    {
      hide Apart, Described, Filing, Represents, Told, Flagged, Sound, End, SetPending, Marked, Found;
      DescribedShape(records, objs, |ownHeads| - 1);
      RepresentsLive(records, view.serial, history, M, m);
      FlaggedEnd(objs, flag, M, view.serial[m]);
      FlaggedShape(objs, flag, M);
      ghost var o0, M0 := records.buf[m], M;
      var o, write := records.buf[m], records.write[m];
      Unfile(m);
      var any := Walk(o, Any);
      FoundSays(records, M, view.serial, o, false, any);
      if any == NULL {
        flag := SetPending(flag, objs, o, PENDING_CLEAR);
        return;
      }
      if write {
        var writer := Walk(o, Writer);
        FoundSays(records, M, view.serial, o, true, writer);
        if writer == NULL {
          flag := SetPending(flag, objs, o, PENDING_READERS);
        }
      }
    }

    // ---- What stubs, runtimes and the program call ----

    /** One turn of the loop that makes `t` a producer of the object, under the
        mutex: it finds another owner to wait for, drops a mark the program left,
        or marks. */
    method MarkPending(t: Owner, o: nat, active: seq<nat>) returns (turn: Turn)
      requires Valid() && o < |objs| && NOBODY <= t < |ownHeads| - 1
      modifies this
      ensures !turn.Overflow? ==> Valid() && |ownHeads| == |old(ownHeads)| && old(history) <= history
      ensures turn.Done? ==> Does(old(M), Produce(o, t, active), M)
      ensures turn.Overflow? ==> exists m | 0 <= m < |old(records).generation| :: old(records).generation[m] == U64_MAX
      ensures turn.WaitFor? ==>
                M == old(M) && turn.owner != t && !MayProduce(M, o, t, active) && 0 <= turn.owner < |ownHeads| - 1 &&
                exists s | s in M.live :: M.live[s].owner == turn.owner && Foreign(M.live[s], o, t, active)
      ensures turn.Again? ==>
                exists s | s in old(M).live ::
                  old(M).live[s].owner == NOBODY && old(M).live[s].obj == o && M == End(old(M), s)
      ensures turn.Done? || turn.Overflow? <==>
                forall s | s in old(M).live && old(M).live[s].obj == o && (t == NOBODY || old(M).live[s].owner != t) ::
                  !old(M).live[s].write && old(M).live[s].owner in active
      ensures turn.WaitFor? ==>
                exists s | s in M.live ::
                  M.live[s].obj == o && M.live[s].owner == turn.owner && (M.live[s].write || turn.owner !in active)
      ensures turn.Done? ==> exists s | s in M.live :: M.live[s] == Marking(o, t, true)
      ensures turn.Done? ==> SameBeside(old(M), M, o, t)
    {
      hide Apart, Described, Filing, Represents, Told, Flagged, Sound, Add, End, MakeWrite, Found;
      var m := Walk(o, Other(t, active));
      FoundForeign(records, M, view.serial, o, t, active, m);
      if m != NULL {
        DescribedShape(records, objs, |ownHeads| - 1);
        RepresentsLive(records, view.serial, history, M, m);
        if records.owner[m] != NOBODY {
          return WaitFor(records.owner[m]);
        }
        Remove(m);
        return Again;
      }
      var own := NULL;
      if t != NOBODY {
        own := Walk(o, Own(t));
        FoundOwn(records, M, view.serial, o, t, own);
      }
      turn := Done;
      if own != NULL {
        RepresentsShape(records, view.serial, history, M);
        FoundShape(records, M, view.serial, o, Own(t), own);
        Upgrade(own);
      } else {
        NobodyHere(M, o, t, active);
        var fatal := AddMark(o, t, true);
        turn := if fatal then Overflow else Done;
      }
      if turn.Done? {
        ProducedMarking(old(M), M, o, t);
      }
    }

    /** A runtime makes one of its requests another producer of the object. */
    method MarkShared(t: nat, o: nat) returns (fatal: bool)
      requires Valid() && o < |objs| && t < |ownHeads| - 1
      modifies this
      ensures !fatal ==>
                Valid() && Does(old(M), Share(o, t), M) && |ownHeads| == |old(ownHeads)| && old(history) <= history
      ensures fatal ==> exists m | 0 <= m < |old(records).generation| :: old(records).generation[m] == U64_MAX
      ensures !fatal ==> (exists s | s in M.live :: M.live[s] == Marking(o, t, true)) && SameBeside(old(M), M, o, t)
    {
      hide Apart, Described, Filing, Represents, Told, Flagged, Sound, Add, End, MakeWrite, Found;
      var own := Walk(o, Own(t));
      FoundOwn(records, M, view.serial, o, t, own);
      fatal := false;
      if own != NULL {
        RepresentsShape(records, view.serial, history, M);
        FoundShape(records, M, view.serial, o, Own(t), own);
        Upgrade(own);
      } else {
        fatal := AddMark(o, t, true);
      }
      if !fatal {
        ProducedMarking(old(M), M, o, t);
      }
    }

    /** A call makes itself a reader of an argument; this never waits. */
    method MarkInput(t: nat, o: nat) returns (fatal: bool)
      requires Valid() && o < |objs| && t < |ownHeads| - 1
      modifies this
      ensures !fatal ==>
                Valid() && Does(old(M), Input(o, t), M) && |ownHeads| == |old(ownHeads)| && old(history) <= history
      ensures fatal ==> exists m | 0 <= m < |old(records).generation| :: old(records).generation[m] == U64_MAX
      ensures !fatal ==>
                (exists s | s in M.live :: M.live[s].obj == o && M.live[s].owner == t) && SameBeside(old(M), M, o, t)
      ensures !fatal ==> forall s | s in M.live && M.live[s].write :: s in old(M).live && old(M).live[s].write
    {
      hide Apart, Described, Filing, Represents, Told, Flagged, Sound, Add, End, MakeWrite, Found;
      var own := Walk(o, Own(t));
      FoundOwn(records, M, view.serial, o, t, own);
      fatal := false;
      if own == NULL {
        fatal := AddMark(o, t, false);
      }
      if !fatal {
        InputMarking(old(M), M, o, t);
      }
    }

    /** Ends one marking that produces the object, if there is one. */
    method MarkResolved(o: nat)
      requires Valid() && o < |objs|
      modifies this
      ensures Valid() && |ownHeads| == |old(ownHeads)| && history == old(history)
      ensures if exists s | s in old(M).live :: old(M).live[s].obj == o && old(M).live[s].write then
                exists s | s in old(M).live :: old(M).live[s].obj == o && old(M).live[s].write && M == End(old(M), s)
              else M == old(M)
    {
      hide Valid, Consistent, Found, End, Foreign;
      EndFirst(o, Product);
    }

    /** Ends the task's marking of the object, if it has one. */
    method ResolveBuffer(t: Owner, o: nat)
      requires Valid() && o < |objs|
      modifies this
      ensures Valid() && |ownHeads| == |old(ownHeads)| && history == old(history)
      ensures if exists s | s in old(M).live :: old(M).live[s].obj == o && old(M).live[s].owner == t then
                exists s | s in old(M).live ::
                  old(M).live[s].obj == o && old(M).live[s].owner == t && M == End(old(M), s)
              else M == old(M)
    {
      hide Valid, Consistent, Found, End, Foreign;
      EndFirst(o, Own(t));
    }

    method EndFirst(o: nat, want: Want)
      requires Valid() && o < |objs|
      modifies this
      ensures Valid() && |ownHeads| == |old(ownHeads)| && history == old(history)
      ensures ((forall s | s in old(M).live && old(M).live[s].obj == o :: !Meets(old(M).live[s], want)) &&
               M == old(M)) ||
              exists s | s in old(M).live ::
                old(M).live[s].obj == o && Meets(old(M).live[s], want) && M == End(old(M), s)
    {
      hide Apart, Described, Filing, Represents, Told, Flagged, Sound, End, Found, Meets;
      var m := Walk(o, want);
      FoundShape(records, M, view.serial, o, want, m);
      if m != NULL {
        Remove(m);
      }
    }

    method IsPending(o: nat) returns (pending: bool)
      requires Valid() && o < |objs|
      ensures pending <==> exists s | s in M.live :: M.live[s].obj == o && M.live[s].write
    {
      hide Consistent;
      var m := Walk(o, Writer);
      pending := m != NULL;
    }

    /** Each time round, what a runtime waits for before it uses a buffer for
        `t`: a call, neither `t` nor the body this thread runs, that produces it. */
    method WaitBuffer(t: Owner, body: Owner, o: nat) returns (owner: Owner)
      requires Valid() && o < |objs|
      ensures owner == NOBODY <==>
                forall s | s in M.live && M.live[s].obj == o && M.live[s].write :: M.live[s].owner in {NOBODY, t, body}
      ensures owner != NOBODY ==>
                exists s | s in M.live :: M.live[s] == Marking(o, owner, true) && owner != t && owner != body
    {
      hide Consistent;
      var m := Walk(o, Producer(t, body));
      owner := if m == NULL then NOBODY else records.owner[m];
    }

    /** Whether a call active on this thread owns the object. */
    method OwnAccess(o: nat, active: seq<nat>) returns (own: bool)
      requires Valid() && o < |objs|
      ensures own <==> exists s | s in M.live :: M.live[s].obj == o && M.live[s].owner in active
    {
      hide Consistent;
      var m := Walk(o, Active(active));
      own := m != NULL;
    }

    /** Each time round, what the program's access to an object waits for: any
        call that owns it, or only its producers when an active call owns it, but
        never an active call. */
    method WaitAccess(o: nat, own: bool, active: seq<nat>) returns (owner: Owner)
      requires Valid() && o < |objs|
      ensures owner == NOBODY <==>
                forall s | s in M.live && M.live[s].obj == o && (M.live[s].write || !own) ::
                  M.live[s].owner == NOBODY || M.live[s].owner in active
      ensures owner != NOBODY ==>
                exists s | s in M.live ::
                  M.live[s].obj == o && M.live[s].owner == owner && owner !in active && (own ==> M.live[s].write)
    {
      hide Consistent;
      var m := Walk(o, Blocking(own, active));
      owner := if m == NULL then NOBODY else records.owner[m];
    }

    /** The header flag says exactly whether some mark record calls for it. */
    lemma FlagExact(o: nat)
      requires Valid() && o < |objs|
      ensures o < |flag| && Sized(records)
      ensures flag[o] <==> exists m ::
                0 <= m < |records.buf| && records.buf[m] == o && (records.write[m] || !objs[o].readonly)
    {
      hide BucketOf, Filing, Told, Sound;
      if flag[o] {
        var s :| s in M.live && M.live[s].obj == o && (M.live[s].write || !objs[o].readonly);
        RepresentsLive(records, view.serial, history, M, history[s].mark);
      }
      if m :| 0 <= m < |records.buf| && records.buf[m] == o && (records.write[m] || !objs[o].readonly) {
        RepresentsLive(records, view.serial, history, M, m);
      }
    }

    /** A live mark is in the bucket of its lower bound and in its owner's list, and
        in no other one; any other record is on the free list only. */
    lemma PlacesExact(m: nat)
      requires Valid() && m < |records.buf|
      ensures Sized(records) && |view.byBucket| == |heads| == MARK_BUCKETS && |view.byOwner| == |ownHeads|
      ensures forall b | 0 <= b < MARK_BUCKETS ::
                Linked(records.bucketNext, heads[b], view.byBucket[b]) &&
                (m in view.byBucket[b] <==> records.buf[m] != NULL && b == BucketOf(records.lower[m]))
      ensures forall l | 0 <= l < |ownHeads| ::
                Linked(records.ownerNext, ownHeads[l], view.byOwner[l]) &&
                (m in view.byOwner[l] <==> l == if records.buf[m] != NULL then ListOf(records.owner[m]) else FREE)
    {
      FilingShape(records, heads, ownHeads, view, -1);
      hide BucketOf, Filed, Linked, Represents, Told, Sound, Flagged, Described;
      forall b | 0 <= b < MARK_BUCKETS
        ensures Linked(records.bucketNext, heads[b], view.byBucket[b]) &&
                (m in view.byBucket[b] <==> records.buf[m] != NULL && b == BucketOf(records.lower[m]))
      {
        FiledList(records.bucketNext, heads, view.byBucket, view.home, b);
      }
      forall l | 0 <= l < |ownHeads|
        ensures Linked(records.ownerNext, ownHeads[l], view.byOwner[l]) &&
                (m in view.byOwner[l] <==> l == if records.buf[m] != NULL then ListOf(records.owner[m]) else FREE)
      {
        FiledList(records.ownerNext, ownHeads, view.byOwner, view.place, l);
      }
    }

    /** The program's access goes through the hook only when the flag is set; when
        it is not, there is nothing to wait for, except readers of an object the
        program cannot store into. */
    lemma NoFlagNoWait(o: nat)
      requires Valid() && o < |objs| && !flag[o]
      ensures forall s | s in M.live && M.live[s].obj == o :: !M.live[s].write && objs[o].readonly
    {
    }

    /** A completing call gives up its marks, one by one. */
    method CompleteMarks(t: nat)
      requires Valid() && t < |ownHeads| - 1
      modifies this
      ensures Valid() && M == Complete(old(M), t) && |ownHeads| == |old(ownHeads)| && history == old(history)
      ensures forall s :: s in M.live <==> s in old(M).live && old(M).live[s].owner != t
      ensures forall s | s in M.live :: M.live[s] == old(M).live[s]
    {
      hide *;
      ghost var M0 := M;
      ghost var left := M.live;
      CompleteStart(M, t);
      while ownHeads[t + 1] != NULL
        invariant Valid() && t < |ownHeads| - 1 && |ownHeads| == |old(ownHeads)| && history == old(history)
        invariant PartComplete(M0, M, t)
        decreases |M.live|
      {
        var m := ownHeads[t + 1];
        FirstMark(t);
        CompleteMore(M0, M, t, view.serial[m]);
        Remove(m);
      }
      NoMarkLeft(t);
      CompleteDone(M0, M, t);
      CompleteMarkings(M0, t);
    }

    /** The first record of an owner's list is a mark of its. */
    lemma FirstMark(t: nat)
      requires Valid() && t < |ownHeads| - 1 && ownHeads[t + 1] != NULL
      ensures var m := ownHeads[t + 1];
              0 <= m < |view.serial| && Live(records, m) && view.serial[m] in M.live &&
              M.live[view.serial[m]].owner == t
    {
      hide BucketOf, Filed, Told, Flagged, Sound;
      FiledList(records.ownerNext, ownHeads, view.byOwner, view.place, t + 1);
      RepresentsLive(records, view.serial, history, M, ownHeads[t + 1]);
    }

    lemma NoMarkLeft(t: nat)
      requires Valid() && t < |ownHeads| - 1 && ownHeads[t + 1] == NULL
      ensures forall s | s in M.live :: M.live[s].owner != t
    {
      hide BucketOf, Filed, Told, Flagged, Sound;
      FiledList(records.ownerNext, ownHeads, view.byOwner, view.place, t + 1);
      forall s | s in M.live
        ensures M.live[s].owner != t
      {
        RepresentsLive(records, view.serial, history, M, history[s].mark);
        assert view.place[history[s].mark] != t + 1;
      }
    }

    /** A task begins. */
    method NewTask() returns (t: nat)
      requires Valid()
      modifies this`ownHeads, this`view
      ensures Valid() && t == |old(ownHeads)| - 1 && |ownHeads| == |old(ownHeads)| + 1
      ensures forall s | s in M.live :: M.live[s].owner != t
    {
      FilingNewTask(objs, records, heads, ownHeads, view);
      NewTaskNoMarks();
      hide Apart, Described, Filing, Represents, Told, Flagged, Sound;
      t := |ownHeads| - 1;
      ownHeads, view := ownHeads + [NULL], view.(byOwner := view.byOwner + [[]]);
    }

    lemma NewTaskNoMarks()
      requires Valid()
      ensures |ownHeads| > 0 && forall s | s in M.live :: M.live[s].owner < |ownHeads| - 1
    {
    }
  }
}
