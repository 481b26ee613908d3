/** The dependency-lock table: locks hashed by key, each with a list of holders
    that can be left in constant time and a queue of waiters. */
module LockTable {
  import opened Bits
  import opened Chains
  import opened LockLog

  const LOCK_BUCKET_BITS: nat := 10
  const LOCK_BUCKETS: nat := 1024
  /** The free list comes after the buckets. */
  const FREE: nat := 1024

  /** A lock's key: the argument's value and its space. */
  datatype Key = Key(value: nat, space: nat)

  /** What points at a holder: its lock, or the holder before it. */
  datatype Link = Unlinked | HeadOf(lock: nat) | NextOf(hold: nat)

  function BucketOf(key: Key): (b: nat)
    ensures b < LOCK_BUCKETS
  {
    assert Pow2(10) == 1024 by {
      assert Pow2(5) == 32;
      Pow2Add(5, 5);
    }
    HashBits(BitXor(key.value, key.space), LOCK_BUCKET_BITS)
  }

  function Writers(write: seq<bool>, s: seq<nat>): nat
    requires forall i | 0 <= i < |s| :: s[i] < |write|
  {
    if s == [] then 0 else Writers(write, s[1..]) + if write[s[0]] then 1 else 0
  }

  lemma {:induction false} WritersWithout(write: seq<bool>, s: seq<nat>, k: nat)
    requires k < |s| && forall i | 0 <= i < |s| :: s[i] < |write|
    ensures Writers(write, Without(s, k)) == Writers(write, s) - if write[s[k]] then 1 else 0
  {
    if k == 0 {
      assert Without(s, k) == s[1..];
    } else {
      assert Without(s, k)[1..] == Without(s[1..], k - 1);
      WritersWithout(write, s[1..], k - 1);
    }
  }

  lemma {:induction false} WritersZero(write: seq<bool>, s: seq<nat>)
    requires forall i | 0 <= i < |s| :: s[i] < |write|
    ensures Writers(write, s) == 0 <==> forall i | 0 <= i < |s| :: !write[s[i]]
  {
    if s != [] {
      WritersZero(write, s[1..]);
      assert forall i | 0 < i < |s| :: s[i] == s[1..][i - 1];
    }
  }

  lemma WritersPositive(write: seq<bool>, s: seq<nat>, k: nat)
    requires k < |s| && forall i | 0 <= i < |s| :: s[i] < |write|
    ensures write[s[k]] ==> Writers(write, s) > 0
  {
    WritersZero(write, s);
  }

  lemma {:induction false} WritersFrame(write: seq<bool>, write': seq<bool>, s: seq<nat>)
    requires write <= write' && forall i | 0 <= i < |s| :: s[i] < |write|
    ensures Writers(write', s) == Writers(write, s)
  {
    if s != [] {
      WritersFrame(write, write', s[1..]);
    }
  }

  // ---- What the fields mean ----
  //
  // Each predicate takes the fields it depends on, not the records they are in: an
  // operation that changes other fields of the record leaves it as it was.

  /** What should point at the `i`th holder of lock `l`. */
  function Points(s: seq<nat>, l: nat, i: nat): Link
    requires i < |s|
  {
    if i == 0 then HeadOf(l) else NextOf(s[i - 1])
  }

  predicate LinkedBack(pprev: seq<Link>, s: seq<nat>, l: nat) {
    (forall i | 0 <= i < |s| :: s[i] < |pprev|) &&
    forall i {:trigger pprev[s[i]]} | 0 <= i < |s| :: pprev[s[i]] == Points(s, l, i)
  }

  predicate BackLinks(pprev: seq<Link>, H: seq<seq<nat>>) {
    forall l | 0 <= l < |H| :: LinkedBack(pprev, H[l], l)
  }

  ghost predicate Counts(write: seq<bool>, nholders: seq<nat>, nwriters: seq<nat>, H: seq<seq<nat>>) {
    |nholders| == |nwriters| == |H| &&
    forall l | 0 <= l < |H| ::
      (forall i | 0 <= i < |H[l]| :: H[l][i] < |write|) &&
      nholders[l] == |H[l]| && nwriters[l] == Writers(write, H[l])
  }

  /** The lists hold exactly the requests with this status. */
  ghost predicate ListsAre(log: Log<nat, Key>, owner: seq<nat>, lists: seq<seq<nat>>, status: Status) {
    |owner| == |log| &&
    (forall l, i | 0 <= l < |lists| && 0 <= i < |lists[l]| ::
      lists[l][i] < |log| && owner[lists[l][i]] == l && log[lists[l][i]].status == status) &&
    (forall h | 0 <= h < |log| && log[h].status == status :: owner[h] < |lists| && h in lists[owner[h]])
  }

  /** The log says what the request records say. */
  predicate Recorded(log: Log<nat, Key>, holdTask: seq<nat>, holdWrite: seq<bool>, holdLock: seq<nat>,
                     lockKey: seq<Key>, home: seq<nat>) {
    |holdTask| == |holdWrite| == |holdLock| == |log| && |lockKey| == |home| &&
    forall h | 0 <= h < |log| ::
      log[h].task == holdTask[h] && log[h].write == holdWrite[h] && holdLock[h] < |lockKey| &&
      (log[h].status != Released ==> log[h].key == lockKey[holdLock[h]] && home[holdLock[h]] != FREE)
  }

  predicate Ascending(W: seq<seq<nat>>) {
    forall l, i, j | 0 <= l < |W| && 0 <= i < j < |W[l]| :: W[l][i] < W[l][j]
  }

  /** Each lock is in the bucket of its key or on the free list, and the locks
      in use have different keys. */
  ghost predicate Hashed(home: seq<nat>, lockKey: seq<Key>, lists: seq<seq<nat>>, except: int) {
    |home| == |lockKey| && |lists| == LOCK_BUCKETS + 1 &&
    (forall l | 0 <= l < |home| && l != except :: home[l] <= FREE && l in lists[home[l]]) &&
    (forall l | 0 <= l < |home| && home[l] != FREE :: home[l] == BucketOf(lockKey[l])) &&
    (forall l, m | 0 <= l < |home| && 0 <= m < |home| && home[l] != FREE && home[m] != FREE ::
      lockKey[l] == lockKey[m] ==> l == m)
  }

  /** A lock other than `except` is free exactly when it has neither holders nor
      waiters. */
  predicate Used(home: seq<nat>, H: seq<seq<nat>>, W: seq<seq<nat>>, except: int) {
    |home| == |H| == |W| &&
    forall l | 0 <= l < |home| && l != except :: home[l] == FREE <==> H[l] == [] && W[l] == []
  }

  lemma UsedBut(home: seq<nat>, H: seq<seq<nat>>, W: seq<seq<nat>>, l: nat)
    requires Used(home, H, W, -1)
    ensures Used(home, H, W, l)
  {
  }

  lemma UsedNewLock(home: seq<nat>, H: seq<seq<nat>>, W: seq<seq<nat>>)
    requires Used(home, H, W, -1)
    ensures Used(home + [FREE], H + [[]], W + [[]], -1)
  {
  }

  lemma UsedNow(home: seq<nat>, H: seq<seq<nat>>, W: seq<seq<nat>>, l: nat, b: nat)
    requires Used(home, H, W, -1) && l < |home|
    ensures Used(home[l := b], H, W, l)
  {
  }

  lemma UsedJoined(home: seq<nat>, H: seq<seq<nat>>, W: seq<seq<nat>>, l: nat, s: seq<nat>)
    requires Used(home, H, W, l) && l < |home| && home[l] != FREE && s != []
    ensures Used(home, H, W[l := s], -1)
  {
  }

  lemma UsedTaken(home: seq<nat>, H: seq<seq<nat>>, W: seq<seq<nat>>, l: nat, s: seq<nat>, w: seq<nat>)
    requires Used(home, H, W, -1) && l < |home| && home[l] != FREE && s != []
    ensures Used(home, H[l := s], W[l := w], -1)
  {
  }

  lemma UsedLeft(home: seq<nat>, H: seq<seq<nat>>, W: seq<seq<nat>>, l: nat, s: seq<nat>)
    requires Used(home, H, W, -1) && l < |home|
    ensures Used(home, H[l := s], W, l)
  {
  }

  /** The last holder left and nobody waits. */
  lemma UsedFreed(home: seq<nat>, H: seq<seq<nat>>, W: seq<seq<nat>>, l: nat)
    requires Used(home, H, W, l) && l < |home| && H[l] == [] && W[l] == []
    ensures Used(home[l := FREE], H, W, -1)
  {
  }

  lemma UsedStill(home: seq<nat>, H: seq<seq<nat>>, W: seq<seq<nat>>, l: nat)
    requires Used(home, H, W, l) && l < |home| && home[l] != FREE && (H[l] != [] || W[l] != [])
    ensures Used(home, H, W, -1)
  {
  }

  // ---- Requests, over the lists they are in ----

  ghost predicate Requests(log: Log<nat, Key>, holdTask: seq<nat>, holdWrite: seq<bool>, holdLock: seq<nat>,
                           lockKey: seq<Key>, home: seq<nat>, H: seq<seq<nat>>, W: seq<seq<nat>>) {
    Recorded(log, holdTask, holdWrite, holdLock, lockKey, home) && Ascending(W) &&
    ListsAre(log, holdLock, H, Granted) && ListsAre(log, holdLock, W, Waiting) &&
    |H| == |W| == |lockKey|
  }

  lemma ListsGain(log: Log<nat, Key>, owner: seq<nat>, lists: seq<seq<nat>>, status: Status, h: nat,
                  r: Request<nat, Key>)
    requires ListsAre(log, owner, lists, status) && h < |log| && owner[h] < |lists|
    requires log[h].status != status && r.status == status
    ensures ListsAre(log[h := r], owner, lists[owner[h] := [h] + lists[owner[h]]], status)
  {
  }

  lemma ListsLose(log: Log<nat, Key>, owner: seq<nat>, lists: seq<seq<nat>>, status: Status, h: nat, k: nat,
                  r: Request<nat, Key>)
    requires ListsAre(log, owner, lists, status) && h < |log| && owner[h] < |lists|
    requires k < |lists[owner[h]]| && lists[owner[h]][k] == h && Distinct(lists[owner[h]]) && r.status != status
    ensures ListsAre(log[h := r], owner, lists[owner[h] := Without(lists[owner[h]], k)], status)
  {
  }

  lemma ListsSkip(log: Log<nat, Key>, owner: seq<nat>, lists: seq<seq<nat>>, status: Status, h: nat,
                  r: Request<nat, Key>)
    requires ListsAre(log, owner, lists, status) && h < |log| && log[h].status != status && r.status != status
    ensures ListsAre(log[h := r], owner, lists, status)
  {
  }

  lemma AscendingWithout(W: seq<seq<nat>>, l: nat, k: nat)
    requires Ascending(W) && l < |W| && k < |W[l]|
    ensures Ascending(W[l := Without(W[l], k)])
  {
  }

  // ---- The links and counts of the queues ----

  ghost predicate Queues(lockNext: seq<Ref>, pprev: seq<Link>, holdLock: seq<nat>, write: seq<bool>,
                         holders: seq<Ref>, waiters: seq<Ref>, nholders: seq<nat>, nwriters: seq<nat>,
                         H: seq<seq<nat>>, W: seq<seq<nat>>) {
    Family(lockNext, holders, H, holdLock) && Family(lockNext, waiters, W, holdLock) && |H| == |W| &&
    BackLinks(pprev, H) && Counts(write, nholders, nwriters, H) &&
    |lockNext| == |pprev| == |holdLock| == |write|
  }

  /** No record is in a holder list and in a waiter list. */
  ghost predicate Apart(H: seq<seq<nat>>, W: seq<seq<nat>>) {
    forall l, i, m, j | 0 <= l < |H| && 0 <= i < |H[l]| && 0 <= m < |W| && 0 <= j < |W[m]| :: H[l][i] != W[m][j]
  }

  function PushPprev(pprev: seq<Link>, s: seq<nat>, h: nat, l: nat): seq<Link>
    requires h < |pprev| && (s != [] ==> s[0] < |pprev|)
  {
    var p := pprev[h := HeadOf(l)];
    if s == [] then p else p[s[0] := NextOf(h)]
  }

  /** The new first holder is pointed at by its lock, and points back from the
      next. */
  method PointBack(pprev: seq<Link>, first: Ref, ghost s: seq<nat>, h: nat, l: nat) returns (pprev': seq<Link>)
    requires h < |pprev| && first == Head(s) && (s != [] ==> s[0] < |pprev|)
    ensures pprev' == PushPprev(pprev, s, h, l)
  {
    pprev' := pprev[h := HeadOf(l)];
    if first != NULL {
      pprev' := pprev'[first := NextOf(h)];
    }
  }

  lemma LinkedBackPush(pprev: seq<Link>, s: seq<nat>, l: nat, h: nat)
    requires LinkedBack(pprev, s, l) && Distinct(s) && h !in s && h < |pprev|
    ensures LinkedBack(PushPprev(pprev, s, h, l), [h] + s, l)
  {
  }

  /** The back links after holder `s[k]` left: its successor inherits its own. */
  function LeavePprev(pprev: seq<Link>, s: seq<nat>, k: nat): seq<Link>
    requires k < |s| && forall i | 0 <= i < |s| :: s[i] < |pprev|
  {
    if k + 1 < |s| then pprev[s[k + 1] := pprev[s[k]]] else pprev
  }

  lemma LinkedBackLeave(pprev: seq<Link>, s: seq<nat>, l: nat, k: nat)
    requires LinkedBack(pprev, s, l) && Distinct(s) && k < |s|
    ensures LinkedBack(LeavePprev(pprev, s, k), Without(s, k), l)
  {
  }

  /** Back links of one list change; the records of other lists keep theirs. */
  lemma BackLinksUpdate(pprev: seq<Link>, p': seq<Link>, H: seq<seq<nat>>, owner: seq<nat>, l: nat, s: seq<nat>)
    requires BackLinks(pprev, H) && l < |H| && LinkedBack(p', s, l)
    requires forall m | 0 <= m < |H| :: OwnedBy(owner, H[m], m)
    requires |p'| == |pprev| && forall x | 0 <= x < |pprev| && p'[x] != pprev[x] :: x < |owner| && owner[x] == l
    ensures BackLinks(p', H[l := s])
  {
  }

  /** A lock without holders or waiters is added. */
  lemma QueuesNewLock(lockNext: seq<Ref>, pprev: seq<Link>, holdLock: seq<nat>, write: seq<bool>,
                      holders: seq<Ref>, waiters: seq<Ref>, nholders: seq<nat>, nwriters: seq<nat>,
                      H: seq<seq<nat>>, W: seq<seq<nat>>)
    requires Queues(lockNext, pprev, holdLock, write, holders, waiters, nholders, nwriters, H, W)
    ensures Queues(lockNext, pprev, holdLock, write, holders + [NULL], waiters + [NULL], nholders + [0], nwriters + [0],
                   H + [[]], W + [[]])
  {
  }

  /** A new request joins the queue of lock `l`. */
  lemma QueuesArrive(lockNext: seq<Ref>, pprev: seq<Link>, holdLock: seq<nat>, write: seq<bool>,
                     holders: seq<Ref>, waiters: seq<Ref>, nholders: seq<nat>, nwriters: seq<nat>,
                     H: seq<seq<nat>>, W: seq<seq<nat>>, l: nat, w: bool)
    requires Queues(lockNext, pprev, holdLock, write, holders, waiters, nholders, nwriters, H, W)
    requires l < |W| && Apart(H, W)
    ensures var h := |lockNext|;
            Queues(AppendNext(lockNext + [NULL], W[l], h), pprev + [Unlinked], holdLock + [l], write + [w],
                   holders, waiters[l := Head(W[l] + [h])], nholders, nwriters, H, W[l := W[l] + [h]])
  {
    var h, next0, owner' := |lockNext|, lockNext + [NULL], holdLock + [l];
    assert h !in W[l];
    FamilyFrame(lockNext, next0, holders, H, holdLock, owner');
    FamilyFrame(lockNext, next0, waiters, W, holdLock, owner');
    FamilyAppend(next0, waiters, W, owner', l, h);
    FamilyFrame(next0, AppendNext(next0, W[l], h), holders, H, owner', owner');
    forall m | 0 <= m < |H|
      ensures LinkedBack(pprev + [Unlinked], H[m], m) && Writers(write + [w], H[m]) == Writers(write, H[m])
    {
      WritersFrame(write, write + [w], H[m]);
    }
  }

  /** The `k`th waiter of lock `l` leaves the queue. */
  lemma QueuesUnqueue(lockNext: seq<Ref>, pprev: seq<Link>, holdLock: seq<nat>, write: seq<bool>,
                      holders: seq<Ref>, waiters: seq<Ref>, nholders: seq<nat>, nwriters: seq<nat>,
                      H: seq<seq<nat>>, W: seq<seq<nat>>, l: nat, k: nat)
    requires Queues(lockNext, pprev, holdLock, write, holders, waiters, nholders, nwriters, H, W)
    requires l < |W| && k < |W[l]| && Apart(H, W)
    ensures Queues(RemoveNext(lockNext, W[l], k), pprev, holdLock, write, holders,
                   waiters[l := if k == 0 then lockNext[W[l][0]] else waiters[l]], nholders, nwriters,
                   H, W[l := Without(W[l], k)])
    ensures W[l][k] !in H[l] && W[l][k] !in Without(W[l], k) && holdLock[W[l][k]] == l && W[l][k] < |lockNext|
  {
    WithoutDistinct(W[l], k);
    FamilyRemove(lockNext, waiters, W, holdLock, l, k);
    FamilyFrame(lockNext, RemoveNext(lockNext, W[l], k), holders, H, holdLock, holdLock);
  }

  /** A request in neither list of lock `l` becomes its newest holder. */
  lemma QueuesPush(lockNext: seq<Ref>, pprev: seq<Link>, holdLock: seq<nat>, write: seq<bool>,
                   holders: seq<Ref>, waiters: seq<Ref>, nholders: seq<nat>, nwriters: seq<nat>,
                   H: seq<seq<nat>>, W: seq<seq<nat>>, l: nat, h: nat)
    requires Queues(lockNext, pprev, holdLock, write, holders, waiters, nholders, nwriters, H, W)
    requires l < |H| && h < |lockNext| && holdLock[h] == l && h !in H[l] && h !in W[l]
    ensures Queues(lockNext[h := holders[l]], PushPprev(pprev, H[l], h, l), holdLock, write,
                   holders[l := h], waiters, nholders[l := nholders[l] + 1],
                   nwriters[l := nwriters[l] + if write[h] then 1 else 0], H[l := [h] + H[l]], W)
  {
    FamilyPush(lockNext, holders, H, holdLock, l, h);
    forall m, i | 0 <= m < |W| && 0 <= i < |W[m]|
      ensures W[m][i] != h
    {
      assert W[m][i] in W[m] && holdLock[W[m][i]] == m;
    }
    FamilyFrame(lockNext, lockNext[h := holders[l]], waiters, W, holdLock, holdLock);
    LinkedBackPush(pprev, H[l], l, h);
    BackLinksUpdate(pprev, PushPprev(pprev, H[l], h, l), H, holdLock, l, [h] + H[l]);
    assert ([h] + H[l])[1..] == H[l];
  }

  /** The `k`th holder of lock `l` leaves. */
  lemma QueuesLeave(lockNext: seq<Ref>, pprev: seq<Link>, holdLock: seq<nat>, write: seq<bool>,
                    holders: seq<Ref>, waiters: seq<Ref>, nholders: seq<nat>, nwriters: seq<nat>,
                    H: seq<seq<nat>>, W: seq<seq<nat>>, l: nat, k: nat)
    requires Queues(lockNext, pprev, holdLock, write, holders, waiters, nholders, nwriters, H, W)
    requires l < |H| && k < |H[l]| && Apart(H, W)
    ensures nholders[l] > 0 && (write[H[l][k]] ==> nwriters[l] > 0)
    ensures var h, n := H[l][k], if k == 0 then lockNext[H[l][0]] else holders[l];
            Queues(RemoveNext(lockNext, H[l], k), LeavePprev(pprev, H[l], k), holdLock, write,
                   holders[l := n], waiters, nholders[l := nholders[l] - 1],
                   nwriters[l := nwriters[l] - if write[h] then 1 else 0], H[l := Without(H[l], k)], W)
  {
    OthersUnaffected(lockNext, waiters, H, W, holdLock, l, k);
    FamilyRemove(lockNext, holders, H, holdLock, l, k);
    LinkedBackLeave(pprev, H[l], l, k);
    BackLinksUpdate(pprev, LeavePprev(pprev, H[l], k), H, holdLock, l, Without(H[l], k));
    CountsLeave(write, nholders, nwriters, H, l, k);
    hide Family, BackLinks, Counts, LinkedBack, Apart;
  }

  lemma OthersUnaffected(next: seq<Ref>, firsts: seq<Ref>, H: seq<seq<nat>>, W: seq<seq<nat>>, owner: seq<nat>, l: nat,
                         k: nat)
    requires Family(next, firsts, W, owner) && Apart(H, W) && l < |H| && k < |H[l]|
    requires forall i | 0 <= i < |H[l]| :: H[l][i] < |next|
    ensures Family(RemoveNext(next, H[l], k), firsts, W, owner)
  {
  }

  lemma CountsLeave(write: seq<bool>, nholders: seq<nat>, nwriters: seq<nat>, H: seq<seq<nat>>, l: nat, k: nat)
    requires Counts(write, nholders, nwriters, H) && l < |H| && k < |H[l]|
    ensures nholders[l] > 0 && (write[H[l][k]] ==> nwriters[l] > 0)
    ensures Counts(write, nholders[l := nholders[l] - 1], nwriters[l := nwriters[l] - if write[H[l][k]] then 1 else 0],
                   H[l := Without(H[l], k)])
  {
    WritersPositive(write, H[l], k);
    WritersWithout(write, H[l], k);
  }

  // ---- Buckets and the free list ----

  ghost predicate Buckets(bucketNext: seq<Ref>, heads: seq<Ref>, lists: seq<seq<nat>>, home: seq<nat>,
                          lockKey: seq<Key>, except: int) {
    Family(bucketNext, heads, lists, home) && |bucketNext| == |home| && Hashed(home, lockKey, lists, except)
  }

  lemma BucketsShape(bucketNext: seq<Ref>, heads: seq<Ref>, lists: seq<seq<nat>>, home: seq<nat>, lockKey: seq<Key>,
                     except: int)
    requires Buckets(bucketNext, heads, lists, home, lockKey, except)
    ensures |heads| == |lists| == LOCK_BUCKETS + 1 && |bucketNext| == |home| == |lockKey|
  {
  }

  lemma BucketsPop(bucketNext: seq<Ref>, heads: seq<Ref>, lists: seq<seq<nat>>, home: seq<nat>, lockKey: seq<Key>)
    requires Buckets(bucketNext, heads, lists, home, lockKey, -1) && heads[FREE] != NULL
    ensures lists[FREE] != [] && var l, lists' := lists[FREE][0], lists[FREE := Without(lists[FREE], 0)];
            l == heads[FREE] && l < |home| && home[l] == FREE && Nowhere(lists', l) &&
            Buckets(bucketNext, heads[FREE := bucketNext[l]], lists', home, lockKey, l)
  {
  }

  lemma BucketsNew(bucketNext: seq<Ref>, heads: seq<Ref>, lists: seq<seq<nat>>, home: seq<nat>, lockKey: seq<Key>)
    requires Buckets(bucketNext, heads, lists, home, lockKey, -1)
    ensures Buckets(bucketNext + [NULL], heads, lists, home + [FREE], lockKey + [Key(0, 0)], |home|)
    ensures Nowhere(lists, |home|)
  {
  }

  lemma BucketsPut(bucketNext: seq<Ref>, heads: seq<Ref>, lists: seq<seq<nat>>, home: seq<nat>, lockKey: seq<Key>,
                   l: nat, key: Key)
    requires Buckets(bucketNext, heads, lists, home, lockKey, l) && l < |home| && home[l] == FREE && Nowhere(lists, l)
    requires forall m | 0 <= m < |home| && home[m] != FREE :: lockKey[m] != key
    ensures var b := BucketOf(key);
            Buckets(bucketNext[l := heads[b]], heads[b := l], lists[b := [l] + lists[b]], home[l := b],
                    lockKey[l := key], -1)
  {
    hide Family, BucketOf;
    var b := BucketOf(key);
    ListedAgain(bucketNext, heads, lists, home, l, b);
  }

  lemma HashedDrop(home: seq<nat>, lockKey: seq<Key>, lists: seq<seq<nat>>, l: nat, k: nat)
    requires Hashed(home, lockKey, lists, -1) && l < |home| && home[l] != FREE
    requires k < |lists[home[l]]| && lists[home[l]][k] == l
    requires forall m :: m in Without(lists[home[l]], k) <==> m in lists[home[l]] && m != l
    ensures var lists1 := lists[home[l] := Without(lists[home[l]], k)];
            Hashed(home[l := FREE], lockKey, lists1[FREE := [l] + lists1[FREE]], -1)
  {
    hide BucketOf;
    var home', lists1 := home[l := FREE], lists[home[l] := Without(lists[home[l]], k)];
    var lists' := lists1[FREE := [l] + lists1[FREE]];
    forall m | 0 <= m < |home|
      ensures m in lists'[home'[m]]
    {
      assert m in lists[home[m]];
    }
  }

  /** A lock leaves its bucket for the free list. */
  lemma BucketsDrop(bucketNext: seq<Ref>, heads: seq<Ref>, lists: seq<seq<nat>>, home: seq<nat>, lockKey: seq<Key>,
                    l: nat, k: nat)
    requires Buckets(bucketNext, heads, lists, home, lockKey, -1) && l < |home| && home[l] != FREE
    requires k < |lists[home[l]]| && lists[home[l]][k] == l
    ensures var b := home[l];
            var next1, heads1 := RemoveNext(bucketNext, lists[b], k),
              heads[b := if k == 0 then bucketNext[l] else heads[b]];
            var lists1 := lists[b := Without(lists[b], k)];
            Buckets(next1[l := heads1[FREE]], heads1[FREE := l], lists1[FREE := [l] + lists1[FREE]],
                    home[l := FREE], lockKey, -1)
  {
    var b := home[l];
    var next1, heads1 := RemoveNext(bucketNext, lists[b], k), heads[b := if k == 0 then bucketNext[l] else heads[b]];
    var lists1 := lists[b := Without(lists[b], k)];
    RemovedNowhere(bucketNext, heads, lists, home, b, k);
    HashedDrop(home, lockKey, lists, l, k);
    hide *;
    FamilyRemove(bucketNext, heads, lists, home, b, k);
    ListedAgain(next1, heads1, lists1, home, l, FREE);
  }

  lemma QueuesShape(lockNext: seq<Ref>, pprev: seq<Link>, holdLock: seq<nat>, write: seq<bool>,
                    holders: seq<Ref>, waiters: seq<Ref>, nholders: seq<nat>, nwriters: seq<nat>,
                    H: seq<seq<nat>>, W: seq<seq<nat>>)
    requires Queues(lockNext, pprev, holdLock, write, holders, waiters, nholders, nwriters, H, W)
    ensures |lockNext| == |pprev| == |holdLock| == |write|
    ensures |holders| == |waiters| == |nholders| == |nwriters| == |H| == |W|
    ensures forall l | 0 <= l < |H| :: Linked(lockNext, holders[l], H[l]) && Linked(lockNext, waiters[l], W[l])
  {
  }

  lemma RequestsShape(log: Log<nat, Key>, holdTask: seq<nat>, holdWrite: seq<bool>, holdLock: seq<nat>,
                      lockKey: seq<Key>, home: seq<nat>, H: seq<seq<nat>>, W: seq<seq<nat>>)
    requires Requests(log, holdTask, holdWrite, holdLock, lockKey, home, H, W)
    ensures |holdTask| == |holdWrite| == |holdLock| == |log| && |H| == |W| == |lockKey| == |home| && Apart(H, W)
    ensures forall h | 0 <= h < |log| :: holdLock[h] < |home| && log[h].task == holdTask[h] &&
              log[h].write == holdWrite[h]
    ensures forall h | 0 <= h < |log| && log[h].status == Waiting :: h in W[holdLock[h]] && home[holdLock[h]] != FREE
    ensures forall h | 0 <= h < |log| && log[h].status == Granted :: h in H[holdLock[h]] && home[holdLock[h]] != FREE
    ensures forall l, i | 0 <= l < |H| && 0 <= i < |H[l]| :: H[l][i] < |log|
    ensures forall l, i | 0 <= l < |W| && 0 <= i < |W[l]| :: W[l][i] < |log|
  {
  }

  // ---- Requests through the operations ----

  lemma RequestsNewLock(log: Log<nat, Key>, holdTask: seq<nat>, holdWrite: seq<bool>, holdLock: seq<nat>,
                        lockKey: seq<Key>, home: seq<nat>, H: seq<seq<nat>>, W: seq<seq<nat>>, key: Key)
    requires Requests(log, holdTask, holdWrite, holdLock, lockKey, home, H, W)
    ensures Requests(log, holdTask, holdWrite, holdLock, lockKey + [key], home + [FREE], H + [[]], W + [[]])
  {
  }

  lemma RequestsRekey(log: Log<nat, Key>, holdTask: seq<nat>, holdWrite: seq<bool>, holdLock: seq<nat>,
                      lockKey: seq<Key>, home: seq<nat>, H: seq<seq<nat>>, W: seq<seq<nat>>, l: nat, key: Key, b: nat)
    requires Requests(log, holdTask, holdWrite, holdLock, lockKey, home, H, W)
    requires l < |home| && home[l] == FREE
    ensures Requests(log, holdTask, holdWrite, holdLock, lockKey[l := key], home[l := b], H, W)
  {
  }

  lemma RequestsFree(log: Log<nat, Key>, holdTask: seq<nat>, holdWrite: seq<bool>, holdLock: seq<nat>,
                     lockKey: seq<Key>, home: seq<nat>, H: seq<seq<nat>>, W: seq<seq<nat>>, l: nat)
    requires Requests(log, holdTask, holdWrite, holdLock, lockKey, home, H, W)
    requires l < |home| && H[l] == [] && W[l] == []
    ensures Requests(log, holdTask, holdWrite, holdLock, lockKey, home[l := FREE], H, W)
  {
  }

  lemma RequestsArrive(log: Log<nat, Key>, holdTask: seq<nat>, holdWrite: seq<bool>, holdLock: seq<nat>,
                       lockKey: seq<Key>, home: seq<nat>, H: seq<seq<nat>>, W: seq<seq<nat>>, t: nat, l: nat, w: bool)
    requires Requests(log, holdTask, holdWrite, holdLock, lockKey, home, H, W)
    requires l < |home| && home[l] != FREE
    ensures Requests(Arrive(log, t, lockKey[l], w), holdTask + [t], holdWrite + [w], holdLock + [l], lockKey, home,
                     H, W[l := W[l] + [|log|]])
  {
  }

  lemma RequestsGrant(log: Log<nat, Key>, holdTask: seq<nat>, holdWrite: seq<bool>, holdLock: seq<nat>,
                      lockKey: seq<Key>, home: seq<nat>, H: seq<seq<nat>>, W: seq<seq<nat>>, l: nat, k: nat)
    requires Requests(log, holdTask, holdWrite, holdLock, lockKey, home, H, W)
    requires l < |W| && k < |W[l]| && Distinct(W[l])
    ensures W[l][k] < |log| && holdLock[W[l][k]] == l
    ensures Requests(Grant(log, W[l][k]), holdTask, holdWrite, holdLock, lockKey, home,
                     H[l := [W[l][k]] + H[l]], W[l := Without(W[l], k)])
  {
    var h := W[l][k];
    var r := log[h].(status := Granted);
    ListsGain(log, holdLock, H, Granted, h, r);
    ListsLose(log, holdLock, W, Waiting, h, k, r);
    AscendingWithout(W, l, k);
  }

  function ReleaseAt(log: Log<nat, Key>, h: nat): Log<nat, Key>
    requires h < |log|
  {
    log[h := log[h].(status := Released)]
  }

  lemma RequestsRelease(log: Log<nat, Key>, holdTask: seq<nat>, holdWrite: seq<bool>, holdLock: seq<nat>,
                        lockKey: seq<Key>, home: seq<nat>, H: seq<seq<nat>>, W: seq<seq<nat>>, l: nat, k: nat)
    requires Requests(log, holdTask, holdWrite, holdLock, lockKey, home, H, W)
    requires l < |H| && k < |H[l]| && Distinct(H[l])
    ensures H[l][k] < |log| && holdLock[H[l][k]] == l
    ensures Requests(ReleaseAt(log, H[l][k]), holdTask, holdWrite, holdLock, lockKey, home, H[l := Without(H[l], k)], W)
  {
    var h := H[l][k];
    var r := log[h].(status := Released);
    ListsLose(log, holdLock, H, Granted, h, k, r);
    ListsSkip(log, holdLock, W, Waiting, h, r);
  }

  // ---- What each task holds ----

  ghost predicate Owners(taskNext: seq<Ref>, taskHolds: seq<Ref>, holdTask: seq<nat>, log: Log<nat, Key>,
                         held: seq<seq<nat>>) {
    Family(taskNext, taskHolds, held, holdTask) && |taskNext| == |log| &&
    ListsAre(log, holdTask, held, Granted) && forall h | 0 <= h < |log| :: holdTask[h] < |held|
  }

  lemma OwnersShape(taskNext: seq<Ref>, taskHolds: seq<Ref>, holdTask: seq<nat>, log: Log<nat, Key>,
                    held: seq<seq<nat>>)
    requires Owners(taskNext, taskHolds, holdTask, log, held)
    ensures |taskNext| == |log| == |holdTask| && |taskHolds| == |held|
    ensures forall h | 0 <= h < |log| :: holdTask[h] < |held|
  {
  }

  lemma BucketsHashed(bucketNext: seq<Ref>, heads: seq<Ref>, lists: seq<seq<nat>>, home: seq<nat>, lockKey: seq<Key>)
    requires Buckets(bucketNext, heads, lists, home, lockKey, -1)
    ensures Hashed(home, lockKey, lists, -1)
  {
  }

  lemma HoldersSay(lockNext: seq<Ref>, pprev: seq<Link>, holdLock: seq<nat>, write: seq<bool>,
                   holders: seq<Ref>, waiters: seq<Ref>, nholders: seq<nat>, nwriters: seq<nat>,
                   H: seq<seq<nat>>, W: seq<seq<nat>>, l: nat)
    requires Queues(lockNext, pprev, holdLock, write, holders, waiters, nholders, nwriters, H, W) && l < |holders|
    ensures |holders| == |nholders| == |nwriters| == |H| && |write| == |lockNext| && Linked(lockNext, holders[l], H[l])
    ensures nholders[l] == 0 <==> H[l] == []
    ensures nwriters[l] == 0 <==> forall i | 0 <= i < |H[l]| :: !write[H[l][i]]
  {
    WritersZero(write, H[l]);
  }

  lemma HoldersClash(log: Log<nat, Key>, holdTask: seq<nat>, holdWrite: seq<bool>, holdLock: seq<nat>,
                     lockKey: seq<Key>, home: seq<nat>, H: seq<seq<nat>>, W: seq<seq<nat>>, h: nat)
    requires Requests(log, holdTask, holdWrite, holdLock, lockKey, home, H, W)
    requires h < |log| && log[h].status == Waiting
    ensures forall i | 0 <= i < |H[holdLock[h]]| ::
              var j := H[holdLock[h]][i];
              j < |log| && log[j].status == Granted && log[j].task == holdTask[j] &&
              (Clash(log[j], log[h]) <==> holdTask[j] != holdTask[h] && (holdWrite[h] || holdWrite[j]))
  {
  }

  lemma OwnersBegin(taskNext: seq<Ref>, taskHolds: seq<Ref>, holdTask: seq<nat>, log: Log<nat, Key>,
                    held: seq<seq<nat>>)
    requires Owners(taskNext, taskHolds, holdTask, log, held)
    ensures Owners(taskNext, taskHolds + [NULL], holdTask, log, held + [[]])
  {
  }

  lemma OwnersArrive(taskNext: seq<Ref>, taskHolds: seq<Ref>, holdTask: seq<nat>, log: Log<nat, Key>,
                     held: seq<seq<nat>>,
                     t: nat, key: Key, w: bool)
    requires Owners(taskNext, taskHolds, holdTask, log, held) && t < |held|
    ensures Owners(taskNext + [NULL], taskHolds, holdTask + [t], Arrive(log, t, key, w), held)
  {
  }

  lemma OwnersGrant(taskNext: seq<Ref>, taskHolds: seq<Ref>, holdTask: seq<nat>, log: Log<nat, Key>,
                    held: seq<seq<nat>>, h: nat)
    requires Owners(taskNext, taskHolds, holdTask, log, held) && h < |log| && log[h].status == Waiting
    ensures var t := holdTask[h];
            Owners(taskNext[h := taskHolds[t]], taskHolds[t := h], holdTask, Grant(log, h), held[t := [h] + held[t]])
  {
    var t := holdTask[h];
    assert h !in held[t];
    ListsGain(log, holdTask, held, Granted, h, log[h].(status := Granted));
    FamilyPush(taskNext, taskHolds, held, holdTask, t, h);
  }

  lemma OwnersRelease(taskNext: seq<Ref>, taskHolds: seq<Ref>, holdTask: seq<nat>, log: Log<nat, Key>,
                      held: seq<seq<nat>>, t: nat)
    requires Owners(taskNext, taskHolds, holdTask, log, held) && t < |held| && held[t] != []
    ensures var h := held[t][0];
            h == taskHolds[t] && h < |log| && log[h].status == Granted && log[h].task == log[h].task &&
            holdTask[h] == t &&
            Owners(taskNext, taskHolds[t := taskNext[h]], holdTask, ReleaseAt(log, h), held[t := Without(held[t], 0)])
  {
    var h := held[t][0];
    FamilyRemove(taskNext, taskHolds, held, holdTask, t, 0);
    ListsLose(log, holdTask, held, Granted, h, 0, log[h].(status := Released));
  }

  /** Looking only at the two lists of the lock decides whether the request may
      be granted. */
  lemma GrantSeenLocally(log: Log<nat, Key>, holdTask: seq<nat>, holdWrite: seq<bool>, holdLock: seq<nat>,
                         lockKey: seq<Key>, home: seq<nat>, lists: seq<seq<nat>>, H: seq<seq<nat>>, W: seq<seq<nat>>,
                         l: nat, k: nat)
    requires Requests(log, holdTask, holdWrite, holdLock, lockKey, home, H, W) && Hashed(home, lockKey, lists, -1)
    requires l < |W| && k < |W[l]|
    ensures var h := W[l][k];
            MayGrant(log, h) <==>
            (forall i | 0 <= i < |H[l]| :: holdTask[H[l][i]] == holdTask[h] || !(holdWrite[h] || holdWrite[H[l][i]])) &&
            (forall i | 0 <= i < k :: holdTask[W[l][i]] == holdTask[h] || !(holdWrite[h] || holdWrite[W[l][i]]))
  {
    var h := W[l][k];
    assert h < |log| && holdLock[h] == l && log[h].status == Waiting;
    forall i | 0 <= i < |H[l]|
      ensures H[l][i] < |log| && log[H[l][i]].status == Granted
      ensures Clash(log[H[l][i]], log[h]) <==> holdTask[H[l][i]] != holdTask[h] && (holdWrite[h] || holdWrite[H[l][i]])
    {
      assert holdLock[H[l][i]] == l;
    }
    forall i | 0 <= i < k
      ensures W[l][i] < h && log[W[l][i]].status == Waiting
      ensures Clash(log[W[l][i]], log[h]) <==> holdTask[W[l][i]] != holdTask[h] && (holdWrite[h] || holdWrite[W[l][i]])
    {
      assert holdLock[W[l][i]] == l;
    }
    forall j | 0 <= j < |log| && Clash(log[j], log[h]) && log[j].status != Released
      ensures holdLock[j] == l && (log[j].status == Granted ==> j in H[l])
      ensures log[j].status == Waiting && j < h ==> exists i :: 0 <= i < k && W[l][i] == j
    {
      ClashHere(log, holdTask, holdWrite, holdLock, lockKey, home, lists, H, W, l, k, j);
    }
    hide Requests, Hashed;
  }

  lemma ClashHere(log: Log<nat, Key>, holdTask: seq<nat>, holdWrite: seq<bool>, holdLock: seq<nat>,
                  lockKey: seq<Key>, home: seq<nat>, lists: seq<seq<nat>>, H: seq<seq<nat>>, W: seq<seq<nat>>,
                  l: nat, k: nat, j: nat)
    requires Requests(log, holdTask, holdWrite, holdLock, lockKey, home, H, W) && Hashed(home, lockKey, lists, -1)
    requires l < |W| && k < |W[l]| && j < |log| && W[l][k] < |log|
    requires Clash(log[j], log[W[l][k]]) && log[j].status != Released
    ensures holdLock[j] == l && (log[j].status == Granted ==> j in H[l])
    ensures log[j].status == Waiting && j < W[l][k] ==> exists i :: 0 <= i < k && W[l][i] == j
  {
    hide BucketOf;
    var h := W[l][k];
    assert holdLock[h] == l && log[h].status == Waiting;
    assert lockKey[holdLock[j]] == lockKey[l];
    if log[j].status == Waiting && j < h {
      var i :| 0 <= i < |W[l]| && W[l][i] == j;
      assert i < k;
    }
  }

  /** The locks, field by field. */
  datatype Locks = Locks(key: seq<Key>, holders: seq<Ref>, waiters: seq<Ref>, nholders: seq<nat>, nwriters: seq<nat>,
                         bucketNext: seq<Ref>)

  /** The holds, in order of arrival, field by field. */
  datatype Holds = Holds(task: seq<nat>, lock: seq<nat>, write: seq<bool>, taskNext: seq<Ref>, lockNext: seq<Ref>,
                         pprev: seq<Link>)

  /** Holders and waiters of each lock, holds of each task, locks of each bucket
      and which one each lock is in. */
  datatype View = View(H: seq<seq<nat>>, W: seq<seq<nat>>, held: seq<seq<nat>>, lists: seq<seq<nat>>, home: seq<nat>)

  lemma OwnersFirst(taskNext: seq<Ref>, taskHolds: seq<Ref>, holdTask: seq<nat>, log: Log<nat, Key>,
                    held: seq<seq<nat>>, t: nat)
    requires Owners(taskNext, taskHolds, holdTask, log, held) && t < |taskHolds|
    ensures t < |held| && |taskNext| == |log| && taskHolds[t] == Head(held[t])
  {
  }

  lemma OwnersNone(taskNext: seq<Ref>, taskHolds: seq<Ref>, holdTask: seq<nat>, log: Log<nat, Key>, held: seq<seq<nat>>,
                   t: nat)
    requires Owners(taskNext, taskHolds, holdTask, log, held) && t < |taskHolds| && taskHolds[t] == NULL
    ensures |holdTask| == |log|
    ensures forall h | 0 <= h < |log| && holdTask[h] == t :: log[h].status != Granted
  {
  }

  lemma QueuesBack(lockNext: seq<Ref>, pprev: seq<Link>, holdLock: seq<nat>, write: seq<bool>,
                   holders: seq<Ref>, waiters: seq<Ref>, nholders: seq<nat>, nwriters: seq<nat>,
                   H: seq<seq<nat>>, W: seq<seq<nat>>, l: nat)
    requires Queues(lockNext, pprev, holdLock, write, holders, waiters, nholders, nwriters, H, W) && l < |H|
    ensures LinkedBack(pprev, H[l], l)
  {
  }

  /** Giving up one hold at a time keeps the order too. */
  lemma ReleaseAtKeepsOrder(log: Log<nat, Key>, h: nat)
    requires FirstComeFirst(log) && h < |log| && log[h].status == Granted
    ensures FirstComeFirst(ReleaseAt(log, h))
  {
  }

  /** Some of what the task held is given up. */
  predicate PartReleased(was: Log<nat, Key>, log: Log<nat, Key>, t: nat) {
    |log| == |was| && forall i | 0 <= i < |log| :: log[i] == was[i] || log[i] == ReleaseOne(was[i], t)
  }

  lemma PartReleasedMore(was: Log<nat, Key>, log: Log<nat, Key>, t: nat, h: int)
    requires PartReleased(was, log, t)
    ensures 0 <= h < |log| && log[h].task == t && log[h].status == Granted ==> PartReleased(was, ReleaseAt(log, h), t)
  {
  }

  predicate SameBut(a: seq<Ref>, b: seq<Ref>, t: nat) {
    t < |a| == |b| && a == b[t := a[t]]
  }

  lemma SameButHere(a: seq<Ref>, b: seq<Ref>, t: nat)
    requires SameBut(a, b, t)
    ensures t < |a| == |b| && a == b[t := a[t]]
  {
  }

  lemma SameButUpdate(a: seq<Ref>, b: seq<Ref>, t: nat, x: Ref)
    requires SameBut(a, b, t)
    ensures t < |a| == |b| && SameBut(a[t := x], b, t)
  {
  }

  /** What the holder pointed back at now points at its successor. */
  method Bypass(lockNext: seq<Ref>, holders: seq<Ref>, back: Link, ahead: Ref, ghost s: seq<nat>, l: nat, ghost k: nat)
    returns (lockNext': seq<Ref>, holders': seq<Ref>)
    requires l < |holders| && k < |s| && (forall i | 0 <= i < |s| :: s[i] < |lockNext|)
    requires Linked(lockNext, holders[l], s) && back == Points(s, l, k) && ahead == lockNext[s[k]]
    ensures lockNext' == RemoveNext(lockNext, s, k)
    ensures holders' == holders[l := if k == 0 then lockNext[s[0]] else holders[l]]
  {
    match back
    case HeadOf(l) =>
      lockNext', holders' := lockNext, holders[l := ahead];
    case NextOf(p) =>
      lockNext', holders' := lockNext[p := ahead], holders;
  }

  lemma LeaveSame(lockNext: seq<Ref>, first: Ref, s: seq<nat>, pprev: seq<Link>, k: nat)
    requires Linked(lockNext, first, s) && k < |s| && |pprev| == |lockNext|
    ensures lockNext[s[k]] != NULL ==> 0 <= lockNext[s[k]] < |pprev|
    ensures LeavePprev(pprev, s, k) == if lockNext[s[k]] != NULL then pprev[lockNext[s[k]] := pprev[s[k]]] else pprev
  {
  }

  class LockTable {
    var locks: Locks
    /** The bucket heads, and after them the head of the free list. */
    var heads: seq<Ref>
    var holds: Holds
    /** The head of each task's list of holds. */
    var taskHolds: seq<Ref>

    /** The history the table stands for, and the lists its links form. */
    ghost var log: Log<nat, Key>
    ghost var view: View

    /** `except` is a lock just taken into use; `taskHeads` are the heads of the
        tasks' lists, as seen while one of them is given up. */
    ghost predicate ValidBut(except: int, taskHeads: seq<Ref>)
      reads this
    {
      Buckets(locks.bucketNext, heads, view.lists, view.home, locks.key, -1) &&
      Used(view.home, view.H, view.W, except) &&
      Queues(holds.lockNext, holds.pprev, holds.lock, holds.write, locks.holders, locks.waiters, locks.nholders,
             locks.nwriters, view.H, view.W) &&
      Requests(log, holds.task, holds.write, holds.lock, locks.key, view.home, view.H, view.W) &&
      Owners(holds.taskNext, taskHeads, holds.task, log, view.held) && FirstComeFirst(log)
    }

    ghost predicate Valid()
      reads this
    {
      ValidBut(-1, taskHolds)
    }

    constructor ()
      ensures Valid() && log == [] && taskHolds == []
    {
      locks, holds, taskHolds := Locks([], [], [], [], [], []), Holds([], [], [], [], [], []), [];
      heads := seq(LOCK_BUCKETS + 1, _ => NULL);
      log, view := [], View([], [], [], seq(LOCK_BUCKETS + 1, _ => []), []);
    }

    /** A new task: it holds nothing. */
    method Begin() returns (t: nat)
      requires Valid()
      modifies this`taskHolds, this`view
      ensures Valid() && t == |old(taskHolds)| && |taskHolds| == t + 1
    {
      OwnersBegin(holds.taskNext, taskHolds, holds.task, log, view.held);
      hide Buckets, Used, Queues, Requests, Owners, FirstComeFirst;
      t := |taskHolds|;
      taskHolds, view := taskHolds + [NULL], view.(held := view.held + [[]]);
    }

    /** The lock in use for `key`, or a recycled or new one put into use. */
    method Get(key: Key) returns (l: nat)
      requires Valid()
      modifies this`locks, this`heads, this`view
      ensures ValidBut(l, taskHolds) && l < |locks.key| && locks.key[l] == key && l < |view.home| &&
              view.home[l] != FREE
    {
      hide Buckets, Used, Queues, Requests, Owners, FirstComeFirst, BucketOf;
      var b := BucketOf(key);
      BucketsShape(locks.bucketNext, heads, view.lists, view.home, locks.key, -1);
      var found := Find(key);
      if found != NULL {
        UsedBut(view.home, view.H, view.W, found);
        return found;
      }
      l := Unused();
      BucketsShape(locks.bucketNext, heads, view.lists, view.home, locks.key, l);
      UsedNow(view.home, view.H, view.W, l, b);
      BucketsPut(locks.bucketNext, heads, view.lists, view.home, locks.key, l, key);
      RequestsRekey(log, holds.task, holds.write, holds.lock, locks.key, view.home, view.H, view.W, l, key, b);
      locks := locks.(key := locks.key[l := key], bucketNext := locks.bucketNext[l := heads[b]]);
      heads := heads[b := l];
      view := view.(lists := view.lists[b := [l] + view.lists[b]], home := view.home[l := b]);
    }

    /** The lock in use for `key`, if there is one: one bucket is walked. */
    method Find(key: Key) returns (found: Ref)
      requires Buckets(locks.bucketNext, heads, view.lists, view.home, locks.key, -1)
      ensures found == NULL || 0 <= found < |locks.key|
      ensures found != NULL ==> locks.key[found] == key && view.home[found] != FREE
      ensures found == NULL ==> forall m | 0 <= m < |view.home| && view.home[m] != FREE :: locks.key[m] != key
    {
      var b := BucketOf(key);
      assert OwnedBy(view.home, view.lists[b], b) && Linked(locks.bucketNext, heads[b], view.lists[b]);
      NoSuchLock(key);
      hide Family, Hashed, BucketOf;
      found := heads[b];
      ghost var i := 0;
      while found != NULL
        invariant 0 <= i <= |view.lists[b]| && found == if i < |view.lists[b]| then view.lists[b][i] else NULL
        invariant forall j | 0 <= j < i :: locks.key[view.lists[b][j]] != key
        decreases |view.lists[b]| - i
      {
        if locks.key[found] == key {
          return;
        }
        found := locks.bucketNext[found];
        i := i + 1;
      }
    }

    /** A key not found in its bucket is found nowhere. */
    lemma NoSuchLock(key: Key)
      requires Buckets(locks.bucketNext, heads, view.lists, view.home, locks.key, -1)
      ensures (forall j | 0 <= j < |view.lists[BucketOf(key)]| :: locks.key[view.lists[BucketOf(key)][j]] != key) ==>
                forall m | 0 <= m < |view.home| && view.home[m] != FREE :: locks.key[m] != key
    {
    }

    /** A lock taken off the free list, or a new one, in no bucket yet. */
    method Unused() returns (l: nat)
      requires Valid()
      modifies this`locks, this`heads, this`view
      ensures Buckets(locks.bucketNext, heads, view.lists, view.home, locks.key, l) && Nowhere(view.lists, l)
      ensures view.held == old(view).held && l < |locks.key| && view.home[l] == FREE &&
              Used(view.home, view.H, view.W, -1)
      ensures Queues(holds.lockNext, holds.pprev, holds.lock, holds.write, locks.holders, locks.waiters, locks.nholders,
                     locks.nwriters, view.H, view.W)
      ensures Requests(log, holds.task, holds.write, holds.lock, locks.key, view.home, view.H, view.W)
      ensures forall m | 0 <= m < |view.home| && view.home[m] != FREE :: m < |old(view.home)| &&
                old(view.home)[m] == view.home[m] && old(locks.key)[m] == locks.key[m]
      ensures forall b | 0 <= b < LOCK_BUCKETS :: view.lists[b] == old(view.lists)[b]
    {
      hide Buckets, Used, Queues, Requests, Owners, FirstComeFirst;
      BucketsShape(locks.bucketNext, heads, view.lists, view.home, locks.key, -1);
      if heads[FREE] != NULL {
        BucketsPop(locks.bucketNext, heads, view.lists, view.home, locks.key);
        l := heads[FREE];
        heads, view := heads[FREE := locks.bucketNext[l]],
          view.(lists := view.lists[FREE := Without(view.lists[FREE], 0)]);
      } else {
        l := |locks.key|;
        BucketsNew(locks.bucketNext, heads, view.lists, view.home, locks.key);
        QueuesNewLock(holds.lockNext, holds.pprev, holds.lock, holds.write, locks.holders, locks.waiters,
                      locks.nholders, locks.nwriters, view.H, view.W);
        RequestsNewLock(log, holds.task, holds.write, holds.lock, locks.key, view.home, view.H, view.W, Key(0, 0));
        UsedNewLock(view.home, view.H, view.W);
        locks := Locks(locks.key + [Key(0, 0)], locks.holders + [NULL], locks.waiters + [NULL],
                       locks.nholders + [0], locks.nwriters + [0], locks.bucketNext + [NULL]);
        view := view.(home := view.home + [FREE], H := view.H + [[]], W := view.W + [[]]);
      }
    }

    /** A request arrives: its lock is found or put into use, and it joins the
        end of the queue. */
    method Request(t: nat, key: Key, write: bool) returns (h: nat)
      requires Valid() && t < |taskHolds|
      modifies this
      ensures Valid() && h == |old(log)| && log == Arrive(old(log), t, key, write) && taskHolds == old(taskHolds)
    {
      hide Buckets, Used, Queues, Requests, Owners, FirstComeFirst, BucketOf;
      var l := Get(key);
      h := Enqueue(l, t, write);
    }

    /** A new record at the end of the queue of lock `l`. */
    method Enqueue(l: nat, t: nat, write: bool) returns (h: nat)
      requires ValidBut(l, taskHolds) && l < |locks.key| && l < |view.home| && view.home[l] != FREE && t < |taskHolds|
      modifies this`holds, this`locks, this`log, this`view
      ensures Valid() && h == |old(log)| && log == Arrive(old(log), t, old(locks).key[l], write)
    {
      hide Buckets, Used, Queues, Requests, Owners, FirstComeFirst, Linked, AppendNext, Head;
      EnqueueKeeps(l, t, write);
      h := |holds.task|;
      var next, first := AppendRecord(holds.lockNext, locks.waiters[l], view.W[l]);
      holds := Holds(holds.task + [t], holds.lock + [l], holds.write + [write], holds.taskNext + [NULL], next,
                     holds.pprev + [Unlinked]);
      log := Arrive(log, t, locks.key[l], write);
      locks := locks.(waiters := locks.waiters[l := first]);
      view := view.(W := view.W[l := view.W[l] + [h]]);
    }

    lemma EnqueueKeeps(l: nat, t: nat, write: bool)
      requires ValidBut(l, taskHolds) && l < |locks.key| && l < |view.home| && view.home[l] != FREE && t < |taskHolds|
      ensures l < |view.W| == |locks.waiters| && |log| == |holds.task| == |holds.lockNext| &&
              (view.W[l] != [] ==> view.W[l][|view.W[l]| - 1] < |holds.lockNext|)
      ensures Linked(holds.lockNext, locks.waiters[l], view.W[l])
      ensures var h, log' := |log|, Arrive(log, t, locks.key[l], write);
              var W' := view.W[l := view.W[l] + [h]];
              Used(view.home, view.H, W', -1) && FirstComeFirst(log') &&
              Queues(AppendNext(holds.lockNext + [NULL], view.W[l], h), holds.pprev + [Unlinked], holds.lock + [l],
                     holds.write + [write], locks.holders, locks.waiters[l := Head(view.W[l] + [h])], locks.nholders,
                     locks.nwriters, view.H, W') &&
              Requests(log', holds.task + [t], holds.write + [write], holds.lock + [l], locks.key, view.home,
                       view.H, W') &&
              Owners(holds.taskNext + [NULL], taskHolds, holds.task + [t], log', view.held)
    {
      hide Buckets, Used, Queues, Requests, Owners, FirstComeFirst, Linked;
      RequestsShape(log, holds.task, holds.write, holds.lock, locks.key, view.home, view.H, view.W);
      QueuesShape(holds.lockNext, holds.pprev, holds.lock, holds.write, locks.holders, locks.waiters, locks.nholders,
                  locks.nwriters, view.H, view.W);
      LinkedEnds(holds.lockNext, locks.waiters[l], view.W[l]);
      OwnersShape(holds.taskNext, taskHolds, holds.task, log, view.held);
      QueuesArrive(holds.lockNext, holds.pprev, holds.lock, holds.write, locks.holders, locks.waiters, locks.nholders,
                   locks.nwriters, view.H, view.W, l, write);
      RequestsArrive(log, holds.task, holds.write, holds.lock, locks.key, view.home, view.H, view.W, t, l, write);
      OwnersArrive(holds.taskNext, taskHolds, holds.task, log, view.held, t, locks.key[l], write);
      StepKeepsOrder(log, Arrive(log, t, locks.key[l], write));
      UsedJoined(view.home, view.H, view.W, l, view.W[l] + [|log|]);
    }

    /** A task holding lock `l` that `t` must wait for. */
    method Conflict(l: nat, t: nat, write: bool) returns (holder: Ref)
      requires Valid() && l < |locks.holders|
      ensures |view.H| == |locks.holders| && forall i | 0 <= i < |view.H[l]| ::
                view.H[l][i] < |holds.task| && view.H[l][i] < |holds.write|
      ensures holder == NULL <==> forall i | 0 <= i < |view.H[l]| ::
                holds.task[view.H[l][i]] == t || !(write || holds.write[view.H[l][i]])
      ensures holder != NULL ==> exists i | 0 <= i < |view.H[l]| ::
                holds.task[view.H[l][i]] == holder && holder != t && (write || holds.write[view.H[l][i]])
    {
      hide Buckets, Used, Queues, Requests, Owners, FirstComeFirst;
      RequestsShape(log, holds.task, holds.write, holds.lock, locks.key, view.home, view.H, view.W);
      HoldersSay(holds.lockNext, holds.pprev, holds.lock, holds.write, locks.holders, locks.waiters, locks.nholders,
                 locks.nwriters, view.H, view.W, l);
      if (if write then locks.nholders[l] == 0 else locks.nwriters[l] == 0) {
        return NULL;
      }
      var cur := locks.holders[l];
      ghost var i := 0;
      while cur != NULL
        invariant 0 <= i <= |view.H[l]| && cur == if i < |view.H[l]| then view.H[l][i] else NULL
        invariant forall j | 0 <= j < i :: holds.task[view.H[l][j]] == t || !(write || holds.write[view.H[l][j]])
        decreases |view.H[l]| - i
      {
        if holds.task[cur] != t && (write || holds.write[cur]) {
          return holds.task[cur];
        }
        cur := holds.lockNext[cur];
        i := i + 1;
      }
      return NULL;
    }

    /** Whether a conflicting request is ahead of `h` in its queue. */
    method QueuedBehind(h: nat, ghost k: nat) returns (behind: bool)
      requires Valid() && h < |log| && holds.lock[h] < |view.W| && k < |view.W[holds.lock[h]]| &&
               view.W[holds.lock[h]][k] == h
      ensures behind <==> exists i | 0 <= i < k ::
                holds.task[view.W[holds.lock[h]][i]] != holds.task[h] &&
                (holds.write[h] || holds.write[view.W[holds.lock[h]][i]])
    {
      hide Buckets, Used, Queues, Requests, Owners, FirstComeFirst;
      RequestsShape(log, holds.task, holds.write, holds.lock, locks.key, view.home, view.H, view.W);
      QueuesShape(holds.lockNext, holds.pprev, holds.lock, holds.write, locks.holders, locks.waiters, locks.nholders,
                  locks.nwriters, view.H, view.W);
      ghost var s := view.W[holds.lock[h]];
      var cur := locks.waiters[holds.lock[h]];
      ghost var i := 0;
      while cur != h
        invariant 0 <= i <= k && cur == s[i]
        invariant forall j | 0 <= j < i :: holds.task[s[j]] == holds.task[h] || !(holds.write[h] || holds.write[s[j]])
        decreases k - i
      {
        if holds.task[cur] != holds.task[h] && (holds.write[h] || holds.write[cur]) {
          return true;
        }
        cur := holds.lockNext[cur];
        i := i + 1;
      }
      assert i == k;
      return false;
    }

    /** What a waiting request looks at each time round its loop: it may stop
        waiting exactly when the history lets it be granted, and a holder it is
        told to wait for really is in its way. */
    method Look(h: nat) returns (holder: Ref, behind: bool)
      requires Valid() && h < |log| && log[h].status == Waiting
      ensures holder == NULL && !behind <==> MayGrant(log, h)
      ensures holder != NULL ==>
                exists j | 0 <= j < |log| :: log[j].task == holder && log[j].status == Granted && Clash(log[j], log[h])
    {
      hide Buckets, Used, Queues, Requests, Owners, FirstComeFirst, MayGrant, Clash;
      RequestsShape(log, holds.task, holds.write, holds.lock, locks.key, view.home, view.H, view.W);
      ghost var k :| 0 <= k < |view.W[holds.lock[h]]| && view.W[holds.lock[h]][k] == h;
      BucketsHashed(locks.bucketNext, heads, view.lists, view.home, locks.key);
      GrantSeenLocally(log, holds.task, holds.write, holds.lock, locks.key, view.home, view.lists, view.H, view.W,
                       holds.lock[h], k);
      HoldersClash(log, holds.task, holds.write, holds.lock, locks.key, view.home, view.H, view.W, h);
      QueuesShape(holds.lockNext, holds.pprev, holds.lock, holds.write, locks.holders, locks.waiters, locks.nholders,
                  locks.nwriters, view.H, view.W);
      holder := Conflict(holds.lock[h], holds.task[h], holds.write[h]);
      behind := QueuedBehind(h, k);
    }

    /** A request that waits no longer leaves the queue and holds the lock. */
    method Take(h: nat)
      requires Valid() && MayGrant(log, h)
      modifies this`holds, this`locks, this`taskHolds, this`log, this`view
      ensures Valid() && log == Grant(old(log), h) && |taskHolds| == |old(taskHolds)|
    {
      hide Buckets, Used, Queues, Requests, Owners, FirstComeFirst, Linked, RemoveNext, PushPprev, MayGrant, Grant;
      ghost var k := TakeKeeps(h);
      var l, t := holds.lock[h], holds.task[h];
      var next, first := Unlink(holds.lockNext, locks.waiters[l], view.W[l], h, k);
      var pprev := PointBack(holds.pprev, locks.holders[l], view.H[l], h, l);
      log := Grant(log, h);
      view := view.(W := view.W[l := Without(view.W[l], k)], H := view.H[l := [h] + view.H[l]],
                    held := view.held[t := [h] + view.held[t]]);
      holds := holds.(lockNext := next[h := locks.holders[l]], pprev := pprev,
                      taskNext := holds.taskNext[h := taskHolds[t]]);
      locks := locks.(waiters := locks.waiters[l := first], holders := locks.holders[l := h],
                      nholders := locks.nholders[l := locks.nholders[l] + 1],
                      nwriters := locks.nwriters[l := locks.nwriters[l] + if holds.write[h] then 1 else 0]);
      taskHolds := taskHolds[t := h];
    }

    ghost predicate InQueue(h: nat, k: nat)
      reads this
    {
      |view.H| == |view.W| && |holds.lock| == |holds.task| && |holds.lock| == |holds.write| == |holds.taskNext| &&
      h < |holds.lock| && holds.lock[h] < |view.W| &&
      |holds.lock| == |holds.lockNext| == |holds.pprev| && |view.W| == |locks.waiters| == |locks.holders| &&
      |view.W| == |locks.nholders| == |locks.nwriters| && holds.task[h] < |view.held| == |taskHolds| &&
      k < |view.W[holds.lock[h]]| && view.W[holds.lock[h]][k] == h &&
      Linked(holds.lockNext, locks.waiters[holds.lock[h]], view.W[holds.lock[h]]) &&
      locks.holders[holds.lock[h]] == Head(view.H[holds.lock[h]]) && |log| == |holds.lock| &&
      forall i | 0 <= i < |view.H[holds.lock[h]]| :: view.H[holds.lock[h]][i] < |holds.pprev|
    }

    lemma TakeKeeps(h: nat) returns (k: nat)
      requires Valid() && MayGrant(log, h)
      ensures InQueue(h, k)
      ensures var l, t, log' := holds.lock[h], holds.task[h], Grant(log, h);
              var H', W' := view.H[l := [h] + view.H[l]], view.W[l := Without(view.W[l], k)];
              Used(view.home, H', W', -1) && FirstComeFirst(log') &&
              
              Queues(RemoveNext(holds.lockNext, view.W[l], k)[h := locks.holders[l]],
                     PushPprev(holds.pprev, view.H[l], h, l),
                     holds.lock, holds.write, locks.holders[l := h],
                     locks.waiters[l := if k == 0 then holds.lockNext[h] else locks.waiters[l]],
                     locks.nholders[l := locks.nholders[l] + 1],
                     locks.nwriters[l := locks.nwriters[l] + if holds.write[h] then 1 else 0], H', W') &&
              Requests(log', holds.task, holds.write, holds.lock, locks.key, view.home, H', W') &&
              Owners(holds.taskNext[h := taskHolds[t]], taskHolds[t := h], holds.task, log',
                     view.held[t := [h] + view.held[t]])
    {
      hide Buckets, Used, Queues, Requests, Owners, FirstComeFirst, Linked, RemoveNext, PushPprev;
      RequestsShape(log, holds.task, holds.write, holds.lock, locks.key, view.home, view.H, view.W);
      QueuesShape(holds.lockNext, holds.pprev, holds.lock, holds.write, locks.holders, locks.waiters,
                  locks.nholders, locks.nwriters, view.H, view.W);
      OwnersShape(holds.taskNext, taskHolds, holds.task, log, view.held);
      var l := holds.lock[h];
      k :| 0 <= k < |view.W[l]| && view.W[l][k] == h;
      LinkedEnds(holds.lockNext, locks.waiters[l], view.W[l]);
      LinkedEnds(holds.lockNext, locks.holders[l], view.H[l]);
      QueuesUnqueue(holds.lockNext, holds.pprev, holds.lock, holds.write, locks.holders, locks.waiters,
                    locks.nholders, locks.nwriters, view.H, view.W, l, k);
      var W' := view.W[l := Without(view.W[l], k)];
      QueuesPush(RemoveNext(holds.lockNext, view.W[l], k), holds.pprev, holds.lock, holds.write, locks.holders,
                 locks.waiters[l := if k == 0 then holds.lockNext[h] else locks.waiters[l]],
                 locks.nholders, locks.nwriters, view.H, W', l, h);
      RequestsGrant(log, holds.task, holds.write, holds.lock, locks.key, view.home, view.H, view.W, l, k);
      OwnersGrant(holds.taskNext, taskHolds, holds.task, log, view.held, h);
      StepKeepsOrder(log, Grant(log, h));
      UsedTaken(view.home, view.H, view.W, l, [h] + view.H[l], W'[l]);
    }

    /** A completed task gives up everything it holds; locks nobody wants any
        more are recycled. `fatal` would be a count out of step. */
    method GiveUp(t: nat) returns (fatal: bool)
      requires Valid() && t < |taskHolds|
      modifies this
      ensures !fatal && Valid() && log == Release(old(log), t) && |taskHolds| == |old(taskHolds)|
    {
      hide Buckets, Used, Queues, Requests, Owners, FirstComeFirst, Release;
      fatal := LeaveAll(t);
      taskHolds := taskHolds[t := NULL];
    }

    method LeaveAll(t: nat) returns (fatal: bool)
      requires Valid() && t < |taskHolds|
      modifies this`holds, this`locks, this`heads, this`log, this`view
      ensures !fatal && ValidBut(-1, taskHolds[t := NULL]) && log == Release(old(log), t)
    {
      var cur := taskHolds[t];
      ghost var was, taskHeads := log, taskHolds;
      assert PartReleased(was, log, t) && SameBut(taskHeads, taskHolds, t);
      hide *;
      fatal := false;
      while cur != NULL
        invariant ValidBut(-1, taskHeads) && t < |taskHeads| && taskHeads[t] == cur && !fatal
        invariant PartReleased(was, log, t) && SameBut(taskHeads, taskHolds, t)
        decreases if t < |view.held| then |view.held[t]| else 0
      {
        var next;
        next, fatal := LeaveOne(t, cur, taskHeads, was);
        SameButUpdate(taskHeads, taskHolds, t, next);
        taskHeads := taskHeads[t := next];
        cur := next;
      }
      NothingHeld(t, taskHeads, was);
      SameButHere(taskHeads, taskHolds, t);
    }

    /** One turn of the loop. */
    method LeaveOne(t: nat, h: Ref, ghost taskHeads: seq<Ref>, ghost was: Log<nat, Key>)
      returns (next: Ref, fatal: bool)
      requires ValidBut(-1, taskHeads) && t < |taskHeads| && taskHeads[t] == h != NULL && PartReleased(was, log, t)
      modifies this`holds, this`locks, this`heads, this`log, this`view
      ensures !fatal && ValidBut(-1, taskHeads[t := next]) && PartReleased(was, log, t)
      ensures t < |view.held| == |old(view).held| && |view.held[t]| == |old(view).held[t]| - 1
    {
      hide *;
      PartReleasedMore(was, log, t, h);
      var l;
      l, next := Detach(t, h, taskHeads);
      fatal := Recycle(l, taskHeads[t := next]);
    }

    lemma NothingHeld(t: nat, taskHeads: seq<Ref>, was: Log<nat, Key>)
      requires ValidBut(-1, taskHeads) && t < |taskHeads| && taskHeads[t] == NULL
      requires PartReleased(was, log, t)
      ensures log == Release(was, t)
    {
      hide Buckets, Used, Queues, Requests, FirstComeFirst;
      OwnersNone(holds.taskNext, taskHeads, holds.task, log, view.held, t);
      RequestsShape(log, holds.task, holds.write, holds.lock, locks.key, view.home, view.H, view.W);
      hide Owners;
    }

    /** The task's first remaining hold leaves its lock, in constant time. */
    method Detach(t: nat, h: Ref, ghost taskHeads: seq<Ref>) returns (l: nat, next: Ref)
      requires ValidBut(-1, taskHeads) && t < |taskHeads| && taskHeads[t] == h != NULL
      modifies this`holds, this`locks, this`log, this`view
      ensures ValidBut(l, taskHeads[t := next]) && 0 <= h < |old(log)| && log == ReleaseAt(old(log), h)
      ensures old(log)[h].task == t && old(log)[h].status == Granted
      ensures t < |view.held| == |old(view).held| && |view.held[t]| == |old(view).held[t]| - 1
      ensures l < |view.home| && view.home[l] != FREE
    {
      hide Buckets, Used, Queues, Requests, Owners, FirstComeFirst, Linked, RemoveNext, LeavePprev, ReleaseAt;
      ghost var k := DetachKeeps(t, taskHeads);
      l := holds.lock[h];
      next := holds.taskNext[h];
      var back, ahead := holds.pprev[h], holds.lockNext[h];
      var lockNext, holders := Bypass(holds.lockNext, locks.holders, back, ahead, view.H[l], l, k);
      LeaveSame(holds.lockNext, locks.holders[l], view.H[l], holds.pprev, k);
      var pprev := if ahead != NULL then holds.pprev[ahead := back] else holds.pprev;
      log := ReleaseAt(log, h);
      view := view.(H := view.H[l := Without(view.H[l], k)], held := view.held[t := Without(view.held[t], 0)]);
      locks := locks.(holders := holders, nholders := locks.nholders[l := locks.nholders[l] - 1],
                      nwriters := locks.nwriters[l := locks.nwriters[l] - if holds.write[h] then 1 else 0]);
      holds := holds.(lockNext := lockNext, pprev := pprev);
    }

    ghost predicate InHolders(h: nat, k: nat)
      reads this
    {
      |view.H| == |locks.holders| == |locks.nholders| == |locks.nwriters| == |view.home| &&
      |log| == |holds.lock| == |holds.write| &&
      |holds.lock| == |holds.lockNext| == |holds.pprev| == |holds.taskNext| && h < |holds.lock| &&
      holds.lock[h] < |view.H| && view.home[holds.lock[h]] != FREE &&
      k < |view.H[holds.lock[h]]| && view.H[holds.lock[h]][k] == h && locks.nholders[holds.lock[h]] > 0 &&
      (holds.write[h] ==> locks.nwriters[holds.lock[h]] > 0) &&
      Linked(holds.lockNext, locks.holders[holds.lock[h]], view.H[holds.lock[h]]) &&
      LinkedBack(holds.pprev, view.H[holds.lock[h]], holds.lock[h])
    }

    lemma DetachKeeps(t: nat, taskHeads: seq<Ref>) returns (k: nat)
      requires ValidBut(-1, taskHeads) && t < |taskHeads| && taskHeads[t] != NULL
      ensures t < |view.held| && view.held[t] != [] && taskHeads[t] >= 0
      ensures InHolders(taskHeads[t], k) && log[taskHeads[t]].task == t && log[taskHeads[t]].status == Granted
      ensures forall i | 0 <= i < |view.H[holds.lock[taskHeads[t]]]| ::
                view.H[holds.lock[taskHeads[t]]][i] < |holds.lockNext|
      ensures var h: nat := taskHeads[t];
              var l, log' := holds.lock[h], ReleaseAt(log, h);
              var H' := view.H[l := Without(view.H[l], k)];
              Used(view.home, H', view.W, l) && FirstComeFirst(log') &&
              Queues(RemoveNext(holds.lockNext, view.H[l], k), LeavePprev(holds.pprev, view.H[l], k),
                     holds.lock, holds.write,
                     locks.holders[l := if k == 0 then holds.lockNext[h] else locks.holders[l]],
                     locks.waiters, locks.nholders[l := locks.nholders[l] - 1],
                     locks.nwriters[l := locks.nwriters[l] - if holds.write[h] then 1 else 0], H', view.W) &&
              Requests(log', holds.task, holds.write, holds.lock, locks.key, view.home, H', view.W) &&
              Owners(holds.taskNext, taskHeads[t := holds.taskNext[h]], holds.task, log',
                     view.held[t := Without(view.held[t], 0)])
    {
      hide Buckets, Used, Queues, Requests, Owners, FirstComeFirst, Linked, RemoveNext, LeavePprev, LinkedBack;
      OwnersFirst(holds.taskNext, taskHeads, holds.task, log, view.held, t);
      OwnersRelease(holds.taskNext, taskHeads, holds.task, log, view.held, t);
      var h: nat := taskHeads[t];
      RequestsShape(log, holds.task, holds.write, holds.lock, locks.key, view.home, view.H, view.W);
      QueuesShape(holds.lockNext, holds.pprev, holds.lock, holds.write, locks.holders, locks.waiters,
                  locks.nholders, locks.nwriters, view.H, view.W);
      var l := holds.lock[h];
      k :| 0 <= k < |view.H[l]| && view.H[l][k] == h;
      QueuesBack(holds.lockNext, holds.pprev, holds.lock, holds.write, locks.holders, locks.waiters,
                 locks.nholders, locks.nwriters, view.H, view.W, l);
      LinkedEnds(holds.lockNext, locks.holders[l], view.H[l]);
      QueuesLeave(holds.lockNext, holds.pprev, holds.lock, holds.write, locks.holders, locks.waiters,
                  locks.nholders, locks.nwriters, view.H, view.W, l, k);
      RequestsRelease(log, holds.task, holds.write, holds.lock, locks.key, view.home, view.H, view.W, l, k);
      ReleaseAtKeepsOrder(log, h);
      UsedLeft(view.home, view.H, view.W, l, Without(view.H[l], k));
    }

    /** A lock with neither holders nor waiters goes to the free list. */
    method Recycle(l: nat, ghost taskHeads: seq<Ref>) returns (fatal: bool)
      requires ValidBut(l, taskHeads) && l < |view.home| && view.home[l] != FREE
      modifies this`locks, this`heads, this`view
      ensures !fatal && ValidBut(-1, taskHeads) && view.held == old(view).held && log == old(log)
    {
      hide Buckets, Used, Queues, Requests, Owners, FirstComeFirst, BucketOf, Linked, RemoveNext;
      RequestsShape(log, holds.task, holds.write, holds.lock, locks.key, view.home, view.H, view.W);
      QueuesShape(holds.lockNext, holds.pprev, holds.lock, holds.write, locks.holders, locks.waiters,
                  locks.nholders, locks.nwriters, view.H, view.W);
      LinkedEnds(holds.lockNext, locks.holders[l], view.H[l]);
      LinkedEnds(holds.lockNext, locks.waiters[l], view.W[l]);
      if locks.holders[l] != NULL || locks.waiters[l] != NULL {
        UsedStill(view.home, view.H, view.W, l);
        return false;
      }
      HoldersSay(holds.lockNext, holds.pprev, holds.lock, holds.write, locks.holders, locks.waiters,
                 locks.nholders, locks.nwriters, view.H, view.W, l);
      if locks.nholders[l] != 0 || locks.nwriters[l] != 0 {
        return true;
      }
      fatal := false;
      var b := BucketOf(locks.key[l]);
      ghost var k := InItsBucket(l);
      BucketsDrop(locks.bucketNext, heads, view.lists, view.home, locks.key, l, k);
      RequestsFree(log, holds.task, holds.write, holds.lock, locks.key, view.home, view.H, view.W, l);
      UsedFreed(view.home, view.H, view.W, l);
      var next, first := Unlink(locks.bucketNext, heads[b], view.lists[b], l, k);
      heads := heads[b := first];
      locks := locks.(bucketNext := next[l := heads[FREE]]);
      heads := heads[FREE := l];
      ghost var lists1 := view.lists[b := Without(view.lists[b], k)];
      view := view.(lists := lists1[FREE := [l] + lists1[FREE]], home := view.home[l := FREE]);
    }

    /** A lock in use is in the bucket its key hashes to. */
    lemma InItsBucket(l: nat) returns (k: nat)
      requires Buckets(locks.bucketNext, heads, view.lists, view.home, locks.key, -1)
      requires l < |view.home| && view.home[l] != FREE
      ensures |locks.key| == |view.home| == |locks.bucketNext| && view.home[l] == BucketOf(locks.key[l])
      ensures |view.lists| == |heads| == LOCK_BUCKETS + 1
      ensures k < |view.lists[view.home[l]]| && view.lists[view.home[l]][k] == l
      ensures Linked(locks.bucketNext, heads[view.home[l]], view.lists[view.home[l]])
    {
      hide BucketOf, Linked;
      assert l in view.lists[view.home[l]];
      k :| 0 <= k < |view.lists[view.home[l]]| && view.lists[view.home[l]][k] == l;
    }

    /** The table is a map from keys to holders and a queue: the counts are true,
        the back links are real, holders and waiters are what the history says in
        the order it says, every key has one lock, in its bucket, and a lock is free
        exactly when nobody holds or wants it. */
    lemma RefinesMap()
      requires Valid()
      ensures |view.H| == |view.W| == |locks.key| == |view.home| == |locks.nholders| == |locks.nwriters|
      ensures |holds.lock| == |holds.write| == |holds.pprev| == |holds.lockNext| == |log|
      ensures forall l | 0 <= l < |view.H| ::
                Linked(holds.lockNext, locks.holders[l], view.H[l]) &&
                Linked(holds.lockNext, locks.waiters[l], view.W[l])
      ensures forall l | 0 <= l < |view.H| :: locks.nholders[l] == |view.H[l]| &&
                locks.nwriters[l] == Writers(holds.write, view.H[l])
      ensures forall l | 0 <= l < |view.H| :: LinkedBack(holds.pprev, view.H[l], l)
      ensures forall h | 0 <= h < |log| :: holds.lock[h] < |view.H| &&
                (log[h].status == Granted <==> h in view.H[holds.lock[h]]) &&
                (log[h].status == Waiting <==> h in view.W[holds.lock[h]])
      ensures forall h | 0 <= h < |log| && log[h].status != Released :: locks.key[holds.lock[h]] == log[h].key
      ensures Ascending(view.W)
      ensures forall l | 0 <= l < |view.H| :: view.home[l] == FREE <==> view.H[l] == [] && view.W[l] == []
      ensures forall l | 0 <= l < |view.H| && view.home[l] != FREE :: view.home[l] == BucketOf(locks.key[l])
      ensures forall l, m | 0 <= l < |view.H| && 0 <= m < |view.H| && view.home[l] != FREE && view.home[m] != FREE ::
                locks.key[l] == locks.key[m] ==> l == m
    {
      hide BucketOf, Linked, LinkedBack, Writers, Owners, FirstComeFirst, OwnedBy;
    }

    /** Whether a request is still in the queue of its lock. */
    method IsWaiting(h: nat) returns (waiting: bool)
      requires Valid() && h < |log|
      ensures waiting <==> log[h].status == Waiting
      ensures |holds.task| == |log| && holds.task[h] == log[h].task
    {
      hide Buckets, Used, Queues, Requests, Owners, FirstComeFirst;
      WaitsInQueue(h);
      ghost var s, i := view.W[holds.lock[h]], 0;
      var cur := locks.waiters[holds.lock[h]];
      while cur != NULL
        invariant 0 <= i <= |s| && cur == if i < |s| then s[i] else NULL
        invariant forall j | 0 <= j < i :: s[j] != h
        decreases |s| - i
      {
        if cur == h {
          return true;
        }
        cur := holds.lockNext[cur];
        i := i + 1;
      }
      return false;
    }

    lemma WaitsInQueue(h: nat)
      requires Valid() && h < |log|
      ensures |holds.task| == |holds.lock| == |log| && holds.task[h] == log[h].task
      ensures holds.lock[h] < |view.W| == |locks.waiters|
      ensures Linked(holds.lockNext, locks.waiters[holds.lock[h]], view.W[holds.lock[h]])
      ensures log[h].status == Waiting <==> h in view.W[holds.lock[h]]
    {
      hide BucketOf;
    }

    /** Other threads, while task `t` waits with the mutex released: requests come,
        are granted, and tasks complete. */
    method Others(t: nat) returns (ghost logs: seq<Log<nat, Key>>)
      requires Valid()
      modifies this
      ensures Valid() && Leads(logs, old(log), log) && Untouched(old(log), log, t) && |taskHolds| >= |old(taskHolds)|
    {
      hide ValidBut, Step, Leads, Untouched, Arrive, MayGrant, Grant, Release;
      logs := [log];
      LeadsStart(log, t);
      var steps: nat := *;
      while steps > 0
        invariant Valid() && Leads(logs, old(log), log) && Untouched(old(log), log, t) &&
                  |taskHolds| >= |old(taskHolds)|
      {
        ghost var before := log;
        Other(t);
        LeadsNext(logs, old(log), before, log);
        UntouchedThen(old(log), before, log, t);
        logs := logs + [log];
        steps := steps - 1;
      }
    }

    method Other(t: nat)
      requires Valid()
      modifies this
      ensures Valid() && (Step(old(log), log) || log == old(log)) && Untouched(old(log), log, t)
      ensures |taskHolds| >= |old(taskHolds)|
    {
      hide ValidBut, Step, Untouched, Arrive, MayGrant, Grant, Release;
      UntouchedSame(log, t);
      var which: nat, u: nat, h: nat, key: Key, write: bool := *, *, *, *, *;
      if which == 0 {
        var v := Begin();
      } else if which == 1 && u < |taskHolds| && u != t {
        ArriveStep(log, t, u, key, write);
        var g := Request(u, key, write);
      } else if which == 2 && u < |taskHolds| && u != t {
        ReleaseStep(log, t, u);
        var fatal := GiveUp(u);
      } else if which == 3 {
        Sizes();
        if h < |holds.task| {
          var waiting := IsWaiting(h);
          if waiting && holds.task[h] != t {
            var holder, behind := Look(h);
            if holder == NULL && !behind {
              GrantStep(log, t, h);
              Take(h);
            }
          }
        }
      }
    }

    lemma Sizes()
      requires Valid()
      ensures |holds.task| == |log|
    {
    }

    /** Taking a lock: the request queues, and looks again each time something may
        have changed, until nothing earlier is in its way or patience runs out. */
    method LockTake(t: nat, key: Key, write: bool, patience: nat)
      returns (h: nat, taken: bool, ghost logs: seq<Log<nat, Key>>)
      requires Valid() && t < |taskHolds|
      modifies this
      ensures Valid() && Leads(logs, old(log), log) && h == |old(log)| < |log|
      ensures log[h] == LockLog.Request(t, key, write, if taken then Granted else Waiting)
      ensures taken ==>
                forall j | 0 <= j < h && log[j].key == key && log[j].task != t && (log[j].write || write) ::
                  log[j].status == Released
      ensures !taken ==> exists j ::
                0 <= j < h && log[j].key == key && log[j].task != t && (log[j].write || write) &&
                log[j].status != Released
    {
      hide ValidBut, Step, Leads, Untouched, MayGrant, Grant, Release;
      ghost var start := log;
      LeadsStart(log, t);
      ArriveStep(log, t, t, key, write);
      LeadsNext([log], start, log, Arrive(log, t, key, write));
      h := Request(t, key, write);
      logs := [start, log];
      assert logs == [start] + [log];
      var left := patience;
      while true
        invariant Valid() && Leads(logs, start, log) && h < |log| && log[h] == LockLog.Request(t, key, write, Waiting)
        decreases left
      {
        var holder, behind := Look(h);
        if holder == NULL && !behind {
          break;
        }
        if left == 0 {
          InTheWay(h);
          return h, false, logs;
        }
        left := left - 1;
        ghost var before := log;
        ghost var more := Others(t);
        UntouchedAt(before, log, t, h);
        LeadsThen(logs, more, start, before, log);
        logs := logs + more;
      }
      ghost var before := log;
      GrantStep(log, t, h);
      GrantAt(log, h);
      Take(h);
      LeadsNext(logs, start, before, log);
      logs := logs + [log];
      taken := true;
      EarlierReleased(h);
      SameClash(log, h);
    }

    /** What a request waits for came earlier. */
    lemma InTheWay(h: nat)
      requires Valid() && h < |log| && log[h].status == Waiting && !MayGrant(log, h)
      ensures exists j ::
                0 <= j < h && log[j].key == log[h].key && log[j].task != log[h].task &&
                (log[j].write || log[h].write) && log[j].status != Released
    {
      GrantableIffUnblocked(log, h);
    }

    lemma EarlierReleased(h: nat)
      requires Valid() && h < |log| && log[h].status == Granted
      ensures forall j | 0 <= j < h && Clash(log[j], log[h]) :: log[j].status == Released
    {
      hide Buckets, Used, Queues, Requests, Owners;
    }
  }

  lemma LeadsStart(log: Log<nat, Key>, t: nat)
    ensures Leads([log], log, log) && Untouched(log, log, t)
  {
  }

  lemma UntouchedSame(log: Log<nat, Key>, t: nat)
    ensures Untouched(log, log, t)
  {
  }

  lemma UntouchedThen(log: Log<nat, Key>, log1: Log<nat, Key>, log2: Log<nat, Key>, t: nat)
    requires Untouched(log, log1, t) && Untouched(log1, log2, t)
    ensures Untouched(log, log2, t)
  {
  }

  lemma UntouchedAt(log: Log<nat, Key>, log': Log<nat, Key>, t: nat, h: nat)
    requires Untouched(log, log', t) && h < |log| && log[h].task == t
    ensures h < |log'| && log'[h] == log[h]
  {
  }

  lemma ArriveStep(log: Log<nat, Key>, t: nat, u: nat, key: Key, write: bool)
    ensures Step(log, Arrive(log, u, key, write)) && Untouched(log, Arrive(log, u, key, write), t)
  {
    assert LockLog.Arrived(log, Arrive(log, u, key, write));
  }

  lemma ReleaseStep(log: Log<nat, Key>, t: nat, u: nat)
    ensures Step(log, Release(log, u)) && (u != t ==> Untouched(log, Release(log, u), t))
  {
    if j :| 0 <= j < |log| && log[j].task == u {
      assert Release(log, u) == Release(log, log[j].task);
    } else {
      assert Release(log, u) == log;
    }
  }

  lemma GrantStep(log: Log<nat, Key>, t: nat, h: nat)
    requires MayGrant(log, h)
    ensures h < |log| && Step(log, Grant(log, h)) && (log[h].task != t ==> Untouched(log, Grant(log, h), t))
  {
  }

  lemma GrantAt(log: Log<nat, Key>, h: nat)
    requires h < |log|
    ensures |Grant(log, h)| == |log| && Grant(log, h)[h] == log[h].(status := Granted)
  {
  }

  lemma SameClash(log: Log<nat, Key>, h: nat)
    requires h < |log| && forall j | 0 <= j < h && Clash(log[j], log[h]) :: log[j].status == Released
    ensures forall j | 0 <= j < h && log[j].key == log[h].key && log[j].task != log[h].task &&
                       (log[j].write || log[h].write) :: log[j].status == Released
  {
  }
}
