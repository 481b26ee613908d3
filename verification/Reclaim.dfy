/** The io_uring runtime's calls: the list of the ones holding a request slot,
    making room by completing them when the table is full, and what result each
    call reports. */
module Reclaim {
  import opened Chains
  import opened RequestTable
  import opened RequestLog
  import opened Rings
  import opened DoubleList
  import opened Polling

  datatype Option<T> = None | Some(value: T)

  const OP_READ: nat := 22
  const EINVAL: int := 22
  const EAGAIN: int := 11
  const EBADF: int := 9
  const EIO: int := 5
  const EOVERFLOW: int := 75
  const EOPNOTSUPP: int := 95
  const UINT_MAX: nat := 0xFFFF_FFFF

  /** The call records in order of registration, field by field; `reported` is the
      result the call's task completed with. */
  datatype Book = Book(request: seq<nat>, explicit: seq<bool>, finished: seq<bool>, reported: seq<Option<int>>,
                       newer: seq<Ref>, older: seq<Ref>)

  predicate BookSized(B: Book) {
    |B.request| == |B.explicit| == |B.finished| == |B.reported| == |B.newer| == |B.older|
  }

  /** The list holds exactly the queued, unfinished annotated calls, oldest
      first. */
  predicate Listed(B: Book, live: seq<nat>) {
    BookSized(B) && Linked2(B.newer, B.older, live) &&
    forall c: nat | c < |B.request| :: c in live <==> B.request[c] != 0 && !B.explicit[c] && !B.finished[c]
  }

  /** A task keeps the first result it is given. */
  function Report(B: Book, c: nat, result: int): Book
    requires BookSized(B) && c < |B.reported|
  {
    if B.reported[c].None? then B.(reported := B.reported[c := Some(result)]) else B
  }

  predicate Answered(S: Slots, id: nat, result: int) {
    Sized(S) && id % U32 < SLOTS && !S.state[id % U32].PENDING? && S.result[id % U32] == result
  }

  /** `taken` are the listed calls whose result somebody else has collected. Every
      other call in the list has its own request in the table; none has reported
      anything. */
  ghost predicate Waiting(B: Book, live: seq<nat>, owner: map<nat, nat>, S: Slots, taken: set<nat>)
    requires Sized(S) && BookSized(B)
  {
    (forall c | c in live :: c < |B.request| && B.reported[c].None?) &&
    (forall c | c in live && c !in taken :: B.request[c] in LiveIds(S) && B.request[c] !in owner) &&
    (forall c, d | c in live && d in live && c !in taken && d !in taken && B.request[c] == B.request[d] :: c == d) &&
    forall c | c in taken :: c < |B.request|
  }

  /** `owner` says which explicit read a request belongs to. An explicit read that
      has reported, has reported its request's result. */
  ghost predicate Owned(B: Book, owner: map<nat, nat>, S: Slots)
    requires Sized(S) && BookSized(B)
  {
    (forall id | id in owner :: id in LiveIds(S) && owner[id] < |B.request| && B.explicit[owner[id]] &&
      B.request[owner[id]] == id &&
      (B.reported[owner[id]].Some? ==> Answered(S, id, B.reported[owner[id]].value))) &&
    forall c: nat | c < |B.request| && B.explicit[c] && B.reported[c].None? ::
      B.request[c] in owner && owner[B.request[c]] == c
  }

  ghost predicate Held(B: Book, live: seq<nat>, owner: map<nat, nat>, S: Slots, taken: set<nat>) {
    Sized(S) && BookSized(B) && Waiting(B, live, owner, S, taken) && Owned(B, owner, S) &&
    forall c: nat | c < |B.request| && B.finished[c] :: B.reported[c].Some?
  }

  /** The listed calls that wait for request `id`. */
  function Waiters(B: Book, live: seq<nat>, id: nat): set<nat> {
    set c | c in live && c < |B.request| && B.request[c] == id
  }

  lemma HeldSettles(B: Book, live: seq<nat>, owner: map<nat, nat>, S: Slots, S': Slots, taken: set<nat>)
    requires Held(B, live, owner, S, taken) && Settles(S, S') && LiveIds(S') == LiveIds(S)
    ensures Held(B, live, owner, S', taken)
  {
  }

  // ---- A call of the list finishes ----

  function Finished(B: Book, live: seq<nat>, k: nat, result: int): Book
    requires BookSized(B) && k < |live| && forall i | 0 <= i < |live| :: live[i] < |B.request|
  {
    var c := live[k];
    Report(Book(B.request, B.explicit, B.finished[c := true], B.reported, RemoveNewer(B.newer, live, k),
                RemoveOlder(B.older, live, k)), c, result)
  }

  lemma ListedFinish(B: Book, live: seq<nat>, k: nat, result: int)
    requires Listed(B, live) && k < |live|
    ensures forall i | 0 <= i < |live| :: live[i] < |B.request|
    ensures Listed(Finished(B, live, k, result), Without(live, k))
  {
    LinkedRemove2(B.newer, B.older, live, k);
    AscendingDistinct(live);
    WithoutDistinct(live, k);
    hide LinkedNewer, LinkedOlder, Ascending;
  }

  /** `B'` differs from `B` in that call `c` has finished with `result`. */
  predicate FinishedAt(B: Book, B': Book, c: nat, result: int) {
    BookSized(B) && BookSized(B') && c < |B.request| && B'.request == B.request && B'.explicit == B.explicit &&
    B'.finished == B.finished[c := true] && B'.reported == B.reported[c := Some(result)]
  }

  lemma WaitingFinish(B: Book, B': Book, live: seq<nat>, live': seq<nat>, owner: map<nat, nat>, S: Slots,
                      taken: set<nat>,
                      c: nat, result: int, taken1: set<nat>)
    requires FinishedAt(B, B', c, result) && Sized(S) && Waiting(B, live, owner, S, taken)
    requires taken - {c} <= taken1 <= taken && forall d | d in live' :: d in live && d != c
    ensures Waiting(B', live', owner, S, taken1)
  {
    hide LiveIds;
  }

  lemma OwnedFinish(B: Book, B': Book, owner: map<nat, nat>, S: Slots, c: nat, result: int)
    requires FinishedAt(B, B', c, result) && !B.explicit[c] && Sized(S) && Owned(B, owner, S)
    ensures Owned(B', owner, S)
  {
    hide LiveIds, Answered;
  }

  /** A call whose result has been collected leaves the list. */
  lemma HeldFinish(B: Book, live: seq<nat>, owner: map<nat, nat>, S: Slots, taken: set<nat>, k: nat, result: int,
                   taken1: set<nat>)
    requires Held(B, live, owner, S, taken) && k < |live| && Distinct(live) && taken - {live[k]} <= taken1 <= taken
    requires forall i | 0 <= i < |live| :: live[i] < |B.request|
    requires !B.explicit[live[k]] && B.reported[live[k]].None?
    ensures Held(Finished(B, live, k, result), Without(live, k), owner, S, taken1)
  {
    var c, B' := live[k], Finished(B, live, k, result);
    WithoutDistinct(live, k);
    assert FinishedAt(B, B', c, result);
    hide Waiting, Owned, Finished, Distinct;
    WaitingFinish(B, B', live, Without(live, k), owner, S, taken, c, result, taken1);
    OwnedFinish(B, B', owner, S, c, result);
  }

  // ---- A call is registered ----

  /** A call whose request is queued joins the list. */
  function Queued(B: Book, live: seq<nat>, request: nat): Book
    requires live != [] ==> live[|live| - 1] < |B.newer|
  {
    Book(B.request + [request], B.explicit + [false], B.finished + [false], B.reported + [None],
         AddNewer(B.newer, live),
         B.older + [Last(live)])
  }

  /** Any other call is only recorded. */
  function Recorded(B: Book, request: nat, explicit: bool, reported: Option<int>): Book {
    Book(B.request + [request], B.explicit + [explicit], B.finished + [false], B.reported + [reported],
         B.newer + [NULL],
         B.older + [NULL])
  }

  lemma ListedEnds(B: Book, live: seq<nat>)
    requires Listed(B, live)
    ensures BookSized(B) && (live != [] ==> live[|live| - 1] < |B.newer|) &&
            forall i | 0 <= i < |live| :: live[i] < |B.newer|
    ensures Distinct(live)
  {
  }

  lemma ListedQueued(B: Book, live: seq<nat>, request: nat)
    requires Listed(B, live) && request != 0
    ensures (live != [] ==> live[|live| - 1] < |B.newer|) && Listed(Queued(B, live, request), live + [|B.request|])
  {
    ListedEnds(B, live);
    LinkedAdd(B.newer, B.older, live);
    hide Linked2, AddNewer, Last;
    var live', B' := live + [|B.request|], Queued(B, live, request);
    assert live'[|live|] == |B.request|;
    assert forall c :: c in live' <==> c in live || c == |B.request|;
  }

  lemma ListedRecorded(B: Book, live: seq<nat>, request: nat, explicit: bool, reported: Option<int>)
    requires Listed(B, live) && (request == 0 || explicit)
    ensures Listed(Recorded(B, request, explicit, reported), live)
  {
  }

  /** A new request leaves the answers of the others alone. */
  lemma AnsweredStill(S: Slots, S': Slots, request: nat, owner: map<nat, nat>, which: seq<nat>, given: seq<nat>,
                      nextGen: nat)
    requires NewRequest(S, S', request) && Tagged(S, which, given, nextGen) &&
             forall id | id in owner :: id in LiveIds(S)
    ensures forall id, v | id in owner && Answered(S, id, v) :: Answered(S', id, v)
  {
    forall id, v | id in owner && Answered(S, id, v)
      ensures Answered(S', id, v)
    {
      LookupExact(S, which, given, nextGen, id);
    }
  }

  lemma HeldQueued(B: Book, live: seq<nat>, owner: map<nat, nat>, S: Slots, S': Slots, request: nat,
                   taken: set<nat>)
    requires Held(B, live, owner, S, taken) && (live != [] ==> live[|live| - 1] < |B.newer|) &&
             NewRequest(S, S', request)
    requires forall id, v | id in owner && Answered(S, id, v) :: Answered(S', id, v)
    ensures Held(Queued(B, live, request), live + [|B.request|], owner, S', taken)
  {
    hide LiveIds, AddNewer, Last, Answered;
    var n, B' := |B.request|, Queued(B, live, request);
    assert (live + [n])[|live|] == n;
    assert forall c :: c in live + [n] <==> c in live || c == n;
    assert Waiting(B', live + [n], owner, S', taken) by {
      hide Owned;
    }
    assert Owned(B', owner, S') by {
      hide Waiting;
    }
    hide Waiting, Owned;
  }

  lemma HeldRead(B: Book, live: seq<nat>, owner: map<nat, nat>, S: Slots, S': Slots, request: nat,
                   taken: set<nat>)
    requires Held(B, live, owner, S, taken) && NewRequest(S, S', request)
    requires forall id, v | id in owner && Answered(S, id, v) :: Answered(S', id, v)
    ensures Held(Recorded(B, request, true, None), live, owner[request := |B.request|], S', taken)
  {
    hide LiveIds, Answered;
  }

  lemma HeldRecorded(B: Book, live: seq<nat>, owner: map<nat, nat>, S: Slots, taken: set<nat>, reported: Option<int>)
    requires Held(B, live, owner, S, taken)
    ensures Held(Recorded(B, 0, false, reported), live, owner, S, taken)
  {
    hide LiveIds, Answered;
  }

  // ---- An explicit read reports ----

  lemma HeldReport(B: Book, live: seq<nat>, owner: map<nat, nat>, S: Slots, taken: set<nat>, c: nat, result: int,
                   finished: bool)
    requires Held(B, live, owner, S, taken) && c < |B.request| && B.explicit[c] && c !in live
    requires B.reported[c].None? ==> Answered(S, B.request[c], result)
    ensures Held(Report(B.(finished := if finished then B.finished[c := true] else B.finished), c, result), live, owner,
                 S, taken)
  {
    hide LiveIds, Answered;
  }

  lemma ListedReport(B: Book, live: seq<nat>, c: nat, result: int, finished: bool)
    requires Listed(B, live) && c < |B.request| && c !in live && (B.explicit[c] || B.request[c] == 0 || !finished)
    ensures Listed(Report(B.(finished := if finished then B.finished[c := true] else B.finished), c, result), live)
  {
  }

  /** Collecting one request leaves the answers of the others alone. */
  lemma AnsweredOthers(S: Slots, S1: Slots, id: nat, owner: map<nat, nat>, which: seq<nat>, given: seq<nat>,
                       nextGen: nat)
    requires Tagged(S, which, given, nextGen) && Sized(S1) && id in LiveIds(S) && id !in owner
    requires forall x | x in owner :: x in LiveIds(S)
    requires forall s | 0 <= s < SLOTS && s != id % U32 :: SettlesAt(S, S1, s)
    ensures forall x, v | x in owner && Answered(S, x, v) :: Answered(S1, x, v)
  {
    LookupExact(S, which, given, nextGen, id);
    forall x, v | x in owner && Answered(S, x, v)
      ensures Answered(S1, x, v)
    {
      LookupExact(S, which, given, nextGen, x);
      assert SettlesAt(S, S1, x % U32);
    }
  }

  lemma HeldShape(B: Book, live: seq<nat>, owner: map<nat, nat>, S: Slots, taken: set<nat>)
    requires Held(B, live, owner, S, taken)
    ensures Sized(S) && BookSized(B)
    ensures forall c | c in live :: c < |B.request| && B.reported[c].None?
    ensures forall c | c in live && c !in taken :: B.request[c] in LiveIds(S) && B.request[c] !in owner
    ensures forall id | id in owner ::
              id in LiveIds(S) && owner[id] < |B.request| && B.explicit[owner[id]] && B.request[owner[id]] == id
    ensures forall c: nat | c < |B.request| && B.explicit[c] && B.reported[c].None? ::
              B.request[c] in owner && owner[B.request[c]] == c
    ensures forall c | c in taken :: c < |B.request|
  {
  }

  lemma QueuedIs(B: Book, live: seq<nat>, request: nat)
    requires live != [] ==> live[|live| - 1] < |B.newer|
    requires BookSized(B)
    ensures Queued(B, live, request) ==
            Book(B.request + [request], B.explicit + [false], B.finished + [false], B.reported + [Option.None],
                 AddNewer(B.newer, live), B.older + [Last(live)])
    ensures |B.newer| == |B.request|
  {
  }

  lemma BookShape(B: Book, live: seq<nat>)
    requires Listed(B, live)
    ensures BookSized(B)
  {
  }

  lemma LastOf(live: seq<nat>, c: nat)
    ensures Last(live + [c]) == c
  {
  }

  lemma ListedIs(B: Book, live: seq<nat>)
    requires Listed(B, live)
    ensures BookSized(B) && forall c | c in live :: c < |B.request|
    ensures forall c: nat | c < |B.request| :: c in live <==> B.request[c] != 0 && !B.explicit[c] && !B.finished[c]
  {
  }

  lemma ListedFirst(B: Book, live: seq<nat>)
    requires Listed(B, live) && live != []
    ensures live[0] < |B.newer| && B.newer[live[0]] == Head(Without(live, 0)) && Without(live, 0) == live[1..]
  {
  }

  lemma HeldFinished(B: Book, live: seq<nat>, owner: map<nat, nat>, S: Slots, taken: set<nat>)
    requires Held(B, live, owner, S, taken)
    ensures BookSized(B) && forall c: nat | c < |B.request| && B.finished[c] :: B.reported[c].Some?
  {
  }

  lemma HeldIgnored(B: Book, live: seq<nat>, owner: map<nat, nat>, S: Slots, taken: set<nat>, c: nat)
    requires Held(B, live, owner, S, taken) && c < |B.request| && !B.explicit[c] && c !in live
    ensures Held(Report(B.(finished := B.finished[c := true]), c, -EOPNOTSUPP), live, owner, S, taken)
  {
  }

  lemma SettlesIds(S: Slots, S': Slots)
    requires Settles(S, S')
    ensures Sized(S) && Sized(S') && S'.id == S.id
  {
  }

  /** The id names a request that has been answered. */
  ghost predicate SettledId(S: Slots, id: nat) {
    Sized(S) && id in LiveIds(S) && id % U32 < SLOTS && !S.state[id % U32].PENDING?
  }

  lemma SettledStays(S: Slots, S': Slots, id: nat)
    requires Settles(S, S') && LiveIds(S') == LiveIds(S)
    ensures SettledId(S, id) ==> SettledId(S', id)
  {
    hide LiveIds;
  }

  /** Collecting a request takes the result from the listed calls that wait for it;
      the result collected by an explicit read's caller is the one reported, if one
      was. */
  lemma HeldCollected(B: Book, live: seq<nat>, owner: map<nat, nat>, S: Slots, taken: set<nat>, S1: Slots, id: nat,
                      result: int, which: seq<nat>, given: seq<nat>, nextGen: nat)
    requires Held(B, live, owner, S, taken) && Tagged(S, which, given, nextGen) && Sized(S1) && id in LiveIds(S)
    requires LiveIds(S1) == LiveIds(S) - {id} && (id in owner ==> owner[id] !in live)
    requires forall s | 0 <= s < SLOTS && s != id % U32 :: SettlesAt(S, S1, s)
    requires id % U32 < SLOTS && (!S.state[id % U32].PENDING? ==> result == S.result[id % U32])
    ensures var taken1 := taken + Waiters(B, live, id);
            if id in owner then
              Held(Report(B, owner[id], result), live, owner - {id}, S1, taken1) &&
              Report(B, owner[id], result).reported[owner[id]] == Some(result)
            else Held(B, live, owner, S1, taken1)
  {
    AnsweredOthers(S, S1, id, owner - {id}, which, given, nextGen);
    if id in owner {
      assert B.reported[owner[id]].Some? ==> B.reported[owner[id]].value == result;
      hide LiveIds, Tagged, SettlesAt, Answered;
      HeldGivenBack(B, live, owner, S, taken, S1, id, result);
    } else {
      hide LiveIds, Tagged, SettlesAt, Answered;
      assert owner - {id} == owner;
      HeldTaken(B, live, owner, S, taken, S1, id);
    }
  }

  lemma OwnerShape(B: Book, live: seq<nat>, owner: map<nat, nat>, S: Slots, taken: set<nat>, id: nat)
    requires Held(B, live, owner, S, taken)
    ensures BookSized(B) && (id in owner ==> id in LiveIds(S) && owner[id] < |B.request|)
    ensures id !in owner ==> owner - {id} == owner
  {
  }

  lemma AfterCollect(B: Book, live: seq<nat>, owner: map<nat, nat>, S: Slots, taken: set<nat>, S1: Slots, id: nat,
                     result: int, which: seq<nat>, given: seq<nat>, nextGen: nat, P: Heard)
    requires Listed(B, live) && Held(B, live, owner, S, taken) && Honest(B, P, taken)
    requires Tagged(S, which, given, nextGen) && Sized(S1) && id in LiveIds(S) && Posted(P, id, result)
    requires LiveIds(S1) == LiveIds(S) - {id}
    requires forall s | 0 <= s < SLOTS && s != id % U32 :: SettlesAt(S, S1, s)
    requires id % U32 < SLOTS && (!S.state[id % U32].PENDING? ==> result == S.result[id % U32])
    ensures BookSized(B) && (id in owner ==> owner[id] < |B.request|)
    ensures var B1, taken1 := if id in owner then Report(B, owner[id], result) else B, taken + Waiters(B, live, id);
            Listed(B1, live) && Held(B1, live, owner - {id}, S1, taken1) && Honest(B1, P, taken1) &&
            (id in owner ==> B1.reported[owner[id]] == Some(result))
  {
    HeldShape(B, live, owner, S, taken);
    ListedIs(B, live);
    hide Held, Listed, Honest, Tagged, SettlesAt, LiveIds, Waiters, Posted;
    HeldCollected(B, live, owner, S, taken, S1, id, result, which, given, nextGen);
    var taken1 := taken + Waiters(B, live, id);
    if id in owner {
      ListedReport(B, live, owner[id], result, false);
      HonestReport(B, B, owner[id], result, P, taken, taken1);
    } else {
      assert owner - {id} == owner;
      HonestTaken(B, P, taken, taken1);
    }
  }

  lemma HeldTaken(B: Book, live: seq<nat>, owner: map<nat, nat>, S: Slots, taken: set<nat>, S1: Slots, id: nat)
    requires Held(B, live, owner, S, taken) && Sized(S1) && id !in owner && LiveIds(S1) == LiveIds(S) - {id}
    requires forall x, v | x in owner && Answered(S, x, v) :: Answered(S1, x, v)
    ensures Held(B, live, owner, S1, taken + Waiters(B, live, id))
  {
    hide LiveIds, Answered;
  }

  lemma HeldGivenBack(B: Book, live: seq<nat>, owner: map<nat, nat>, S: Slots, taken: set<nat>, S1: Slots, id: nat,
                      result: int)
    requires Held(B, live, owner, S, taken) && Sized(S1) && id in owner
    requires LiveIds(S1) == LiveIds(S) - {id} && owner[id] !in live
    requires forall x, v | x in owner - {id} && Answered(S, x, v) :: Answered(S1, x, v)
    ensures Held(Report(B, owner[id], result), live, owner - {id}, S1, taken + Waiters(B, live, id))
  {
    hide LiveIds, Answered;
    assert B.request[owner[id]] == id;
    var c := owner[id];
    var B' := Report(B, c, result);
    assert forall d | 0 <= d < |B.request| && d != c :: B'.reported[d] == B.reported[d];
    assert forall x | x in owner && x != id :: owner[x] != c;
  }

  /** Calls keep their requests and stay what they are; what has been reported, and
      that a call has finished, stays. */
  predicate Kept(B: Book, B': Book) {
    BookSized(B) && BookSized(B') && B.request <= B'.request && B.explicit <= B'.explicit &&
    forall d | 0 <= d < |B.reported| ::
      (B.finished[d] ==> B'.finished[d]) && (B.reported[d].Some? ==> B'.reported[d] == B.reported[d])
  }

  lemma KeptSame(B: Book)
    requires BookSized(B)
    ensures Kept(B, B)
  {
  }

  lemma KeptThen(B: Book, B1: Book, B2: Book)
    requires Kept(B, B1) && Kept(B1, B2)
    ensures Kept(B, B2)
  {
  }

  lemma KeptFinish(B: Book, B': Book, c: nat, any: bool)
    requires Others(B, B', c, any) && c < |B.finished| && B'.finished == B.finished[c := true]
    requires B'.request == B.request && B'.explicit == B.explicit
    ensures Kept(B, B')
  {
  }

  /** These calls have finished and reported. */
  predicate AllFinished(B: Book, cs: seq<nat>) {
    BookSized(B) &&
    forall i | 0 <= i < |cs| :: cs[i] < |B.request| && B.finished[cs[i]] && B.reported[cs[i]].Some?
  }

  lemma NoneFinished(B: Book, was: seq<nat>)
    requires BookSized(B)
    ensures AllFinished(B, was[..0]) && was == was[0..]
  {
  }

  lemma OneMore(B: Book, B1: Book, B2: Book, was: seq<nat>, k: nat)
    requires Kept(B, B1) && Kept(B1, B2) && k < |was| && AllFinished(B1, was[..k])
    requires was[k] < |B2.finished| == |B2.reported| && B2.finished[was[k]] && B2.reported[was[k]].Some?
    ensures Kept(B, B2) && AllFinished(B2, was[..k + 1])
  {
    assert forall i | 0 <= i < k :: was[..k][i] == was[i];
  }

  /** How queueing call `c` ends: with its request the last one pushed and the call
      the last of the list, or with the error that fits; and with no room only when
      the table is full and the list is empty. `refusal` is the error of resolving a pending descriptor or
      of checking a path, which comes before everything else; 0 is none. */
  ghost predicate Outcome(B: Book, live: seq<nat>, S: Slots, sent: Sent, ring: int, c: nat, op: nat, target: int,
                          addr: nat,
                          len: nat,
                          offset: nat, refusal: int)
    requires BookSized(B) && c < |B.request| && Sized(S)
  {
    !B.finished[c] && !B.explicit[c] &&
    if refusal != 0 then
      B.request[c] == 0 && B.reported[c] == Some(-refusal) && (refusal == EAGAIN ==> live == [])
    else
      (B.reported[c] == Some(-EIO) <==> len > MAX_LEN) &&
      (B.reported[c] == Some(-EBADF) <==> len <= MAX_LEN && target == ring) &&
      if B.request[c] != 0 then
        B.reported[c].None? && live != [] && live[|live| - 1] == c &&
        sent.pushed != [] && sent.pushed[|sent.pushed| - 1] == Sqe(op, target, addr, len, offset, B.request[c])
      else
        B.reported[c] == Some(-EIO) || B.reported[c] == Some(-EBADF) ||
        (B.reported[c] == Some(-EAGAIN) && live == [] && Full(S))
  }

  lemma OutcomeQueued(B0: Book, B: Book, live0: seq<nat>, live: seq<nat>, S: Slots, pushed: seq<Sqe>, sent: Sent,
                      ring: int, op: nat, target: int, addr: nat, len: nat, offset: nat, refusal: int, id: nat)
    requires BookSized(B0) && BookSized(B) && Sized(S)
    requires id != 0 && refusal == 0 && len <= MAX_LEN && target != ring
    requires live == live0 + [|B0.request|] && B.request == B0.request + [id] &&
             B.reported == B0.reported + [Option.None]
    requires B.finished == B0.finished + [false] && B.explicit == B0.explicit + [false]
    requires sent.pushed == pushed + [Sqe(op, target, addr, len, offset, id)]
    ensures |B.request| == |B0.request| + 1 && B.request[|B0.request|] != 0
    ensures Outcome(B, live, S, sent, ring, |B0.request|, op, target, addr, len, offset, refusal)
  {
  }

  lemma OutcomeRecorded(B0: Book, B: Book, live: seq<nat>, S: Slots, sent: Sent, ring: int, op: nat, target: int,
                        addr: nat, len: nat, offset: nat, refusal: int, error: int)
    requires BookSized(B0) && B == Recorded(B0, 0, false, Some(if error != 0 then -error else -EIO))
    requires Sized(S) && (error == EAGAIN ==> live == [] && (refusal == 0 ==> Full(S)))
    requires if refusal != 0 then error == refusal else error == EAGAIN || error == EBADF || error == 0
    requires refusal == 0 ==> (error == 0 <==> len > MAX_LEN) && (error == EBADF <==> len <= MAX_LEN && target == ring)
    ensures BookSized(B) && |B.request| == |B0.request| + 1 && B.request[|B0.request|] == 0
    ensures Outcome(B, live, S, sent, ring, |B0.request|, op, target, addr, len, offset, refusal)
  {
  }

  /** A call that never got a request and was completed when it was submitted: the
      runtime keeps nothing for it. */
  predicate AtSubmission(B: Book, c: nat)
    requires BookSized(B) && c < |B.request|
  {
    B.request[c] == 0 && !B.finished[c] && B.reported[c].Some?
  }

  /** What a call with a request has reported is the kernel's answer to it, unless
      somebody else had collected that. */
  ghost predicate Honest(B: Book, P: Heard, taken: set<nat>) {
    BookSized(B) && forall c | 0 <= c < |B.request| && B.request[c] != 0 && B.reported[c].Some? && c !in taken ::
      Posted(P, B.request[c], B.reported[c].value)
  }

  lemma HonestLater(B: Book, P: Heard, P': Heard, taken: set<nat>)
    requires Honest(B, P, taken) && P.posted <= P'.posted
    ensures Honest(B, P', taken)
  {
    forall c | 0 <= c < |B.request| && B.request[c] != 0 && B.reported[c].Some? && c !in taken
      ensures Posted(P', B.request[c], B.reported[c].value)
    {
      PostedStays(P, P', B.request[c], B.reported[c].value);
    }
  }

  /** A report of a call's own answer, or of anything when that was collected; links
      and marks of being finished do not matter. */
  lemma HonestReport(B: Book, B1: Book, c: nat, result: int, P: Heard, taken: set<nat>, taken1: set<nat>)
    requires Honest(B, P, taken) && BookSized(B1) && c < |B1.request|
    requires B1.request == B.request && B1.reported == B.reported
    requires forall d | d in taken && d != c && d < |B.reported| && B.reported[d].Some? :: d in taken1
    requires B.request[c] == 0 || (B.reported[c].Some? && (c in taken ==> c in taken1)) ||
             Posted(P, B.request[c], result) ||
             c in taken1
    requires B.reported[c].Some? && c in taken ==> c in taken1
    ensures Honest(Report(B1, c, result), P, taken1)
  {
    hide Posted;
  }

  lemma HonestTaken(B: Book, P: Heard, taken: set<nat>, taken1: set<nat>)
    requires Honest(B, P, taken) && taken <= taken1
    ensures Honest(B, P, taken1)
  {
  }

  lemma HonestRegister(B: Book, B1: Book, request: nat, reported: Option<int>, P: Heard, taken: set<nat>)
    requires Honest(B, P, taken) && BookSized(B1) && (request == 0 || reported.None?)
    requires B1.request == B.request + [request] && B1.reported == B.reported + [reported]
    ensures Honest(B1, P, taken)
  {
    hide Posted;
  }

  /** Only call `c` gets a report, and the explicit read whose result it took if its
      own had been collected before. */
  predicate Others(B: Book, B': Book, c: nat, any: bool) {
    BookSized(B) && BookSized(B') && |B'.reported| == |B.reported| &&
    forall d | 0 <= d < |B.reported| :: B.reported[d].Some? || (d != c && !any) ==> B'.reported[d] == B.reported[d]
  }

  /** Collecting the request of a listed call takes its result; when nobody had taken
      it before, that affects no other call. */
  lemma ShapeAt(B: Book, live: seq<nat>, owner: map<nat, nat>, S: Slots, taken: set<nat>, c: nat)
    requires Held(B, live, owner, S, taken) && c in live
    ensures c < |B.request| && B.reported[c].None? && c in Waiters(B, live, B.request[c])
    ensures B.request[c] in owner ==> owner[B.request[c]] < |B.request| && B.explicit[owner[B.request[c]]]
    ensures c !in taken ==> B.request[c] in LiveIds(S) && B.request[c] !in owner &&
                            taken + Waiters(B, live, B.request[c]) - {c} == taken
  {
    hide LiveIds, Answered;
  }

  lemma OthersTaken(B: Book, B1: Book, B2: Book, owner: map<nat, nat>, c: nat, result: int, any: bool)
    requires BookSized(B) && BookSized(B1) && BookSized(B2) && c < |B.reported| == |B1.reported|
    requires forall d | 0 <= d < |B1.reported| ::
               B1.reported[d] == B.reported[d] || (B.request[c] in owner && d == owner[B.request[c]] && any)
    requires forall d | 0 <= d < |B1.reported| && B.reported[d].Some? :: B1.reported[d] == B.reported[d]
    requires B.reported[c].None? && B2.reported == B1.reported[c := Some(result)]
    ensures Others(B, B2, c, any)
  {
  }

  lemma HonestAt(B: Book, P: Heard, taken: set<nat>, c: nat)
    requires Honest(B, P, taken) && c < |B.request| && B.request[c] != 0 && B.reported[c].Some? && c !in taken
    ensures Posted(P, B.request[c], B.reported[c].value)
  {
  }

  lemma FinishedIs(B: Book, live: seq<nat>, k: nat, result: int, newer: seq<Ref>, older: seq<Ref>)
    requires BookSized(B) && k < |live| && forall i | 0 <= i < |live| :: live[i] < |B.request|
    requires newer == RemoveNewer(B.newer, live, k) && older == RemoveOlder(B.older, live, k)
    requires B.reported[live[k]].None?
    ensures var c := live[k];
            var B1, B' := Book(B.request, B.explicit, B.finished[c := true], B.reported, newer, older),
                          Finished(B, live, k, result);
            BookSized(B1) && BookSized(B') && Report(B1, c, result) == B' && B'.request == B.request &&
            |B'.finished| == |B'.request| == |B'.reported| && B'.explicit == B.explicit &&
            B'.finished == B.finished[c := true] && B'.reported == B.reported[c := Some(result)] && B'.newer == newer
  {
  }

  /** A call whose result has been collected leaves the list and is reported. */
  lemma TakenOff(B: Book, live: seq<nat>, owner: map<nat, nat>, S: Slots, taken: set<nat>, k: nat, result: int,
                 P: Heard,
                 taken1: set<nat>)
    requires Listed(B, live) && Held(B, live, owner, S, taken) && Honest(B, P, taken) && k < |live| && live[k] in taken
    requires forall c | c in live :: c < |B.request|
    requires taken1 == taken || (taken1 == taken - {live[k]} && Posted(P, B.request[live[k]], result))
    ensures B.reported[live[k]].None? && Listed(Finished(B, live, k, result), Without(live, k))
    ensures Held(Finished(B, live, k, result), Without(live, k), owner, S, taken1)
    ensures Honest(Finished(B, live, k, result), P, taken1)
  {
    var c := live[k];
    ListedEnds(B, live);
    ListedIs(B, live);
    assert c in live;
    HeldShape(B, live, owner, S, taken);
    hide Held, Listed, Honest, Posted, Distinct;
    HeldFinish(B, live, owner, S, taken, k, result, taken1);
    ListedFinish(B, live, k, result);
    HonestReport(B, Book(B.request, B.explicit, B.finished[c := true], B.reported, RemoveNewer(B.newer, live, k),
                         RemoveOlder(B.older, live, k)), c, result, P, taken, taken1);
  }

  lemma ExplicitReported(B: Book, live: seq<nat>, owner: map<nat, nat>, S: Slots, taken: set<nat>, c: nat, result: int,
                         P: Heard)
    requires Listed(B, live) && Held(B, live, owner, S, taken) && Honest(B, P, taken)
    requires BookSized(B) && c < |B.request| && B.explicit[c] && c !in live
    requires B.reported[c].None? ==> Answered(S, B.request[c], result) && Posted(P, B.request[c], result)
    ensures var B' := Report(B.(finished := B.finished[c := true]), c, result);
            Listed(B', live) && Held(B', live, owner, S, taken) && Honest(B', P, taken) && Kept(B, B')
  {
    hide Held, Listed, Honest, Answered, Posted;
    HeldReport(B, live, owner, S, taken, c, result, true);
    ListedReport(B, live, c, result, true);
    HonestReport(B, B.(finished := B.finished[c := true]), c, result, P, taken, taken);
  }

  class Uring {
    const rings: Rings
    var B: Book
    var newest: Ref
    var oldest: Ref
    /** The explicit read a request belongs to. */
    var owner: map<nat, nat>
    ghost var live: seq<nat>
    /** The listed calls whose result somebody else has collected, by their request. */
    ghost var taken: set<nat>

    ghost predicate Valid()
      reads this, rings, rings.table
    {
      rings.Valid() && Listed(B, live) && Held(B, live, owner, rings.table.slots, taken) &&
      Honest(B, rings.heard, taken) &&
      newest == Last(live) && oldest == Head(live)
    }

    constructor (rings: Rings)
      requires rings.Valid()
      ensures Valid() && this.rings == rings && live == [] && taken == {}
    {
      this.rings := rings;
      B, newest, oldest, owner, live, taken := Book([], [], [], [], [], []), NULL, NULL, map[], [], {};
    }

    /** In every state: a call that has reported has reported the kernel's answer to
        its own request, unless somebody else collected that. */
    lemma ReportsAnswer(c: nat)
      requires Valid() && BookSized(B) && c < |B.request| && B.request[c] != 0 && B.reported[c].Some? && c !in taken
      ensures Posted(rings.heard, B.request[c], B.reported[c].value)
    {
      hide Posted;
      HonestAt(B, rings.heard, taken, c);
    }

    /** Whether the request has been answered; looks for answers first. */
    method Ready(id: nat) returns (ready: bool)
      requires Valid()
      modifies rings, rings.table
      ensures Valid() && Settles(old(rings.table.slots), rings.table.slots)
      ensures LiveIds(rings.table.slots) == LiveIds(old(rings.table.slots))
      ensures ready <==> SettledId(rings.table.slots, id)
      ensures old(rings.heard).posted <= rings.heard.posted
      ensures rings.sent == old(rings.sent)
      ensures SettledId(old(rings.table.slots), id) ==> ready
    {
      hide SqOk, CqOk, Logged, Conserved, Truthful, Honest, PendingSlots, Settles, Held, Listed, LiveIds, Head, Last;
      ghost var S, heard := rings.table.slots, rings.heard;
      SettlesSame(S);
      var found, slot := rings.table.Lookup(id);
      ready := false;
      if found {
        if rings.table.slots.state[slot].PENDING? {
          rings.Poll();
          SettlesSlot(S, rings.table.slots, slot);
          HeldSettles(B, live, owner, S, rings.table.slots, taken);
          HonestLater(B, heard, rings.heard, taken);
        }
        ready := !rings.table.slots.state[slot].PENDING?;
      }
      SettledStays(S, rings.table.slots, id);
    }

    method SubmitAll()
      requires Valid()
      modifies rings
      ensures Valid()
      ensures rings.heard == old(rings.heard)
      ensures rings.sent.published == |rings.sent.pushed|
    {
      hide SqOk, CqOk, Logged, Conserved, Truthful, Honest, PendingSlots, Settles, Held, Listed, LiveIds, Head, Last;
      var n := rings.Submit();
    }

    lemma CallShape(c: nat)
      requires Valid() && c in live
      ensures BookSized(B) && c < |B.request| == |B.reported| == |B.finished| && B.reported[c].None?
      ensures B.request[c] in owner ==> owner[B.request[c]] < |B.request| && owner[B.request[c]] != c
      ensures c in taken + Waiters(B, live, B.request[c])
      ensures c !in taken ==> B.request[c] in LiveIds(rings.table.slots) && B.request[c] !in owner &&
                              taken + Waiters(B, live, B.request[c]) - {c} == taken
    {
      ListedIs(B, live);
      ShapeAt(B, live, owner, rings.table.slots, taken, c);
    }

    /** Collects the result of a call of the list, which frees its slot, takes it
        off the list and reports it. A call whose result was collected before finds
        no request any more. */
    method FinishListed(c: nat, ghost k: nat)
      requires Valid() && k < |live| && live[k] == c
      modifies this`B, this`newest, this`oldest, this`live, this`owner, this`taken, rings, rings.table
      ensures Valid() && live == Without(old(live), k) && |B.request| == |old(B).request| &&
              c < |B.finished| == |B.reported|
      ensures B.finished[c] && B.reported[c].Some? && (k == 0 ==> B.newer == old(B).newer)
      ensures B.request == old(B).request &&
              LiveIds(rings.table.slots) == LiveIds(old(rings.table.slots)) - {B.request[c]}
      ensures c !in old(taken) ==> Posted(rings.heard, B.request[c], B.reported[c].value)
      ensures c !in old(taken) ==> taken == old(taken) && owner == old(owner)
      ensures B.request[c] !in LiveIds(old(rings.table.slots)) ==>
                c in old(taken) && taken == old(taken) && B.reported[c] == Some(-EINVAL)
      ensures Others(old(B), B, c, c in old(taken))
      ensures Kept(old(B), B)
      ensures old(rings.heard).posted <= rings.heard.posted
    {
      hide *;
      ghost var taken0, B0, owner0 := taken, B, owner;
      CallShape(c);
      var known, result := Collect(B.request[c]);
      ghost var B1 := B;
      TakeOff(c, k, result, if c in taken0 then taken else taken - {c});
      OthersTaken(B0, B1, B, owner0, c, result, c in taken0);
      KeptFinish(B0, B, c, c in taken0);
    }

    /** Takes a call whose result has been collected off the list and reports it. */
    method TakeOff(c: nat, ghost k: nat, result: int, ghost taken1: set<nat>)
      requires Valid() && k < |live| && live[k] == c && c in taken && BookSized(B) && c < |B.request|
      requires taken1 == taken || (taken1 == taken - {c} && Posted(rings.heard, B.request[c], result))
      modifies this`B, this`newest, this`oldest, this`live, this`taken
      ensures Valid() && live == Without(old(live), k) && taken == taken1
      ensures B.request == old(B).request && BookSized(B) && |B.finished| == |B.request| == |B.reported| &&
              B.finished[c]
      ensures BookSized(old(B)) && c < |old(B).reported| && B.reported == old(B).reported[c := Some(result)]
      ensures k == 0 ==> B.newer == old(B).newer
      ensures old(B).reported[c].None? && B.explicit == old(B).explicit && B.finished == old(B).finished[c := true]
    {
      hide *;
      OffShape(c, k, result, taken1);
      var newer, older, last, first := LinkPast(B.newer, B.older, newest, oldest, c, live, k);
      FinishedIs(B, live, k, result, newer, older);
      Update(Report(Book(B.request, B.explicit, B.finished[c := true], B.reported, newer, older), c, result), last,
             first, Without(live, k), taken1);
    }

    /** The record and the ends of the list change together. */
    method Update(B': Book, newest': Ref, oldest': Ref, ghost live': seq<nat>, ghost taken': set<nat>)
      requires rings.Valid() && Listed(B', live') && Held(B', live', owner, rings.table.slots, taken')
      requires Honest(B', rings.heard, taken') && newest' == Last(live') && oldest' == Head(live')
      modifies this`B, this`newest, this`oldest, this`live, this`taken
      ensures Valid() && B == B' && newest == newest' && oldest == oldest' && live == live' && taken == taken'
    {
      hide SqOk, CqOk, Logged, Conserved, Truthful, PendingSlots, Listed, Held, Honest, Last, Head;
      B, newest, oldest, live, taken := B', newest', oldest', live', taken';
    }

    lemma OffShape(c: nat, k: nat, result: int, taken1: set<nat>)
      requires Valid() && k < |live| && live[k] == c && c in taken
      requires taken1 == taken || (taken1 == taken - {c} && c < |B.request| &&
                                   Posted(rings.heard, B.request[c], result))
      ensures BookSized(B) && c < |B.request| && B.reported[c].None? && Linked2(B.newer, B.older, live)
      ensures |B.finished| == |B.request| == |B.reported| && forall i | 0 <= i < |live| :: live[i] < |B.request|
      ensures var B' := Finished(B, live, k, result);
              Listed(B', Without(live, k)) && Honest(B', rings.heard, taken1) &&
              Held(B', Without(live, k), owner, rings.table.slots, taken1)
      ensures rings.Valid() && newest == Last(live) && oldest == Head(live)
      ensures k == 0 ==> RemoveNewer(B.newer, live, k) == B.newer
    {
      ListedIs(B, live);
      ListedLinks(B, live);
      assert c in live;
      TakenOff(B, live, owner, rings.table.slots, taken, k, result, rings.heard, taken1);
    }

    /** Reports a call, once. */
    method Finish(c: nat)
      requires Valid() && c < |B.finished|
      modifies this`B, this`newest, this`oldest, this`live, this`owner, this`taken, rings, rings.table
      ensures old(taken) == {} ==> taken == {}
      ensures BookSized(old(B))
      ensures Valid() && |B.request| == |old(B).request| && c < |B.finished| == |B.reported| && B.finished[c] &&
              B.reported[c].Some?
      ensures old(B).finished[c] ==> B == old(B)
      ensures B.request == old(B).request && Others(old(B), B, c, c in old(taken))
      ensures B.request[c] != 0 && c !in taken ==> Posted(rings.heard, B.request[c], B.reported[c].value)
      ensures Kept(old(B), B)
      ensures c !in old(taken) ==> taken == old(taken)
      ensures old(B).request[c] != 0 && !old(B).explicit[c] && !old(B).finished[c] &&
              old(B).request[c] !in LiveIds(old(rings.table.slots)) ==>
                B.reported[c] == Some(-EINVAL)
      ensures old(rings.heard).posted <= rings.heard.posted
    {
      hide SqOk, CqOk, Logged, Conserved, Truthful, Honest, PendingSlots, LiveIds, Tagged, FreeList, FreeAre, Bitmap,
           Answered,
           SettlesAt, Head, Last;
      ListedIs(B, live);
      HeldShape(B, live, owner, rings.table.slots, taken);
      HeldFinished(B, live, owner, rings.table.slots, taken);
      hide Held, Listed, Settles;
      if B.finished[c] {
        if B.request[c] != 0 && c !in taken {
          HonestAt(B, rings.heard, taken, c);
        }
        return;
      }
      if B.explicit[c] {
        FinishExplicit(c);
      } else if B.request[c] == 0 {
        HeldIgnored(B, live, owner, rings.table.slots, taken, c);
        ListedReport(B, live, c, -EOPNOTSUPP, true);
        HonestReport(B, B.(finished := B.finished[c := true]), c, -EOPNOTSUPP, rings.heard, taken, taken);
        B := Report(B.(finished := B.finished[c := true]), c, -EOPNOTSUPP);
      } else {
        ghost var k :| 0 <= k < |live| && live[k] == c;
        FinishListed(c, k);
      }
      if B.request[c] != 0 && c !in taken {
        HonestAt(B, rings.heard, taken, c);
      }
    }

    /** An explicit read keeps its slot for its caller. When the caller has already
        collected the result, the call has been reported with it. */
    method FinishExplicit(c: nat)
      requires Valid() && c < |B.explicit| && B.explicit[c] && c !in live && BookSized(B)
      modifies this`B, rings, rings.table
      ensures Valid() && B.request == old(B).request && BookSized(B) && BookSized(old(B)) && B.finished[c] &&
              B.reported[c].Some?
      ensures old(B).reported[c].None? ==> Answered(rings.table.slots, B.request[c], B.reported[c].value)
      ensures forall d | 0 <= d < |B.reported| :: d != c || old(B).reported[d].Some? ==>
                B.reported[d] == old(B).reported[d]
      ensures Kept(old(B), B)
      ensures old(rings.heard).posted <= rings.heard.posted
    {
      hide SqOk, CqOk, Logged, Conserved, Truthful, Honest, PendingSlots, LiveIds, Tagged, FreeList, FreeAre, Bitmap,
           SettlesAt, Head, Last, Settles, Kept, Posted;
      ghost var S := rings.table.slots;
      HeldShape(B, live, owner, S, taken);
      hide Held, Listed;
      var found, slot := rings.table.Lookup(B.request[c]);
      var result := -EINVAL;
      ghost var heard := rings.heard;
      if found {
        result := rings.ReqWait(slot);
        HonestLater(B, heard, rings.heard, taken);
        SettlesIds(S, rings.table.slots);
        HeldSettles(B, live, owner, S, rings.table.slots, taken);
      }
      ExplicitReported(B, live, owner, rings.table.slots, taken, c, result, rings.heard);
      B := Report(B.(finished := B.finished[c := true]), c, result);
    }

    /** Makes room in the request table: completes the oldest calls, up to the first
        still running, or waits for the oldest. It says no only when the list is
        empty, and otherwise shortens it. */
    method Reclaim() returns (reclaimed: bool)
      requires Valid()
      modifies this`B, this`newest, this`oldest, this`live, this`owner, this`taken, rings, rings.table
      ensures old(taken) == {} ==> taken == {}
      ensures BookSized(old(B)) && (forall i | 0 <= i < |old(live)| :: old(live)[i] < |old(B).request|)
      ensures BookSized(B) && (forall i | 0 <= i < |live| :: live[i] < |B.request|)
      ensures Valid() && (reclaimed <==> old(live) != []) && |live| + (if reclaimed then 1 else 0) <= |old(live)|
      ensures exists k :: 0 <= k <= |old(live)| && live == old(live)[k..] && AllFinished(B, old(live)[..k])
      ensures Kept(old(B), B) && B.request == old(B).request
      ensures !reclaimed ==> rings.table.slots == old(rings.table.slots)
      ensures old(live) != [] && SettledId(old(rings.table.slots), old(B).request[old(live)[0]]) ==>
                live == [] || !SettledId(rings.table.slots, B.request[live[0]])
    {
      hide *;
      ghost var was, gone, B0 := live, 0, B;
      SizedBook();
      KeptSame(B0);
      NoneFinished(B0, was);
      reclaimed := false;
      var c := oldest;
      First();
      while c != NULL
        invariant Valid() && 0 <= gone <= |was| && live == was[gone..] && c == Head(live) && (reclaimed <==> gone > 0)
        invariant Kept(B0, B) && B.request == B0.request && AllFinished(B, was[..gone])
        invariant old(taken) == {} ==> taken == {}
        invariant gone == 0 ==> rings.table.slots == old(rings.table.slots)
        decreases |live|
      {
        First();
        assert was[gone..][1..] == was[gone + 1..];
        var ready := Ready(B.request[c]);
        ghost var B1 := B;
        if !ready {
          if !reclaimed {
            SubmitAll();
            FinishListed(c, 0);
            OneMore(B0, B1, B, was, gone);
            gone := gone + 1;
          }
          SizedBook();
          return true;
        }
        FinishListed(c, 0);
        OneMore(B0, B1, B, was, gone);
        reclaimed, gone := true, gone + 1;
        c := B.newer[c];
      }
      First();
      SizedBook();
    }

    /** Where the walk of the list starts. */
    lemma First()
      requires Valid()
      ensures BookSized(B) && oldest == Head(live) && (live == [] <==> oldest == NULL)
      ensures live != [] ==>
                oldest == live[0] && live[0] < |B.newer| == |B.request| && B.newer[live[0]] == Head(live[1..]) &&
                Without(live, 0) == live[1..]
    {
      ListedIs(B, live);
      if live != [] {
        ListedFirst(B, live);
        assert live[0] in live;
      }
    }

    /** Queues the call's request, making room as often as it takes. */
    method Queue(ignore: bool, shapeOk: bool, transfer: bool, op: nat, target: int, addr: nat, len: nat,
                 offset: nat, refusal: int)
      returns (c: nat)
      requires Valid()
      modifies this`B, this`newest, this`oldest, this`live, this`owner, this`taken, rings, rings.table
      ensures old(taken) == {} ==> taken == {}
      ensures Sized(rings.table.slots) && Sized(old(rings.table.slots))
      ensures Valid() && c == |old(B).request| && |B.request| == c + 1 && BookSized(B) && !B.finished[c] &&
              !B.explicit[c]
      ensures ignore ==> B.request[c] == 0 && B.reported[c].None?
      ensures !ignore && !shapeOk ==> B.reported[c] == Some(-EINVAL)
      ensures !ignore && shapeOk && transfer && len > UINT_MAX ==> B.reported[c] == Some(-EOVERFLOW)
      ensures !ignore && shapeOk && !(transfer && len > UINT_MAX) ==>
                Outcome(B, live, rings.table.slots, rings.sent, rings.fd, c, op, target, addr, len, offset, refusal)
      ensures Kept(old(B), B) && c !in taken
      ensures !ignore && shapeOk && refusal == 0 && len <= MAX_LEN && target != rings.fd ==>
                (!Full(old(rings.table.slots)) ==> B.request[c] != 0) &&
                (Full(old(rings.table.slots)) && old(live) == [] ==> B.request[c] == 0)
    {
      hide SqOk, CqOk, Logged, Conserved, Truthful, Honest, PendingSlots, LiveIds, Tagged, FreeList, FreeAre, Bitmap,
           Answered,
           SettlesAt, Head, Last, Settles;
      hide Held, Listed;
      ListedIs(B, live);
      NotTaken();
      c := |B.request|;
      if ignore {
        Record(0, Option.None);
        return;
      }
      if !shapeOk {
        Record(0, Some(-EINVAL));
        return;
      }
      if transfer && len > UINT_MAX {
        Record(0, Some(-EOVERFLOW));
        return;
      }
      Retry(op, target, addr, len, offset, refusal);
    }

    /** Tries again as long as there is something to complete to make room. */
    method Retry(op: nat, target: int, addr: nat, len: nat, offset: nat, refusal: int)
      requires Valid()
      modifies this`B, this`newest, this`oldest, this`live, this`owner, this`taken, rings, rings.table
      ensures old(taken) == {} ==> taken == {}
      ensures Valid() && |B.request| == |old(B).request| + 1 && BookSized(B) && Kept(old(B), B)
      ensures Sized(rings.table.slots) && Sized(old(rings.table.slots)) && |old(B).request| !in taken
      ensures Outcome(B, live, rings.table.slots, rings.sent, rings.fd, |old(B).request|, op, target, addr, len, offset,
                      refusal)
      ensures refusal == 0 && len <= MAX_LEN && target != rings.fd ==>
                (!Full(old(rings.table.slots)) ==> B.request[|old(B).request|] != 0) &&
                (Full(old(rings.table.slots)) && old(live) == [] ==> B.request[|old(B).request|] == 0)
    {
      hide *;
      SizedBook();
      ghost var first, was := true, B;
      KeptSame(B);
      while true
        invariant Valid() && |B.request| == |was.request| && BookSized(B) && Kept(was, B) && Sized(rings.table.slots)
        invariant old(taken) == {} ==> taken == {}
        invariant first ==> live == old(live) && rings.table.slots == old(rings.table.slots)
        invariant !first ==> old(live) != [] && (refusal == 0 ==> Full(old(rings.table.slots)))
        decreases |live|
      {
        ghost var B0, live0, pushed := B, live, rings.sent.pushed;
        NotTaken();
        var id, error := Dispatch(op, target, addr, len, offset, refusal);
        SizedBook();
        if id != 0 {
          KeptThen(was, B0, B);
          OutcomeQueued(B0, B, live0, live, rings.table.slots, pushed, rings.sent, rings.fd, op, target, addr, len,
                        offset, refusal, id);
          return;
        }
        var again := false;
        if error == EAGAIN {
          again := Reclaim();
          SizedBook();
          KeptThen(was, B0, B);
        }
        if !again {
          ghost var B1 := B;
          NotTaken();
          Record(0, Some(if error != 0 then -error else -EIO));
          KeptThen(was, B1, B);
          OutcomeRecorded(B1, B, live, rings.table.slots, rings.sent, rings.fd, op, target, addr, len, offset, refusal,
                          error);
          return;
        }
        first := false;
      }
    }

    lemma NotTaken()
      requires Valid()
      ensures |B.request| !in taken
    {
    }

    lemma SizedBook()
      requires Valid()
      ensures BookSized(B) && Sized(rings.table.slots) && forall i | 0 <= i < |live| :: live[i] < |B.request|
    {
      BookShape(B, live);
      ListedEnds(B, live);
    }

    method Record(request: nat, reported: Option<int>)
      requires Valid() && request == 0
      modifies this`B
      ensures Valid() && BookSized(B) && B == Recorded(old(B), 0, false, reported) && Kept(old(B), B)
    {
      hide SqOk, CqOk, Logged, Conserved, Truthful, Honest, PendingSlots, LiveIds, Held, Head, Last;
      ListedRecorded(B, live, 0, false, reported);
      HeldRecorded(B, live, owner, rings.table.slots, taken, reported);
      HonestRegister(B, Recorded(B, 0, false, reported), 0, reported, rings.heard, taken);
      B := Recorded(B, 0, false, reported);
    }

    /** Unless its descriptor or path is refused, the request goes to the ring; the
        call joins the list when that succeeds. */
    method Dispatch(op: nat, target: int, addr: nat, len: nat, offset: nat, refusal: int) returns (id: nat, error: int)
      requires Valid()
      modifies this`B, this`newest, this`oldest, this`live, rings, rings.table
      ensures Valid() && BookSized(B)
      ensures id == 0 ==> B == old(B) && live == old(live)
      ensures id != 0 ==> live == old(live) + [|old(B).request|] && B.request == old(B).request + [id] &&
                          B.reported == old(B).reported + [Option.None] && B.finished == old(B).finished + [false] &&
                          B.explicit == old(B).explicit + [false]
      ensures rings.sent.pushed == old(rings.sent).pushed + if id != 0 then [Sqe(op, target, addr, len, offset, id)]
              else []
      ensures refusal != 0 ==> id == 0 && error == refusal
      ensures refusal == 0 && id == 0 ==> error == EAGAIN || error == EBADF || error == 0
      ensures refusal == 0 ==> (id == 0 && error == 0 <==> len > MAX_LEN)
      ensures refusal == 0 ==> (id == 0 && error == EBADF <==> len <= MAX_LEN && target == rings.fd)
      ensures Sized(old(rings.table.slots)) && (id == 0 ==> rings.table.slots == old(rings.table.slots))
      ensures refusal == 0 ==> (id == 0 && error == EAGAIN <==>
                                len <= MAX_LEN && target != rings.fd && Full(old(rings.table.slots)))
      ensures Kept(old(B), B)
    {
      hide SqOk, CqOk, Logged, Conserved, Truthful, Honest, PendingSlots, LiveIds, FreeList, FreeAre, Bitmap, Answered,
           Head,
           Last, Held, Tagged;
      if refusal != 0 {
        BookShape(B, live);
        return 0, refusal;
      }
      ListedEnds(B, live);
      ListedLinks(B, live);
      hide Listed, Linked2, AddNewer;
      ghost var S, which, given, nextGen := rings.table.slots, rings.table.which, rings.table.given,
        rings.table.nextGen;
      HeldShape(B, live, owner, S, taken);
      var e;
      id, e := rings.Push(op, target, addr, len, offset);
      error := if e.Again? then EAGAIN else if e.OwnDescriptor? then EBADF else 0;
      if e.Fine? {
        AnsweredStill(S, rings.table.slots, id, owner, which, given, nextGen);
        HeldQueued(B, live, owner, S, rings.table.slots, id, taken);
        ListedQueued(B, live, id);
        HonestRegister(B, Queued(B, live, id), id, Option.None, rings.heard, taken);
        Append(id);
      }
    }

    /** The call's record goes to the end of the list. */
    method Append(id: nat)
      requires rings.Valid() && Listed(B, live) && newest == Last(live) && oldest == Head(live)
      requires (live != [] ==> live[|live| - 1] < |B.newer|) && Listed(Queued(B, live, id), live + [|B.request|])
      requires Held(Queued(B, live, id), live + [|B.request|], owner, rings.table.slots, taken)
      requires Honest(Queued(B, live, id), rings.heard, taken)
      modifies this`B, this`newest, this`oldest, this`live
      ensures Valid() && live == old(live) + [|old(B).request|] && B == Queued(old(B), old(live), id)
    {
      hide SqOk, CqOk, Logged, Conserved, Truthful, Honest, PendingSlots, LiveIds, Head, Last, Held, Listed, AddNewer,
           Queued,
           Distinct;
      ListedEnds(B, live);
      LastOf(live, |B.request|);
      QueuedIs(B, live, id);
      var newer, first := LinkNewest(B.newer, newest, oldest, live);
      oldest := first;
      B := Book(B.request + [id], B.explicit + [false], B.finished + [false], B.reported + [Option.None], newer,
                B.older + [newest]);
      newest := |B.request| - 1;
      live := live + [|B.request| - 1];
    }

    /** A read the program starts itself, and whose result it will collect. */
    method ExplicitRead(target: int, addr: nat, len: nat, offset: nat) returns (id: nat)
      requires Valid()
      modifies this`B, this`owner, rings, rings.table
      ensures Valid() && live == old(live)
      ensures id == 0 ==> B == old(B) && owner == old(owner)
      ensures Sized(old(rings.table.slots)) &&
              (id == 0 <==> len > MAX_LEN || target == rings.fd || Full(old(rings.table.slots)))
      ensures id != 0 ==> owner == old(owner)[id := |old(B).request|] && B == Recorded(old(B), id, true, Option.None)
      ensures id != 0 ==> rings.sent.pushed == old(rings.sent).pushed + [Sqe(OP_READ, target, addr, len, offset, id)]
      ensures Kept(old(B), B)
    {
      hide SqOk, CqOk, Logged, Conserved, Truthful, Honest, PendingSlots, LiveIds, FreeList, FreeAre, Bitmap, Answered,
           Head,
           Last, Held, Tagged, Listed;
      ghost var S, which, given, nextGen := rings.table.slots, rings.table.which, rings.table.given,
        rings.table.nextGen;
      HeldShape(B, live, owner, S, taken);
      var e;
      id, e := rings.Push(OP_READ, target, addr, len, offset);
      if e.Fine? {
        AnsweredStill(S, rings.table.slots, id, owner, which, given, nextGen);
        HeldRead(B, live, owner, S, rings.table.slots, id, taken);
        ListedRecorded(B, live, id, true, Option.None);
        HonestRegister(B, Recorded(B, id, true, Option.None), id, Option.None, rings.heard, taken);
        owner := owner[id := |B.request|];
        B := Recorded(B, id, true, Option.None);
      }
    }

    /** Collects the result of any request. An explicit read's call reports it,
        whether or not a poll has reported it before; the listed calls that wait for
        this request will not find it any more. */
    method Collect(id: nat) returns (known: bool, result: int)
      requires Valid()
      modifies this`B, this`owner, this`taken, rings, rings.table
      ensures Valid() && (known <==> id in LiveIds(old(rings.table.slots))) && BookSized(B) && BookSized(old(B))
      ensures LiveIds(rings.table.slots) == LiveIds(old(rings.table.slots)) - {id}
      ensures known ==> Posted(rings.heard, id, result)
      ensures !known ==> result == -EINVAL && B == old(B) && id !in old(owner)
      ensures known && id in old(owner) ==>
                var c := old(owner)[id];
                c < |B.reported| == |old(B).reported| && B.reported[c] == Some(result)
      ensures forall d | 0 <= d < |B.reported| == |old(B).reported| &&
              old(B).reported[d].Some? :: B.reported[d] == old(B).reported[d]
      ensures B == old(B).(reported := B.reported) && |B.reported| == |old(B).reported|
      ensures forall d | 0 <= d < |B.reported| :: B.reported[d] == old(B).reported[d] ||
                (id in old(owner) && d == old(owner)[id])
      ensures owner == old(owner) - {id}
      ensures taken == if known then old(taken) + Waiters(old(B), live, id) else old(taken)
      ensures Kept(old(B), B)
      ensures old(rings.heard).posted <= rings.heard.posted
    {
      hide SqOk, CqOk, Logged, Conserved, Truthful, Honest, PendingSlots, LiveIds, FreeList, FreeAre, Bitmap, Answered,
           Head,
           Last, Tagged, SettlesAt, Waiters, Held, Listed, Posted;
      ghost var S, heard := rings.table.slots, rings.heard;
      ghost var which, given, nextGen := rings.table.which, rings.table.given, rings.table.nextGen;
      OwnerShape(B, live, owner, S, taken, id);
      known, result := rings.Result(id);
      HonestLater(B, heard, rings.heard, taken);
      if !known {
        return;
      }
      AfterCollect(B, live, owner, S, taken, rings.table.slots, id, result, which, given, nextGen, rings.heard);
      taken := taken + Waiters(B, live, id);
      if id in owner {
        B := Report(B, owner[id], result);
      }
      owner := owner - {id};
    }

    lemma ReportedWhenFinished(c: nat)
      requires Valid() && c < |B.finished|
      ensures BookSized(B) && c < |B.request| == |B.finished| == |B.reported| == |B.explicit|
      ensures B.finished[c] ==> B.reported[c].Some?
    {
      HeldFinished(B, live, owner, rings.table.slots, taken);
    }

    /** What the framework asks of the runtime: whether the call is done, and
        depending on the mode to send the queue and to wait. */
    method Poll(c: nat, mode: Mode) returns (done: bool)
      requires Valid() && c < |B.finished|
      modifies this`B, this`newest, this`oldest, this`live, this`owner, this`taken, rings, rings.table
      ensures old(taken) == {} ==> taken == {}
      ensures BookSized(old(B))
      ensures Valid() && c < |B.finished| == |B.reported| && (done <==> B.finished[c]) && (done ==> B.reported[c].Some?)
      ensures mode == BLOCK && !AtSubmission(old(B), c) ==> done
      ensures AtSubmission(old(B), c) || (old(B).request[c] == 0 && mode == CHECK && !old(B).finished[c]) ==>
                !done && B == old(B)
      ensures old(B).finished[c] ==> B == old(B)
      ensures Kept(old(B), B)
      ensures done && old(B).request[c] != 0 && !old(B).explicit[c] && !old(B).finished[c] &&
              old(B).request[c] !in LiveIds(old(rings.table.slots)) ==>
                B.reported[c] == Some(-EINVAL)
      ensures old(rings.heard).posted <= rings.heard.posted
      ensures B.request == old(B).request
      ensures old(B).request[c] != 0 && !old(B).finished[c] && SettledId(old(rings.table.slots), old(B).request[c]) ==>
                done
      ensures old(B).request[c] != 0 && mode == PROGRESS && !done ==> rings.sent.published == |rings.sent.pushed|
      ensures mode == CHECK && !done ==> rings.sent == old(rings.sent)
    {
      hide SqOk, CqOk, Logged, Conserved, Truthful, Honest, PendingSlots, LiveIds, Tagged, FreeList, FreeAre, Bitmap,
           Answered, SettlesAt, Head, Last, Settles, Held, Listed, Posted, Kept, Others, SettledId, Valid;
      ReportedWhenFinished(c);
      KeptSame(B);
      if AtSubmission(B, c) {
        return false;
      }
      if B.finished[c] {
        return true;
      }
      if B.request[c] == 0 {
        done := mode != CHECK;
        if done {
          Finish(c);
        }
        return;
      }
      var ready := Ready(B.request[c]);
      if !ready && mode != CHECK {
        SubmitAll();
        if mode == BLOCK {
          ready := true;
        } else {
          ready := Ready(B.request[c]);
        }
      }
      if ready {
        Finish(c);
      }
      done := ready;
    }

    /** A queued call that nobody has taken the result from has its request in the
        table. */
    lemma Waits(c: nat)
      requires Valid() && BookSized(B) && c < |B.request| && B.request[c] != 0 && !B.explicit[c] && !B.finished[c]
      requires c !in taken
      ensures B.request[c] in LiveIds(rings.table.slots)
    {
      ListedIs(B, live);
      HeldShape(B, live, owner, rings.table.slots, taken);
    }

    /** A blocking poll of a queued call whose request has gone reports -EINVAL. */
    method PollGone(c: nat)
      requires Valid() && BookSized(B) && c < |B.request| && B.request[c] != 0 && !B.explicit[c] && !B.finished[c]
      requires B.request[c] !in LiveIds(rings.table.slots)
      modifies this`B, this`newest, this`oldest, this`live, this`owner, this`taken, rings, rings.table
      ensures Valid() && B.request == old(B).request && Kept(old(B), B) && old(rings.heard).posted <= rings.heard.posted
      ensures |B.request| == |B.reported| && B.reported[c] == Some(-EINVAL)
    {
      assert !AtSubmission(B, c);
      hide *;
      var done := Poll(c, BLOCK);
      SizedBook();
    }

    /** An annotated read whose request the program itself collects: the program gets
        the kernel's answer, and the call reports -EINVAL. */
    method CollectedAway(target: int, addr: nat, len: nat, offset: nat) returns (c: nat, result: int)
      requires Valid() && Sized(rings.table.slots) && !Full(rings.table.slots) && len <= MAX_LEN && target != rings.fd
      modifies this`B, this`newest, this`oldest, this`live, this`owner, this`taken, rings, rings.table
      ensures Valid() && c == |old(B).request| && c < |B.request| == |B.reported| && Kept(old(B), B)
      ensures B.reported[c] == Some(-EINVAL) && Posted(rings.heard, B.request[c], result)
    {
      hide *;
      ghost var B0 := B;
      c := Queue(false, true, true, OP_READ, target, addr, len, offset, 0);
      ghost var B1 := B;
      Waits(c);
      var known;
      known, result := Collect(B.request[c]);
      ghost var B2, heard := B, rings.heard;
      KeptThen(B0, B1, B2);
      PollGone(c);
      KeptThen(B0, B2, B);
      PostedStays(heard, rings.heard, B.request[c], result);
    }

    /** Everything the program, the framework and other threads may ask for, any
        number of times: what has been reported stays. */
    method AnyNumber()
      requires Valid()
      modifies this`B, this`newest, this`oldest, this`live, this`owner, this`taken, rings, rings.table
      ensures Valid() && Kept(old(B), B)
    {
      hide *;
      SizedBook();
      KeptSame(B);
      var steps: nat := *;
      while steps > 0
        invariant Valid() && Kept(old(B), B)
      {
        ghost var B1 := B;
        Anything();
        KeptThen(old(B), B1, B);
        steps := steps - 1;
      }
    }

    method Anything()
      requires Valid()
      modifies this`B, this`newest, this`oldest, this`live, this`owner, this`taken, rings, rings.table
      ensures Valid() && Kept(old(B), B)
    {
      hide *;
      SizedBook();
      KeptSame(B);
      var which: nat, x: nat, op: nat, target: int, addr: nat, len: nat, offset: nat := *, *, *, *, *, *, *;
      var ignore, shapeOk, transfer, mode: Mode, refusal: int := *, *, *, *, *;
      if which == 0 {
        var c := Queue(ignore, shapeOk, transfer, op, target, addr, len, offset, refusal);
      } else if which == 1 {
        if x < |B.request| {
          var done := Poll(x, mode);
        }
      } else if which == 2 {
        var known, result := Collect(x);
      } else if which == 3 {
        var id := ExplicitRead(target, addr, len, offset);
      } else {
        SubmitAll();
      }
    }
  }

  lemma ListedLinks(B: Book, live: seq<nat>)
    requires Listed(B, live)
    ensures Linked2(B.newer, B.older, live)
  {
  }
}