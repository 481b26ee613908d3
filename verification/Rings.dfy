/** The submission and completion rings, shared with the kernel through 32-bit
    counters that wrap, and the requests in flight between them. */
module Rings {
  import opened Bits
  import opened RequestTable
  import opened RequestLog

  const ENTRIES: nat := 1024
  const CQ_ENTRIES: nat := 2048
  const MAX_LEN: nat := 0xFFFF_FFFF

  datatype Sqe = Sqe(op: nat, fd: int, addr: nat, len: nat, offset: nat, userData: nat)

  datatype Cqe = Cqe(userData: nat, res: int)

  /** A counter of `n` steps as the rings keep it. */
  function Wrapped(n: nat): nat {
    n % U32
  }

  /** The place a wrapped counter points at. */
  function Place(counter: nat, bits: nat): nat {
    BitAnd(counter, Pow2(bits) - 1)
  }

  const SQ_BITS: nat := 10
  const CQ_BITS: nat := 11

  /** The place of the `n`th entry of a ring of `d`. */
  function Spot(n: nat, d: nat): (r: nat)
    requires d > 0
    ensures r < d
  {
    n % d
  }

  lemma PlaceOf(n: nat)
    ensures Place(Wrapped(n), SQ_BITS) == Spot(n, ENTRIES)
    ensures Place(Wrapped(n), CQ_BITS) == Spot(n, CQ_ENTRIES)
  {
    AndMask(Wrapped(n), SQ_BITS);
    AndMask(Wrapped(n), CQ_BITS);
    assert Pow2(5) == 32 && Pow2(6) == 64;
    Pow2Add(5, 5);
    Pow2Add(5, 6);
    RemainderOfRemainder(n, 0x40_0000, ENTRIES);
    RemainderOfRemainder(n, 0x20_0000, CQ_ENTRIES);
  }

  lemma RemainderOfRemainder(n: nat, a: nat, d: nat)
    requires a > 0 && d > 0
    ensures n % (a * d) % d == n % d
  {
    var m := a * d;
    var r := n % m;
    assert n == n / m * m + r && r == r / d * d + r % d;
    assert n / m * m == n / m * a * d;
    assert n == (n / m * a + r / d) * d + r % d;
    RemainderUnique(n / m * a + r / d, r % d, n / d, n % d, d);
  }

  /** Wrapped counters tell fewer than 2^32 steps apart. */
  lemma WrappedApart(a: nat, b: nat)
    requires a <= b < a + U32
    ensures Wrapped(a) == Wrapped(b) <==> a == b
  {
  }

  lemma WrappedNext(n: nat)
    ensures (Wrapped(n) + 1) % U32 == Wrapped(n + 1)
  {
  }

  lemma Multiples(k: int, d: nat)
    ensures k <= 0 ==> k * d <= 0
    ensures k >= 1 ==> k * d >= d
  {
  }

  /** Fewer than `d` steps apart, two counts have different places. */
  lemma PlacesApart(a: nat, b: nat, d: nat)
    requires a < b < a + d
    ensures Spot(a, d) != Spot(b, d)
  {
    if a % d == b % d {
      var q, p := a / d, b / d;
      assert a == q * d + a % d && b == p * d + b % d;
      assert (p - q) * d == b - a;
      Multiples(p - q, d);
    }
  }

  datatype Sq = Sq(sqes: seq<Sqe>, index: seq<nat>, tail: nat, sqeTail: nat, sqeHead: nat, queued: nat)

  datatype Cq = Cq(cqes: seq<Cqe>, head: nat, tail: nat, local: nat)

  /** Everything ever pushed, how much of it has been published, and what the
      kernel took. */
  datatype Sent = Sent(pushed: seq<Sqe>, published: nat, taken: seq<Sqe>)

  /** Everything the kernel ever posted, and how much has been reaped. */
  datatype Heard = Heard(posted: seq<Cqe>, reaped: nat)

  ghost predicate SqOk(sq: Sq, P: Sent) {
    |sq.sqes| == |sq.index| == ENTRIES && P.published <= |P.pushed| && P.taken == P.pushed[..P.published] &&
    sq.tail == sq.sqeHead == Wrapped(P.published) && sq.sqeTail == Wrapped(|P.pushed|) &&
    sq.queued == |P.pushed| - P.published <= ENTRIES &&
    forall i | P.published <= i < |P.pushed| :: sq.sqes[Spot(i, ENTRIES)] == P.pushed[i]
  }

  ghost predicate CqOk(cq: Cq, P: Heard) {
    |cq.cqes| == CQ_ENTRIES && P.reaped <= |P.posted| <= P.reaped + CQ_ENTRIES &&
    cq.tail == Wrapped(|P.posted|) && cq.local == cq.head == Wrapped(P.reaped) &&
    forall i | P.reaped <= i < |P.posted| :: cq.cqes[Spot(i, CQ_ENTRIES)] == P.posted[i]
  }

  function SqeIds(s: seq<Sqe>): (ids: seq<nat>)
    ensures |ids| == |s| && forall i | 0 <= i < |s| :: ids[i] == s[i].userData
  {
    seq(|s|, i requires 0 <= i < |s| => s[i].userData)
  }

  function CqeIds(s: seq<Cqe>): (ids: seq<nat>)
    ensures |ids| == |s| && forall i | 0 <= i < |s| :: ids[i] == s[i].userData
  {
    seq(|s|, i requires 0 <= i < |s| => s[i].userData)
  }

  /** Pushed but not published; posted but not reaped. */
  ghost function Unpublished(P: Sent): seq<nat>
    requires P.published <= |P.pushed|
  {
    SqeIds(P.pushed[P.published..])
  }

  ghost function Unreaped(P: Heard): seq<nat>
    requires P.reaped <= |P.posted|
  {
    CqeIds(P.posted[P.reaped..])
  }

  // ---- Requests in flight ----

  predicate InFlight(S: Slots, id: nat) {
    Sized(S) && id % U32 < SLOTS && S.state[id % U32].PENDING? && S.id[id % U32] == id
  }

  function AsSet(s: seq<nat>): set<nat> {
    set x | x in s
  }

  predicate NoDup(s: seq<nat>) {
    forall i, j | 0 <= i < j < |s| :: s[i] != s[j]
  }

  /** Every pending request is in exactly one place: waiting to be published, with
      the kernel, or waiting to be reaped. */
  ghost predicate Conserved(S: Slots, U: seq<nat>, O: set<nat>, C: seq<nat>) {
    Sized(S) && NoDup(U) && NoDup(C) &&
    (forall i | 0 <= i < |U| :: InFlight(S, U[i]) && U[i] !in O && U[i] !in C) &&
    (forall i | 0 <= i < |C| :: InFlight(S, C[i]) && C[i] !in O) &&
    (forall id | id in O :: InFlight(S, id)) &&
    forall s | 0 <= s < SLOTS && S.state[s].PENDING? ::
      S.id[s] % U32 == s && (S.id[s] in U || S.id[s] in O || S.id[s] in C)
  }

  ghost function PendingSlots(S: Slots): set<nat>
    requires Sized(S)
  {
    set s: nat | s < SLOTS && S.state[s].PENDING?
  }

  /** Distinct requests in flight have distinct slots. */
  lemma {:induction false} FitIn(S: Slots, ids: seq<nat>, P: set<nat>)
    requires NoDup(ids) && forall i | 0 <= i < |ids| :: InFlight(S, ids[i]) && ids[i] % U32 in P
    ensures |ids| <= |P|
  {
    if ids != [] {
      var s, P' := ids[0] % U32, P - {ids[0] % U32};
      forall i | 0 <= i < |ids[1..]|
        ensures ids[1..][i] % U32 in P'
      {
        assert InFlight(S, ids[i + 1]) && InFlight(S, ids[0]);
      }
      FitIn(S, ids[1..], P');
      assert |P'| == |P| - 1;
    }
  }

  lemma {:induction false} RangeSize(P: set<nat>, n: nat)
    requires forall s | s in P :: s < n
    ensures |P| <= n
  {
    if n > 0 {
      RangeSize(P - {n - 1}, n - 1);
    } else {
      assert P == {};
    }
  }

  lemma FewInFlight(S: Slots, U: seq<nat>, O: set<nat>, C: seq<nat>)
    requires Conserved(S, U, O, C)
    ensures |U| <= |PendingSlots(S)| <= SLOTS && |C| <= SLOTS
    ensures (exists s :: 0 <= s < SLOTS && !S.state[s].PENDING?) ==> |U| < SLOTS
    ensures O != {} ==> |C| < SLOTS
  {
    var P := PendingSlots(S);
    FitIn(S, U, P);
    FitIn(S, C, P);
    RangeSize(P, SLOTS);
    if s :| 0 <= s < SLOTS && !S.state[s].PENDING? {
      Room(P, s, SLOTS);
    }
    if O != {} {
      AnswerFits(S, O, C);
    }
    hide Conserved;
  }

  lemma Room(P: set<nat>, s: nat, n: nat)
    requires (forall t | t in P :: t < n) && s < n && s !in P
    ensures |P| < n
  {
    RangeSize(P + {s}, n);
  }

  lemma AnswerFits(S: Slots, O: set<nat>, C: seq<nat>)
    requires Sized(S) && NoDup(C) && O != {} && forall i | 0 <= i < |C| :: InFlight(S, C[i]) && C[i] !in O
    requires forall id | id in O :: InFlight(S, id)
    ensures |C| < SLOTS
  {
    var P := PendingSlots(S);
    var id :| id in O;
    forall i | 0 <= i < |C|
      ensures C[i] % U32 in P - {id % U32}
    {
      assert InFlight(S, C[i]) && InFlight(S, id);
    }
    FitIn(S, C, P - {id % U32});
    RangeSize(P, SLOTS);
    assert |P - {id % U32}| == |P| - 1;
  }

  // ---- Each step moves requests along ----

  lemma ConservedPush(S: Slots, U: seq<nat>, O: set<nat>, C: seq<nat>, s: nat, gen: nat)
    requires Conserved(S, U, O, C) && s < SLOTS && S.state[s].FREE?
    ensures Conserved(Allocated(S, s, gen), U + [IdOf(gen, s)], O, C)
    ensures |PendingSlots(Allocated(S, s, gen))| == |PendingSlots(S)| + 1
  {
    var S', id := Allocated(S, s, gen), IdOf(gen, s);
    IdParts(gen, s);
    forall x | InFlight(S, x)
      ensures InFlight(S', x) && x != id
    {
    }
    assert PendingSlots(S') == PendingSlots(S) + {s};
    assert (U + [id])[|U|] == id;
    forall t | 0 <= t < SLOTS && S'.state[t].PENDING?
      ensures S'.id[t] % U32 == t && (S'.id[t] in U + [id] || S'.id[t] in O || S'.id[t] in C)
    {
    }
  }

  lemma ConservedPublish(S: Slots, U: seq<nat>, O: set<nat>, C: seq<nat>)
    requires Conserved(S, U, O, C)
    ensures Conserved(S, [], O + AsSet(U), C)
  {
  }

  lemma ConservedPost(S: Slots, U: seq<nat>, O: set<nat>, C: seq<nat>, id: nat)
    requires Conserved(S, U, O, C) && id in O
    ensures Conserved(S, U, O - {id}, C + [id])
  {
  }

  lemma ConservedReap(S: Slots, U: seq<nat>, O: set<nat>, C: seq<nat>, result: int)
    requires Conserved(S, U, O, C) && C != []
    ensures InFlight(S, C[0])
    ensures var s := C[0] % U32;
            var S' := S.(state := S.state[s := if result < 0 then FAILED else DONE], result := S.result[s := result]);
            Conserved(S', U, O, C[1..]) && |PendingSlots(S')| == |PendingSlots(S)| - 1
  {
    var s := C[0] % U32;
    var state := if result < 0 then FAILED else DONE;
    assert InFlight(S, C[0]);
    ReapConserves(S, U, O, C, state, result);
    assert PendingSlots(S) == PendingSlots(S.(state := S.state[s := state], result := S.result[s := result])) + {s};
    hide Conserved;
  }

  lemma ReapConserves(S: Slots, U: seq<nat>, O: set<nat>, C: seq<nat>, state: SlotState, result: int)
    requires Conserved(S, U, O, C) && C != [] && InFlight(S, C[0]) && (state.DONE? || state.FAILED?)
    ensures var s := C[0] % U32;
            Conserved(S.(state := S.state[s := state], result := S.result[s := result]), U, O, C[1..])
  {
  }

  // ---- The rings through the operations ----

  lemma SqPush(sq: Sq, P: Sent, sqe: Sqe)
    requires SqOk(sq, P) && sq.queued < ENTRIES
    ensures Place(sq.sqeTail, SQ_BITS) < |sq.sqes|
    ensures SqOk(sq.(sqes := sq.sqes[Place(sq.sqeTail, SQ_BITS) := sqe], sqeTail := (sq.sqeTail + 1) % U32,
                     queued := sq.queued + 1),
                 P.(pushed := P.pushed + [sqe]))
    ensures Unpublished(P.(pushed := P.pushed + [sqe])) == Unpublished(P) + [sqe.userData]
  {
    var n := |P.pushed|;
    PlaceOf(n);
    WrappedNext(n);
    hide Place, Wrapped, Spot;
    var P' := P.(pushed := P.pushed + [sqe]);
    forall i | P.published <= i < n
      ensures Spot(i, ENTRIES) != Spot(n, ENTRIES)
    {
      PlacesApart(i, n, ENTRIES);
    }
    assert P'.pushed[..P.published] == P.pushed[..P.published];
    UnpublishedMore(P, sqe);
    hide Unpublished;
  }

  lemma UnpublishedMore(P: Sent, sqe: Sqe)
    requires P.published <= |P.pushed|
    ensures Unpublished(P.(pushed := P.pushed + [sqe])) == Unpublished(P) + [sqe.userData]
  {
  }

  /** What the kernel finds when it follows `n` entries of the index array. */
  method Enter(sq: Sq, ghost P: Sent, head: nat, n: nat) returns (batch: seq<Sqe>)
    requires SqOk(sq, P) && head == Wrapped(P.published) && n == |P.pushed| - P.published
    requires forall i | P.published <= i < |P.pushed| :: sq.index[Spot(i, ENTRIES)] == Spot(i, ENTRIES)
    ensures batch == P.pushed[P.published..]
  {
    hide Place, Wrapped, Spot;
    batch := [];
    var at := head;
    for j := 0 to n
      invariant at == Wrapped(P.published + j) && batch == P.pushed[P.published..P.published + j]
    {
      PlaceOf(P.published + j);
      WrappedNext(P.published + j);
      batch := batch + [sq.sqes[sq.index[Place(at, SQ_BITS)]]];
      at := (at + 1) % U32;
    }
  }

  /** The queued requests are entered in the index array, from the first not yet
      published to the last. */
  method FillIndex(sq: Sq, ghost P: Sent) returns (index: seq<nat>)
    requires SqOk(sq, P)
    ensures |index| == ENTRIES && forall i | P.published <= i < |P.pushed| ::
              index[Spot(i, ENTRIES)] == Spot(i, ENTRIES)
  {
    hide Place, Wrapped, Spot;
    index := sq.index;
    var i := sq.sqeHead;
    ghost var k := P.published;
    WrappedApart(k, |P.pushed|);
    while i != sq.sqeTail
      invariant P.published <= k <= |P.pushed| && i == Wrapped(k) && |index| == ENTRIES
      invariant forall j | P.published <= j < k :: index[Spot(j, ENTRIES)] == Spot(j, ENTRIES)
      invariant i == sq.sqeTail ==> k == |P.pushed|
      decreases |P.pushed| - k
    {
      PlaceOf(k);
      WrappedNext(k);
      index := index[Place(i, SQ_BITS) := Place(i, SQ_BITS)];
      i := (i + 1) % U32;
      k := k + 1;
      WrappedApart(k, |P.pushed|);
    }
  }

  lemma SqSays(sq: Sq, P: Sent)
    requires SqOk(sq, P)
    ensures P.published <= |P.pushed| && sq.queued == |P.pushed| - P.published == |Unpublished(P)| &&
            sq.tail == Wrapped(P.published)
    ensures |sq.sqes| == |sq.index| == ENTRIES
  {
  }

  lemma CqSays(cq: Cq, P: Heard)
    requires CqOk(cq, P)
    ensures P.reaped <= |P.posted| && |Unreaped(P)| == |P.posted| - P.reaped && |cq.cqes| == CQ_ENTRIES
  {
  }

  lemma SqIndexed(sq: Sq, P: Sent, index: seq<nat>)
    requires SqOk(sq, P) && |index| == ENTRIES
    ensures SqOk(sq.(index := index), P)
  {
  }

  lemma NothingQueued(sq: Sq, P: Sent, outstanding: set<nat>)
    requires SqOk(sq, P) && sq.queued == 0
    ensures P == P.(published := |P.pushed|, taken := P.pushed)
    ensures outstanding == outstanding + AsSet(Unpublished(P))
  {
  }

  lemma BatchIds(P: Sent, batch: seq<Sqe>, ids: set<nat>)
    requires P.published <= |P.pushed| && batch == P.pushed[P.published..]
    requires ids == set i | 0 <= i < |batch| :: batch[i].userData
    ensures ids == AsSet(Unpublished(P))
  {
  }

  lemma SqPublish(sq: Sq, P: Sent, index: seq<nat>)
    requires SqOk(sq, P) && |index| == ENTRIES
    ensures var P' := P.(published := |P.pushed|, taken := P.taken + P.pushed[P.published..]);
            SqOk(sq.(index := index, tail := sq.sqeTail, sqeHead := sq.sqeTail, queued := 0), P') &&
            Unpublished(P') == [] && P'.taken == P.pushed
  {
  }

  lemma CqPost(cq: Cq, P: Heard, cqe: Cqe)
    requires CqOk(cq, P) && |P.posted| < P.reaped + CQ_ENTRIES
    ensures Place(cq.tail, CQ_BITS) < |cq.cqes|
    ensures CqOk(cq.(cqes := cq.cqes[Place(cq.tail, CQ_BITS) := cqe], tail := (cq.tail + 1) % U32),
                 P.(posted := P.posted + [cqe]))
    ensures Unreaped(P.(posted := P.posted + [cqe])) == Unreaped(P) + [cqe.userData]
  {
    var n := |P.posted|;
    PlaceOf(n);
    WrappedNext(n);
    hide Place, Wrapped, Spot;
    var P' := P.(posted := P.posted + [cqe]);
    forall i | P.reaped <= i < n
      ensures Spot(i, CQ_ENTRIES) != Spot(n, CQ_ENTRIES)
    {
      PlacesApart(i, n, CQ_ENTRIES);
    }
    assert P'.posted[P.reaped..] == P.posted[P.reaped..] + [cqe];
  }

  /** What one turn of the drain finds. */
  lemma CqNext(cq: Cq, P: Heard)
    requires CqOk(cq, P)
    ensures cq.local != cq.tail <==> P.reaped < |P.posted|
    ensures Place(cq.local, CQ_BITS) < |cq.cqes|
    ensures P.reaped < |P.posted| ==>
              cq.cqes[Place(cq.local, CQ_BITS)] == P.posted[P.reaped] &&
              CqOk(cq.(local := (cq.local + 1) % U32, head := (cq.local + 1) % U32), P.(reaped := P.reaped + 1)) &&
              Unreaped(P) != [] && Unreaped(P)[0] == P.posted[P.reaped].userData &&
              Unreaped(P.(reaped := P.reaped + 1)) == Unreaped(P)[1..]
  {
    PlaceOf(P.reaped);
    WrappedNext(P.reaped);
    WrappedApart(P.reaped, |P.posted|);
    hide Place, Wrapped, Spot;
    if P.reaped < |P.posted| {
      assert P.posted[P.reaped..][1..] == P.posted[P.reaped + 1..];
    }
  }

  /** What time leaves of the slots: only pending requests change, and only by
      getting their result. */
  predicate Settles(S: Slots, S': Slots) {
    Sized(S) && Sized(S') && S'.id == S.id && S'.gen == S.gen &&
    forall s | 0 <= s < SLOTS ::
      if S.state[s].PENDING? then !S'.state[s].FREE? else S'.state[s] == S.state[s] && S'.result[s] == S.result[s]
  }

  predicate Full(S: Slots)
    requires Sized(S)
  {
    forall s | 0 <= s < SLOTS :: !S.state[s].FREE?
  }

  /** A free slot has been given to a request with an id that was not in use. */
  ghost predicate NewRequest(S: Slots, S': Slots, id: nat) {
    Sized(S) && Sized(S') && id != 0 && id !in LiveIds(S) && LiveIds(S') == LiveIds(S) + {id} &&
    id % U32 < SLOTS && S.state[id % U32].FREE? && S' == Allocated(S, id % U32, id / U32)
  }

  /** The kernel's answer to request `id` was `res`. */
  ghost predicate Posted(P: Heard, id: nat, res: int) {
    exists i :: 0 <= i < |P.posted| && P.posted[i] == Cqe(id, res)
  }

  /** Every settled request has the result the kernel gave for it. */
  ghost predicate Truthful(S: Slots, P: Heard) {
    Sized(S) && forall s | 0 <= s < SLOTS && (S.state[s].DONE? || S.state[s].FAILED?) ::
      Posted(P, S.id[s], S.result[s]) && (S.state[s].FAILED? <==> S.result[s] < 0)
  }

  lemma PostedStays(P: Heard, P': Heard, id: nat, res: int)
    requires P.posted <= P'.posted && Posted(P, id, res)
    ensures Posted(P', id, res)
  {
    var i :| 0 <= i < |P.posted| && P.posted[i] == Cqe(id, res);
    assert P'.posted[i] == Cqe(id, res);
  }

  lemma TruthfulPush(S: Slots, P: Heard, s: nat, gen: nat)
    requires Truthful(S, P) && s < SLOTS
    ensures Truthful(Allocated(S, s, gen), P)
  {
    hide Posted;
  }

  lemma TruthfulRelease(S: Slots, P: Heard, s: nat, head: nat)
    requires Truthful(S, P) && s < SLOTS
    ensures Truthful(Released(S, s, head), P)
  {
    hide Posted;
  }

  lemma TruthfulPost(S: Slots, P: Heard, cqe: Cqe)
    requires Truthful(S, P)
    ensures Truthful(S, P.(posted := P.posted + [cqe]))
    ensures forall id, res | Posted(P, id, res) :: Posted(P.(posted := P.posted + [cqe]), id, res)
  {
    var P' := P.(posted := P.posted + [cqe]);
    forall id, res | Posted(P, id, res)
      ensures Posted(P', id, res)
    {
      var i :| 0 <= i < |P.posted| && P.posted[i] == Cqe(id, res);
      assert P'.posted[i] == Cqe(id, res);
    }
    hide Posted;
  }

  /** The answer goes to the request it names. */
  lemma TruthfulReap(S: Slots, P: Heard, s: nat)
    requires Truthful(S, P) && P.reaped < |P.posted| && s < SLOTS && S.id[s] == P.posted[P.reaped].userData
    ensures var res := P.posted[P.reaped].res;
            Truthful(S.(state := S.state[s := if res < 0 then FAILED else DONE], result := S.result[s := res]),
                     P.(reaped := P.reaped + 1))
  {
    forall id, res
      ensures Posted(P, id, res) <==> Posted(P.(reaped := P.reaped + 1), id, res)
    {
    }
    assert Posted(P, S.id[s], P.posted[P.reaped].res);
    hide Posted;
  }

  datatype PushError = Fine | TooLong | OwnDescriptor | Again

  predicate SettlesAt(S: Slots, S': Slots, s: nat)
    requires Sized(S) && Sized(S') && s < SLOTS
  {
    S'.id[s] == S.id[s] && S'.gen[s] == S.gen[s] &&
    if S.state[s].PENDING? then !S'.state[s].FREE? else S'.state[s] == S.state[s] && S'.result[s] == S.result[s]
  }

  lemma SettlesReleased(S0: Slots, S: Slots, slot: nat, head: nat)
    requires Settles(S0, S) && slot < SLOTS
    ensures Sized(S) && forall s | 0 <= s < SLOTS && s != slot :: SettlesAt(S0, Released(S, slot, head), s)
    ensures !S0.state[slot].PENDING? ==> S.result[slot] == S0.result[slot] && S.state[slot] == S0.state[slot]
  {
  }

  lemma NoPendingSlots(S: Slots)
    requires Sized(S) && |PendingSlots(S)| == 0
    ensures forall s | 0 <= s < SLOTS :: !S.state[s].PENDING?
  {
    forall s | 0 <= s < SLOTS
      ensures !S.state[s].PENDING?
    {
      assert s !in PendingSlots(S);
    }
  }

  lemma SettlesSame(S: Slots)
    requires Sized(S)
    ensures Settles(S, S)
  {
  }

  lemma SettlesThen(S: Slots, S1: Slots, S2: Slots)
    requires Settles(S, S1) && Settles(S1, S2)
    ensures Settles(S, S2)
  {
  }

  lemma SettlesOne(S: Slots, S1: Slots, slot: nat, result: int)
    requires Settles(S, S1) && slot < SLOTS && S1.state[slot].PENDING?
    ensures Settles(S, S1.(state := S1.state[slot := if result < 0 then FAILED else DONE],
                           result := S1.result[slot := result]))
  {
  }

  lemma SettlesSlot(S: Slots, S': Slots, slot: nat)
    requires Settles(S, S') && slot < SLOTS && !S.state[slot].FREE?
    ensures Sized(S') && !S'.state[slot].FREE?
  {
  }

  /** Releasing a slot that is not pending disturbs nothing in flight. */
  lemma ReleaseConserves(S: Slots, U: seq<nat>, O: set<nat>, C: seq<nat>, slot: nat, head: nat)
    requires Conserved(S, U, O, C) && slot < SLOTS && !S.state[slot].PENDING?
    ensures Conserved(Released(S, slot, head), U, O, C) && PendingSlots(Released(S, slot, head)) == PendingSlots(S)
  {
  }

  lemma LoggedAlloc(log: seq<Event>, C: Calls, slot: nat, gen: nat)
    requires Logged(log, C) && Sized(C.S) && |C.which| == SLOTS && slot < SLOTS && C.S.state[slot].FREE?
    ensures Logged(log + [Pushed(|C.given|)],
                   Calls(Allocated(C.S, slot, gen), C.which[slot := |C.given|], C.given + [slot]))
  {
    LoggedPush(log, C, Calls(Allocated(C.S, slot, gen), C.which[slot := |C.given|], C.given + [slot]), slot);
  }

  class Rings {
    const table: RequestTable
    /** The ring's own descriptor. */
    const fd: int
    var sq: Sq
    var cq: Cq
    var inflight: nat
    /** What the kernel has taken and not answered. */
    var outstanding: set<nat>
    ghost var sent: Sent
    ghost var heard: Heard
    /** When each request was queued and settled. */
    ghost var log: seq<Event>

    ghost predicate Valid()
      reads this, table
    {
      table.Valid() && Sized(table.slots) && SqOk(sq, sent) && CqOk(cq, heard) &&
      Conserved(table.slots, Unpublished(sent), outstanding, Unreaped(heard)) &&
      inflight == |PendingSlots(table.slots)| &&
      Truthful(table.slots, heard) && Logged(log, Calls(table.slots, table.which, table.given))
    }

    constructor (table: RequestTable, fd: int)
      requires table.Valid() && forall s | 0 <= s < |table.slots.state| :: table.slots.state[s].FREE?
      ensures Valid() && this.table == table && this.fd == fd && sent == Sent([], 0, []) && heard == Heard([], 0)
    {
      this.table, this.fd := table, fd;
      sq := Sq(seq(ENTRIES, _ => Sqe(0, 0, 0, 0, 0, 0)), seq(ENTRIES, _ => 0), 0, 0, 0, 0);
      cq := Cq(seq(CQ_ENTRIES, _ => Cqe(0, 0)), 0, 0, 0);
      inflight, outstanding, sent, heard := 0, {}, Sent([], 0, []), Heard([], 0);
      log := Past(|table.given|);
      new;
      assert Sized(table.slots);
      assert PendingSlots(table.slots) == {};
      PastLogged(Calls(table.slots, table.which, table.given));
    }

    /** Queues a request: it gets a slot and an id, and waits in the ring to be
        published. The ring never has to be flushed to make room. */
    method Push(op: nat, target: int, addr: nat, len: nat, offset: nat) returns (id: nat, error: PushError)
      requires Valid()
      modifies this, table
      ensures Valid() && outstanding == old(outstanding) && heard == old(heard)
      ensures error.TooLong? <==> len > MAX_LEN
      ensures error.OwnDescriptor? <==> len <= MAX_LEN && target == fd
      ensures error.Again? <==> len <= MAX_LEN && target != fd && Full(old(table.slots))
      ensures !error.Fine? ==> id == 0 && sent == old(sent) && table.slots == old(table.slots)
      ensures error.Fine? ==>
                sent == old(sent).(pushed := old(sent).pushed + [Sqe(op, target, addr, len, offset, id)]) &&
                NewRequest(old(table.slots), table.slots, id) && |old(table.which)| == SLOTS
      ensures table.given == old(table.given) + if error.Fine? then [id % U32] else []
      ensures table.which == if error.Fine? then old(table.which)[id % U32 := |old(table.given)|] else old(table.which)
      ensures log == old(log) + if error.Fine? then [Pushed(|old(table.given)|)] else []
    {
      hide SqOk, CqOk, Logged, Conserved, Truthful, PendingSlots, Unpublished, Unreaped, Wrapped, Place, Spot;
      if len > MAX_LEN {
        return 0, TooLong;
      }
      if target == fd {
        return 0, OwnDescriptor;
      }
      ghost var S, C := table.slots, Calls(table.slots, table.which, table.given);
      SqSays(sq, sent);
      CqSays(cq, heard);
      FewInFlight(S, Unpublished(sent), outstanding, Unreaped(heard));
      var found, slot := table.Alloc();
      if !found {
        return 0, Again;
      }
      if sq.queued >= ENTRIES {
        assert false;
      }
      id, error := table.slots.id[slot], Fine;
      IdParts(table.nextGen, slot);
      var sqe := Sqe(op, target, addr, len, offset, id);
      SqPush(sq, sent, sqe);
      ConservedPush(S, Unpublished(sent), outstanding, Unreaped(heard), slot, table.nextGen);
      TruthfulPush(S, heard, slot, table.nextGen);
      LoggedAlloc(log, C, slot, table.nextGen);
      sq := sq.(sqes := sq.sqes[Place(sq.sqeTail, SQ_BITS) := sqe], sqeTail := (sq.sqeTail + 1) % U32,
                queued := sq.queued + 1);
      sent := sent.(pushed := sent.pushed + [sqe]);
      inflight := inflight + 1;
      log := log + [Pushed(|C.given|)];
    }

    /** Publishes everything queued, in the order it was pushed; the kernel takes
        it all. */
    method Submit() returns (n: nat)
      requires Valid()
      modifies this`sq, this`outstanding, this`sent
      ensures Valid() && n == |old(sent).pushed| - old(sent).published
      ensures sent == old(sent).(published := |old(sent).pushed|, taken := old(sent).pushed)
      ensures outstanding == old(outstanding) + AsSet(Unpublished(old(sent)))
    {
      hide SqOk, CqOk, Logged, Conserved, Truthful, PendingSlots, Unpublished, Unreaped, Wrapped, Place, Spot;
      if sq.queued == 0 {
        NothingQueued(sq, sent, outstanding);
        return 0;
      }
      SqSays(sq, sent);
      CqSays(cq, heard);
      var index := FillIndex(sq, sent);
      n := sq.queued;
      SqIndexed(sq, sent, index);
      var batch := Enter(sq.(index := index), sent, sq.tail, n);
      var ids := set i | 0 <= i < |batch| :: batch[i].userData;
      BatchIds(sent, batch, ids);
      ConservedPublish(table.slots, Unpublished(sent), outstanding, Unreaped(heard));
      SqPublish(sq, sent, index);
      sq := sq.(index := index, tail := sq.sqeTail, sqeHead := sq.sqeTail, queued := 0);
      outstanding := outstanding + ids;
      sent := sent.(published := |sent.pushed|, taken := sent.taken + batch);
    }

    /** The kernel answers one request it has taken. */
    method Answer(id: nat, res: int)
      requires Valid() && id in outstanding
      modifies this`cq, this`outstanding, this`heard
      ensures Valid() && outstanding == old(outstanding) - {id} &&
              heard == old(heard).(posted := old(heard).posted + [Cqe(id, res)])
    {
      hide SqOk, CqOk, Logged, Conserved, Truthful, PendingSlots, Unpublished, Unreaped, Wrapped, Place, Spot;
      SqSays(sq, sent);
      CqSays(cq, heard);
      FewInFlight(table.slots, Unpublished(sent), outstanding, Unreaped(heard));
      ConservedPost(table.slots, Unpublished(sent), outstanding, Unreaped(heard), id);
      CqPost(cq, heard, Cqe(id, res));
      TruthfulPost(table.slots, heard, Cqe(id, res));
      cq := cq.(cqes := cq.cqes[Place(cq.tail, CQ_BITS) := Cqe(id, res)], tail := (cq.tail + 1) % U32);
      outstanding := outstanding - {id};
      heard := heard.(posted := heard.posted + [Cqe(id, res)]);
    }

    /** Reads the completion ring, without a system call: every answer finds its
        request, which gets its result. */
    method Drain() returns (count: nat)
      requires Valid()
      modifies this`cq, this`inflight, this`heard, this`log, table
      ensures Valid() && heard == old(heard).(reaped := |old(heard).posted|) && Settles(old(table.slots), table.slots)
      ensures count == |old(heard).posted| - old(heard).reaped
      ensures inflight == old(inflight) - count && LiveIds(table.slots) == LiveIds(old(table.slots))
      ensures old(log) <= log
      ensures table.given == old(table.given) && table.which == old(table.which)
    {
      hide SqOk, CqOk, Logged, Conserved, Truthful, PendingSlots, Unpublished, Unreaped, Wrapped, Place, Spot, Settles,
           LiveIds;
      count := 0;
      ghost var S := table.slots;
      SettlesSame(S);
      CqSays(cq, heard);
      CqNext(cq, heard);
      while cq.local != cq.tail
        invariant old(log) <= log
        invariant Valid() && Settles(S, table.slots) && LiveIds(table.slots) == LiveIds(S)
        invariant table.given == old(table.given) && table.which == old(table.which)
        invariant heard.posted == old(heard).posted && heard.reaped == old(heard).reaped + count <= |heard.posted|
        invariant inflight == old(inflight) - count
        invariant cq.local != cq.tail <==> heard.reaped < |heard.posted|
        decreases |heard.posted| - heard.reaped
      {
        Reap(S);
        CqNext(cq, heard);
        count := count + 1;
      }
    }

    /** One turn: the answer's slot is still pending under the same id. */
    method Reap(ghost S: Slots)
      requires Valid() && cq.local != cq.tail && Settles(S, table.slots) && heard.reaped < |heard.posted|
      modifies this`cq, this`inflight, this`heard, this`log, table
      ensures Valid() && Settles(S, table.slots) && heard == old(heard).(reaped := old(heard).reaped + 1)
      ensures old(inflight) > 0 && inflight == old(inflight) - 1 && LiveIds(table.slots) == LiveIds(old(table.slots))
      ensures |old(heard).posted| > old(heard).reaped &&
              var slot := old(heard).posted[old(heard).reaped].userData % U32;
              slot < |old(table.which)| && log == old(log) + [Settled(old(table.which)[slot])]
      ensures table.given == old(table.given) && table.which == old(table.which)
    {
      hide SqOk, CqOk, Logged, Conserved, Truthful, PendingSlots, Unpublished, Unreaped, Wrapped, Place, Spot, Settles,
           LiveIds;
      SqSays(sq, sent);
      CqNext(cq, heard);
      var cqe := cq.cqes[Place(cq.local, CQ_BITS)];
      ConservedReap(table.slots, Unpublished(sent), outstanding, Unreaped(heard), cqe.res);
      ghost var before := heard;
      cq := cq.(local := (cq.local + 1) % U32, head := (cq.local + 1) % U32);
      heard := heard.(reaped := heard.reaped + 1);
      var slot := cqe.userData % U32;
      if slot < SLOTS && table.slots.state[slot].PENDING? && table.slots.id[slot] == cqe.userData {
        SettlesOne(S, table.slots, slot, cqe.res);
        TruthfulReap(table.slots, before, slot);
        ghost var C := Calls(table.slots, table.which, table.given);
        table.Settle(slot, cqe.res);
        LoggedSettle(log, C, table.slots, slot);
        log := log + [Settled(C.which[slot])];
        inflight := inflight - 1;
      } else {
        assert false;
      }
    }

    /** The kernel answers some of what it has taken, at least one request if
        `must`. */
    method KernelRuns(must: bool)
      requires Valid() && (must ==> outstanding != {})
      modifies this`cq, this`outstanding, this`heard
      ensures Valid() && outstanding <= old(outstanding) && heard.reaped == old(heard).reaped
      ensures |heard.posted| >= |old(heard).posted| + if must then 1 else 0
      ensures old(heard).posted <= heard.posted
    {
      hide SqOk, CqOk, Logged, Conserved, Truthful, PendingSlots;
      if must {
        var id, res: int :| id in outstanding;
        Answer(id, res);
      }
      var n: nat := *;
      while n > 0 && outstanding != {}
        invariant Valid() && outstanding <= old(outstanding) && heard.reaped == old(heard).reaped
        invariant |heard.posted| >= |old(heard).posted| + if must then 1 else 0
        invariant old(heard).posted <= heard.posted
      {
        var id, res: int :| id in outstanding;
        Answer(id, res);
        n := n - 1;
      }
    }

    /** Looks for answers that have already come. */
    method Poll()
      requires Valid()
      modifies this`cq, this`outstanding, this`inflight, this`heard, this`log, table
      ensures Valid() && Settles(old(table.slots), table.slots) && Drained() && inflight <= old(inflight)
      ensures LiveIds(table.slots) == LiveIds(old(table.slots))
      ensures old(log) <= log
      ensures table.given == old(table.given) && table.which == old(table.which)
      ensures old(heard).posted <= heard.posted
    {
      hide SqOk, CqOk, Logged, Conserved, Truthful, PendingSlots, Settles, LiveIds;
      KernelRuns(false);
      var count := Drain();
    }

    ghost predicate Drained()
      reads this
    {
      heard.reaped == |heard.posted|
    }

    /** Sleeps in the kernel until there is an answer. It is only called when the
        kernel has a request to answer. */
    method Park()
      requires Valid() && Drained() && outstanding != {}
      modifies this`cq, this`outstanding, this`inflight, this`heard, this`log, table
      ensures Valid() && Settles(old(table.slots), table.slots) && Drained() && inflight < old(inflight)
      ensures LiveIds(table.slots) == LiveIds(old(table.slots))
      ensures old(log) <= log
      ensures table.given == old(table.given) && table.which == old(table.which)
      ensures old(heard).posted <= heard.posted
    {
      hide SqOk, CqOk, Logged, Conserved, Truthful, PendingSlots, Settles, LiveIds;
      KernelRuns(true);
      var count := Drain();
    }

    /** With everything published and reaped, a pending request is with the
        kernel. */
    lemma Outstanding(slot: nat)
      requires Valid() && slot < SLOTS && table.slots.state[slot].PENDING? && Drained() &&
               sent.published == |sent.pushed|
      ensures outstanding != {}
    {
    }

    /** Waits for one request; its slot is kept. */
    method ReqWait(slot: nat) returns (result: int)
      requires Valid() && slot < SLOTS && !table.slots.state[slot].FREE?
      modifies this, table
      ensures Valid() && Settles(old(table.slots), table.slots) && LiveIds(table.slots) == LiveIds(old(table.slots))
      ensures !table.slots.state[slot].PENDING? && !table.slots.state[slot].FREE? && result == table.slots.result[slot]
      ensures old(log) <= log
      ensures table.given == old(table.given) && table.which == old(table.which)
      ensures sent.pushed == old(sent).pushed
      ensures Posted(heard, table.slots.id[slot], result)
      ensures old(heard).posted <= heard.posted
    {
      hide SqOk, CqOk, Logged, Conserved, Truthful, PendingSlots, Unpublished, Unreaped, Settles, LiveIds;
      ghost var S := table.slots;
      SettlesSame(S);
      if table.slots.state[slot].PENDING? {
        var n := Submit();
        SqSays(sq, sent);
      }
      while table.slots.state[slot].PENDING?
        invariant old(log) <= log
        invariant Valid() && Settles(S, table.slots) && LiveIds(table.slots) == LiveIds(S)
        invariant table.given == old(table.given) && table.which == old(table.which)
        invariant table.slots.state[slot].PENDING? ==> sent.published == |sent.pushed|
        invariant sent.pushed == old(sent).pushed && old(heard).posted <= heard.posted
        invariant !table.slots.state[slot].FREE?
        decreases if table.slots.state[slot].PENDING? then inflight + 1 else 0
      {
        ghost var S1, before := table.slots, inflight;
        Poll();
        SettlesThen(S, S1, table.slots);
        SettlesSlot(S1, table.slots, slot);
        if table.slots.state[slot].PENDING? {
          ghost var S2 := table.slots;
          Outstanding(slot);
          Park();
          SettlesThen(S, S2, table.slots);
          SettlesSlot(S2, table.slots, slot);
        }
      }
      result := table.slots.result[slot];
      SettledPosted(slot);
    }

    /** In every state: a settled request has the result the kernel gave for it, and
        has failed if that is negative. */
    lemma SettledPosted(slot: nat)
      requires Valid() && slot < SLOTS && (table.slots.state[slot].DONE? || table.slots.state[slot].FAILED?)
      ensures Posted(heard, table.slots.id[slot], table.slots.result[slot])
      ensures table.slots.state[slot].FAILED? <==> table.slots.result[slot] < 0
    {
      hide SqOk, CqOk, Logged, Conserved, PendingSlots, Posted;
    }

    /** Publishes everything and waits until nothing is in flight. The bound on the
        number of rounds is never reached. */
    method WaitAll() returns (rc: int)
      requires Valid()
      modifies this, table
      ensures Valid() && rc == 0 && inflight == 0 && Settles(old(table.slots), table.slots)
      ensures forall s | 0 <= s < SLOTS :: !table.slots.state[s].PENDING?
      ensures old(log) <= log
      ensures table.given == old(table.given) && table.which == old(table.which)
      ensures old(heard).posted <= heard.posted
    {
      hide SqOk, CqOk, Logged, Conserved, Truthful, PendingSlots, Unpublished, Unreaped, Settles, LiveIds;
      ghost var S := table.slots;
      SettlesSame(S);
      FewPending();
      var n := Submit();
      var spin := 0;
      while spin < 100_000_000
        invariant old(log) <= log
        invariant table.given == old(table.given) && table.which == old(table.which) &&
                  old(heard).posted <= heard.posted
        invariant Valid() && Settles(S, table.slots) && spin + inflight <= SLOTS && sent.published == |sent.pushed|
        decreases 100_000_000 - spin
      {
        if inflight == 0 {
          NonePending();
          return 0;
        }
        ghost var S1 := table.slots;
        Poll();
        SettlesThen(S, S1, table.slots);
        if inflight == 0 {
          NonePending();
          return 0;
        }
        ghost var S2 := table.slots;
        SomeOutstanding();
        Park();
        SettlesThen(S, S2, table.slots);
        spin := spin + 1;
      }
      return -1;
    }

    lemma FewPending()
      requires Valid()
      ensures inflight <= SLOTS
    {
      FewInFlight(table.slots, Unpublished(sent), outstanding, Unreaped(heard));
    }

    lemma NonePending()
      requires Valid() && inflight == 0
      ensures forall s | 0 <= s < SLOTS :: !table.slots.state[s].PENDING?
    {
      hide SqOk, CqOk, Logged, Conserved, Truthful, PendingSlots;
      NoPendingSlots(table.slots);
    }

    lemma SomeOutstanding()
      requires Valid() && inflight > 0 && Drained() && sent.published == |sent.pushed|
      ensures outstanding != {}
    {
    }

    /** The caller takes the result: waits for the request and frees its slot. An
        id that names no request any more is an error. */
    method Result(id: nat) returns (known: bool, result: int)
      requires Valid()
      modifies this, table
      ensures Valid() && (known <==> id in LiveIds(old(table.slots)))
      ensures LiveIds(table.slots) == LiveIds(old(table.slots)) - {id}
      ensures !known ==> result == -22 && table.slots == old(table.slots)
      ensures known ==>
                id % U32 < SLOTS &&
                (!old(table.slots).state[id % U32].PENDING? ==> result == old(table.slots).result[id % U32])
      ensures known ==> table.slots.state[id % U32].FREE? &&
                        forall s | 0 <= s < SLOTS && s != id % U32 :: SettlesAt(old(table.slots), table.slots, s)
      ensures old(log) <= log
      ensures table.given == old(table.given) && table.which == old(table.which)
      ensures sent.pushed == old(sent).pushed
      ensures known ==> Posted(heard, id, result)
      ensures old(heard).posted <= heard.posted
    {
      hide SqOk, CqOk, Logged, Conserved, Truthful, PendingSlots, Unpublished, Unreaped, LiveIds;
      var slot;
      known, slot := table.Lookup(id);
      if !known {
        return false, -22;
      }
      ghost var S0 := table.slots;
      result := ReqWait(slot);
      ghost var S, head := table.slots, table.freeHead;
      SettlesReleased(S0, S, slot, head);
      SqSays(sq, sent);
      CqSays(cq, heard);
      ReleaseConserves(S, Unpublished(sent), outstanding, Unreaped(heard), slot, head);
      TruthfulRelease(S, heard, slot, head);
      SettledPosted(slot);
      ghost var C := Calls(S, table.which, table.given);
      table.ReleaseSlot(slot);
      LoggedRelease(log, C, table.slots, slot);
    }
  }
}
