/** Descriptors still being opened: negative handles that resolve, once, to what
    the open returned. */
module PendingFds {
  import opened RequestTable
  import opened RequestLog
  import opened Rings

  const MAX_PENDING: nat := 64
  const EBADF: int := 9
  const OP_CLOSE: nat := 19

  /** The pending opens, field by field. */
  datatype Fds = Fds(used: seq<bool>, resolved: seq<bool>, id: seq<nat>, result: seq<int>)

  predicate Sized64(F: Fds) {
    |F.used| == |F.resolved| == |F.id| == |F.result| == MAX_PENDING
  }

  /** -1 stays the failure value. */
  function HandleOf(i: nat): int {
    -(i + 2)
  }

  /** The entry a descriptor is a handle of. */
  function EntryOf(fd: int): (i: int)
    ensures 0 <= i < MAX_PENDING <==> -(MAX_PENDING + 1) <= fd <= -2
  {
    -fd - 2
  }

  lemma HandleRoundTrip(i: nat, fd: int)
    ensures EntryOf(HandleOf(i)) == i && HandleOf(i) <= -2
    ensures EntryOf(fd) == i ==> HandleOf(i) == fd
  {
  }

  predicate IsHandle(F: Fds, fd: int) {
    Sized64(F) && -(MAX_PENDING + 1) <= fd <= -2 && F.used[EntryOf(fd)]
  }

  /** Every unresolved handle has its own request, whose result nobody has
      collected. */
  ghost predicate Waiting(F: Fds, S: Slots) {
    Sized64(F) && Sized(S) &&
    (forall i | 0 <= i < MAX_PENDING && F.used[i] && !F.resolved[i] :: F.id[i] in LiveIds(S)) &&
    forall i, j | 0 <= i < MAX_PENDING && 0 <= j < MAX_PENDING && F.used[i] && F.used[j] && !F.resolved[i] &&
    !F.resolved[j] ::
      F.id[i] == F.id[j] ==> i == j
  }

  class PendingFds {
    const rings: Rings
    var F: Fds

    ghost predicate Valid()
      reads this, rings, rings.table
    {
      rings.Valid() && Waiting(F, rings.table.slots)
    }

    constructor (rings: Rings)
      requires rings.Valid()
      ensures Valid() && this.rings == rings && forall fd :: !IsHandle(F, fd)
    {
      this.rings := rings;
      F := Fds(seq(MAX_PENDING, _ => false), seq(MAX_PENDING, _ => false), seq(MAX_PENDING, _ => 0),
               seq(MAX_PENDING, _ => 0));
    }

    /** A handle for an open on its way; -1 when there are too many. */
    method New(id: nat) returns (fd: int)
      requires Valid() && id in LiveIds(rings.table.slots)
      requires forall i | 0 <= i < MAX_PENDING && F.used[i] && !F.resolved[i] :: F.id[i] != id
      modifies this
      ensures Valid() && (fd == -1 <==> forall i | 0 <= i < MAX_PENDING :: old(F).used[i])
      ensures fd == -1 ==> F == old(F)
      ensures fd != -1 ==>
                IsHandle(F, fd) && !IsHandle(old(F), fd) && F.id[EntryOf(fd)] == id && !F.resolved[EntryOf(fd)]
      ensures forall g | g != fd :: IsHandle(F, g) <==> IsHandle(old(F), g)
    {
      hide SqOk, CqOk, Logged, Conserved, Truthful, PendingSlots, LiveIds;
      for i := 0 to MAX_PENDING
        invariant F == old(F) && forall j | 0 <= j < i :: F.used[j]
      {
        if !F.used[i] {
          F := Fds(F.used[i := true], F.resolved[i := false], F.id[i := id], F.result);
          HandleRoundTrip(i, HandleOf(i));
          return HandleOf(i);
        }
      }
      return -1;
    }

    /** The descriptor behind `fd`: itself, or what the open returned, waiting for
        it the first time only. */
    method Resolve(fd: int) returns (target: int)
      requires Valid()
      modifies this, rings, rings.table
      ensures Valid() && F.used == old(F).used && (fd >= 0 ==> target == fd)
      ensures fd < 0 && !IsHandle(old(F), fd) ==> target == -EBADF && F == old(F)
      ensures fd < 0 && IsHandle(old(F), fd) ==>
                IsHandle(F, fd) && F.resolved[EntryOf(fd)] && F.result[EntryOf(fd)] == target &&
                if old(F).resolved[EntryOf(fd)] then target == old(F).result[EntryOf(fd)] && F == old(F)
                else Posted(rings.heard, old(F).id[EntryOf(fd)], target)
      ensures rings.sent.pushed == old(rings.sent).pushed
      ensures forall g | g != fd && IsHandle(old(F), g) ::
                F.resolved[EntryOf(g)] == old(F).resolved[EntryOf(g)] &&
                F.result[EntryOf(g)] == old(F).result[EntryOf(g)]
    {
      hide SqOk, CqOk, Logged, Conserved, Truthful, PendingSlots, LiveIds;
      if fd >= 0 {
        return fd;
      }
      if !IsHandle(F, fd) {
        return -EBADF;
      }
      var i := EntryOf(fd);
      if !F.resolved[i] {
        var known, result := rings.Result(F.id[i]);
        F := F.(result := F.result[i := result], resolved := F.resolved[i := true]);
      }
      target := F.result[i];
    }

    /** Closes a descriptor. A handle goes with a failed open, or with a close that
        could be queued. */
    method Close(fd: int) returns (id: nat)
      requires Valid()
      modifies this, rings, rings.table
      ensures Valid() && (IsHandle(old(F), fd) ==> Sized64(F) && F.resolved[EntryOf(fd)])
      ensures id != 0 ==>
                !IsHandle(F, fd) && (fd >= 0 || IsHandle(old(F), fd)) &&
                rings.sent.pushed == old(rings.sent).pushed +
                  [Sqe(OP_CLOSE, if fd >= 0 then fd else F.result[EntryOf(fd)], 0, 0, 0, id)]
      ensures id == 0 ==>
                rings.sent.pushed == old(rings.sent).pushed &&
                (IsHandle(F, fd) <==> IsHandle(old(F), fd) && F.result[EntryOf(fd)] >= 0)
      ensures forall g | g != fd :: IsHandle(F, g) <==> IsHandle(old(F), g)
      ensures Sized(rings.table.slots) && Sized64(F)
      ensures id == 0 && !Full(rings.table.slots) ==>
                if fd >= 0 then fd == rings.fd
                else
                  IsHandle(old(F), fd) ==> F.result[EntryOf(fd)] < 0 || F.result[EntryOf(fd)] == rings.fd
    {
      hide SqOk, CqOk, Logged, Conserved, Truthful, PendingSlots, LiveIds, NewRequest;
      var pending := fd < 0 && IsHandle(F, fd);
      var target := Resolve(fd);
      id := 0;
      if target >= 0 {
        id := PushClose(target);
      }
      if pending && (target < 0 || id != 0) {
        F := F.(used := F.used[EntryOf(fd) := false]);
      }
    }

    method PushClose(target: int) returns (id: nat)
      requires Valid()
      modifies rings, rings.table
      ensures Valid() && Sized(rings.table.slots)
      ensures id == 0 ==> target == rings.fd || Full(rings.table.slots)
      ensures rings.sent.pushed == old(rings.sent).pushed + if id == 0 then [] else [Sqe(OP_CLOSE, target, 0, 0, 0, id)]
    {
      var error;
      id, error := rings.Push(OP_CLOSE, target, 0, 0, 0);
    }
  }
}
