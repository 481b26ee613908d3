/** The table of handles not yet delivered: hashed by the task's address, doubling
    when it is full. */
module HandleTable {
  import opened Bits
  import opened Chains

  const FIRST_BITS: nat := 10
  /** A table of more buckets than this cannot be allocated. */
  const MAX_BITS: nat := 60

  predicate Distinguished(address: seq<nat>) {
    forall t, u | 0 <= t < |address| && 0 <= u < |address| && address[t] == address[u] :: t == u
  }

  /** A handled task is in the bucket of its address, any other one in none. */
  ghost predicate Placed(address: seq<nat>, handled: seq<bool>, bits: nat, place: seq<int>) {
    |address| == |handled| == |place| && bits <= MAX_BITS &&
    forall t | 0 <= t < |place| :: place[t] == if handled[t] then HashBits(address[t], bits) else -1
  }

  function Handles(handled: seq<bool>): set<nat> {
    set t: nat | t < |handled| && handled[t]
  }

  // ---- Doubling ----

  /** A table as a filing of the tasks. */
  datatype Shelf = Shelf(table: seq<Ref>, lists: seq<seq<nat>>, place: seq<int>)

  ghost predicate Holds(next: seq<Ref>, s: Shelf) {
    Filed(next, s.table, s.lists, s.place)
  }

  /** While the table doubles every handled task is in the old or the new one. */
  ghost predicate Moving(address: seq<nat>, handled: seq<bool>, oldBits: nat, bits: nat, oldPlace: seq<int>,
                         place: seq<int>) {
    |address| == |handled| == |place| == |oldPlace| && oldBits <= MAX_BITS && bits <= MAX_BITS &&
    forall t | 0 <= t < |place| ::
      if !handled[t] then oldPlace[t] == -1 && place[t] == -1
      else if oldPlace[t] >= 0 then oldPlace[t] == HashBits(address[t], oldBits) && place[t] == -1
      else oldPlace[t] == -1 && place[t] == HashBits(address[t], bits)
  }

  ghost predicate Doubling(next: seq<Ref>, address: seq<nat>, handled: seq<bool>, oldBits: nat, bits: nat,
                           narrow: Shelf, wide: Shelf) {
    Holds(next, narrow) && Holds(next, wide) && Moving(address, handled, oldBits, bits, narrow.place, wide.place) &&
    |wide.table| == Pow2(bits) && |next| == |address|
  }

  function MoveOut(next: seq<Ref>, s: Shelf, i: nat): Shelf
    requires i < |s.lists| == |s.table| && s.lists[i] != [] && s.lists[i][0] < |next| == |s.place|
  {
    var t := s.lists[i][0];
    Shelf(s.table[i := next[t]], s.lists[i := Without(s.lists[i], 0)], s.place[t := -1])
  }

  function MoveIn(s: Shelf, t: nat, b: nat): Shelf
    requires b < |s.lists| == |s.table| && t < |s.place|
  {
    Shelf(s.table[b := t], s.lists[b := [t] + s.lists[b]], s.place[t := b])
  }

  /** The first task of an old bucket moves to its new one. */
  lemma MoveOne(next: seq<Ref>, address: seq<nat>, handled: seq<bool>, oldBits: nat, bits: nat, narrow: Shelf,
                wide: Shelf,
                i: nat, t: nat)
    requires Doubling(next, address, handled, oldBits, bits, narrow, wide)
    requires i < |narrow.table| == |narrow.lists| && narrow.lists[i] != [] && narrow.lists[i][0] == t
    ensures t < |next| == |address| == |narrow.place| == |wide.place| && bits <= MAX_BITS
    ensures var b := HashBits(address[t], bits);
            b < |wide.table| == |wide.lists| &&
            Doubling(next[t := wide.table[b]], address, handled, oldBits, bits, MoveOut(next, narrow, i),
                     MoveIn(wide, t, b))
  {
    FiledList(next, narrow.table, narrow.lists, narrow.place, i);
    assert t in narrow.lists[i] && narrow.place[t] == i;
    var b := HashBits(address[t], bits);
    var out := MoveOut(next, narrow, i);
    FiledOut(next, narrow.table, narrow.lists, narrow.place, t, 0);
    FiledIgnore(next, out.table, out.lists, out.place, t, wide.table[b]);
    FiledIn(next, wide.table, wide.lists, wide.place, t, b);
    hide Filed, HashBits;
  }

  lemma DoublingAt(next: seq<Ref>, address: seq<nat>, handled: seq<bool>, oldBits: nat, bits: nat, narrow: Shelf,
                   wide: Shelf, i: nat)
    requires Doubling(next, address, handled, oldBits, bits, narrow, wide) && i < |narrow.table|
    ensures |narrow.table| == |narrow.lists| && narrow.table[i] == Head(narrow.lists[i]) && |wide.table| == Pow2(bits)
    ensures |next| == |address| && bits <= MAX_BITS
  {
  }

  lemma AllMoved(next: seq<Ref>, address: seq<nat>, handled: seq<bool>, oldBits: nat, bits: nat, narrow: Shelf,
                 wide: Shelf)
    requires Doubling(next, address, handled, oldBits, bits, narrow, wide)
    requires forall j | 0 <= j < |narrow.lists| :: narrow.lists[j] == []
    ensures Holds(next, wide) && Placed(address, handled, bits, wide.place) && |wide.table| == Pow2(bits) &&
            |next| == |address|
  {
  }

  lemma DoublingStarts(next: seq<Ref>, address: seq<nat>, handled: seq<bool>, oldBits: nat, bits: nat, narrow: Shelf,
                       table: seq<Ref>)
    returns (wide: Shelf)
    requires Holds(next, narrow) && Placed(address, handled, oldBits, narrow.place) && |next| == |address| &&
             bits <= MAX_BITS
    requires |table| == Pow2(bits) && forall b | 0 <= b < |table| :: table[b] == NULL
    ensures wide.table == table && Doubling(next, address, handled, oldBits, bits, narrow, wide)
  {
    hide HashBits;
    wide := Shelf(table, seq(|table|, _ => []), seq(|next|, _ => -1));
    assert Holds(next, wide);
  }

  /** One bucket of the old table is emptied; each task's link is read before it is
      overwritten. */
  method MoveBucket(first: Ref, next0: seq<Ref>, address: seq<nat>, ghost handled: seq<bool>, ghost oldBits: nat,
                    bits: nat,
                    ghost narrow0: Shelf, table0: seq<Ref>, ghost wide0: Shelf, i: nat)
    returns (next: seq<Ref>, table: seq<Ref>, ghost narrow: Shelf, ghost wide: Shelf)
    requires Doubling(next0, address, handled, oldBits, bits, narrow0, wide0) && wide0.table == table0
    requires i < |narrow0.table| && first == narrow0.table[i]
    ensures Doubling(next, address, handled, oldBits, bits, narrow, wide) && wide.table == table
    ensures |narrow.lists| == |narrow0.lists| && |narrow.table| == |narrow0.table| && narrow.lists[i] == []
    ensures forall j | 0 <= j < |narrow0.lists| && j != i :: narrow.lists[j] == narrow0.lists[j]
    ensures forall j | 0 <= j < |narrow0.table| && j != i :: narrow.table[j] == narrow0.table[j]
  {
    hide Doubling, HashBits, MoveIn;
    next, table, narrow, wide := next0, table0, narrow0, wide0;
    var t := first;
    DoublingAt(next, address, handled, oldBits, bits, narrow, wide, i);
    while t != NULL
      invariant Doubling(next, address, handled, oldBits, bits, narrow, wide) && wide.table == table
      invariant |narrow.lists| == |narrow.table| == |narrow0.table| == |narrow0.lists| &&
                t == narrow.table[i] == Head(narrow.lists[i])
      invariant forall j | 0 <= j < |narrow0.table| && j != i :: narrow.table[j] == narrow0.table[j] &&
                  narrow.lists[j] == narrow0.lists[j]
      decreases |narrow.lists[i]|
    {
      MoveOne(next, address, handled, oldBits, bits, narrow, wide, i, t);
      var b := HashBits(address[t], bits);
      ghost var out, into := MoveOut(next, narrow, i), MoveIn(wide, t, b);
      MovedIn(wide, t, b);
      var ahead := next[t];
      next := next[t := table[b]];
      table := table[b := t];
      narrow, wide := out, into;
      DoublingAt(next, address, handled, oldBits, bits, narrow, wide, i);
      t := ahead;
    }
  }

  lemma MovedIn(s: Shelf, t: nat, b: nat)
    requires b < |s.lists| == |s.table| && t < |s.place|
    ensures MoveIn(s, t, b).table == s.table[b := t]
  {
  }

  method MoveAll(oldTable: seq<Ref>, next0: seq<Ref>, address: seq<nat>, ghost handled: seq<bool>, ghost oldBits: nat,
                 bits: nat, ghost narrow0: Shelf)
    returns (next: seq<Ref>, table: seq<Ref>, ghost wide: Shelf)
    requires Holds(next0, narrow0) && Placed(address, handled, oldBits, narrow0.place) && |next0| == |address| &&
             bits <= MAX_BITS
    requires narrow0.table == oldTable
    ensures wide.table == table && Holds(next, wide) && Placed(address, handled, bits, wide.place)
    ensures |table| == Pow2(bits) && |next| == |address|
  {
    hide Doubling, HashBits, Placed, Holds;
    next, table := next0, seq(Pow2(bits), _ => NULL);
    ghost var narrow := narrow0;
    wide := DoublingStarts(next, address, handled, oldBits, bits, narrow, table);
    for i := 0 to |oldTable|
      invariant Doubling(next, address, handled, oldBits, bits, narrow, wide) && wide.table == table
      invariant |narrow.table| == |oldTable|
      invariant forall j | 0 <= j < |narrow.lists| && j < i :: narrow.lists[j] == []
      invariant forall j | i <= j < |oldTable| :: narrow.table[j] == oldTable[j]
    {
      next, table, narrow, wide := MoveBucket(oldTable[i], next, address, handled, oldBits, bits, narrow, table, wide,
                                              i);
    }
    DoublingLens(next, address, handled, oldBits, bits, narrow, wide);
    AllMoved(next, address, handled, oldBits, bits, narrow, wide);
  }

  lemma DoublingLens(next: seq<Ref>, address: seq<nat>, handled: seq<bool>, oldBits: nat, bits: nat, narrow: Shelf,
                     wide: Shelf)
    requires Doubling(next, address, handled, oldBits, bits, narrow, wide)
    ensures |narrow.table| == |narrow.lists|
  {
  }

  // ---- The count ----

  lemma HandlesAdd(handled: seq<bool>)
    ensures Handles(handled + [true]) == Handles(handled) + {|handled|} &&
            |Handles(handled + [true])| == |Handles(handled)| + 1
  {
  }

  lemma HandlesRemove(handled: seq<bool>, t: nat)
    requires t < |handled| && handled[t]
    ensures Handles(handled[t := false]) == Handles(handled) - {t} &&
            |Handles(handled)| == |Handles(handled[t := false])| + 1
  {
  }

  lemma PlacedAdd(address: seq<nat>, handled: seq<bool>, bits: nat, place: seq<int>, a: nat)
    requires Placed(address, handled, bits, place)
    ensures Placed(address + [a], handled + [true], bits, place + [HashBits(a, bits)])
  {
  }

  lemma PlacedRemove(address: seq<nat>, handled: seq<bool>, bits: nat, place: seq<int>, t: nat)
    requires Placed(address, handled, bits, place) && t < |handled|
    ensures Placed(address, handled[t := false], bits, place[t := -1])
  {
  }

  class HandleTable {
    /** The tasks' addresses, links and marks of being in the table. */
    var address: seq<nat>
    var next: seq<Ref>
    var handled: seq<bool>
    /** No buckets until the first handle. */
    var table: seq<Ref>
    var bits: nat
    var count: nat
    ghost var shelf: Shelf

    ghost predicate Valid()
      reads this
    {
      Distinguished(address) && Holds(next, shelf) && shelf.table == table && |next| == |address| &&
      count == |Handles(handled)| && Placed(address, handled, bits, shelf.place) &&
      (table == [] || |table| == Pow2(bits))
    }

    constructor ()
      ensures Valid() && handled == [] && address == []
    {
      address, next, handled, table, bits, count := [], [], [], [], 0, 0;
      shelf := Shelf([], [], []);
    }

    /** Twice as many buckets, and every task in the one it now belongs to. */
    method Grow() returns (fatal: bool)
      requires Valid()
      modifies this`next, this`table, this`bits, this`shelf
      ensures fatal <==> old(table) != [] && old(bits) == MAX_BITS
      ensures !fatal ==> Valid() && table != [] && bits == if old(table) == [] then FIRST_BITS else old(bits) + 1
    {
      hide Distinguished, Holds, Placed, HashBits, Handles, Pow2;
      PlacedShape(address, handled, bits, shelf.place);
      var bits' := if table == [] then FIRST_BITS else bits + 1;
      if bits' > MAX_BITS {
        return true;
      }
      fatal := false;
      var next', table';
      ghost var shelf';
      next', table', shelf' := MoveAll(table, next, address, handled, bits, bits', shelf);
      next, table, bits, shelf := next', table', bits', shelf';
    }

    /** A new task's handle. Nothing but running out of memory stops it. */
    method Add(a: nat) returns (t: nat, fatal: bool)
      requires Valid() && a !in address
      modifies this
      ensures fatal <==> old(table) != [] && old(bits) == MAX_BITS && |Handles(old(handled))| >= Pow2(MAX_BITS)
      ensures !fatal ==>
                Valid() && t == |old(handled)| && address == old(address) + [a] && handled == old(handled) + [true]
      ensures !fatal ==>
                table != [] && bits == if old(table) == [] then FIRST_BITS
                                       else if |Handles(old(handled))| >= Pow2(old(bits)) then old(bits) + 1
                                       else old(bits)
    {
      hide Distinguished, Holds, Placed, HashBits, Handles, Pow2;
      t, fatal := |handled|, false;
      PlacedShape(address, handled, bits, shelf.place);
      if table == [] || count >= Pow2(bits) {
        fatal := Grow();
        if fatal {
          return;
        }
      }
      var b := HashBits(a, bits);
      PlacedShape(address, handled, bits, shelf.place);
      HoldsNew(next, shelf, b);
      PlacedAdd(address, handled, bits, shelf.place, a);
      HandlesAdd(handled);
      DistinguishedAdd(address, a);
      shelf := Shelf(table[b := t], shelf.lists[b := [t] + shelf.lists[b]], shelf.place + [b]);
      next, table := next + [table[b]], table[b := t];
      address, handled, count := address + [a], handled + [true], count + 1;
    }

    /** The task with this address, if its completion has not been delivered. */
    method Find(pending: nat) returns (t: Ref)
      requires Valid()
      ensures t == NULL <==> forall u | 0 <= u < |handled| && handled[u] :: address[u] != pending
      ensures t != NULL ==> 0 <= t < |handled| && handled[t] && address[t] == pending
      ensures |address| == |handled|
    {
      hide Distinguished, Holds, Placed, HashBits, Handles, Pow2;
      PlacedShape(address, handled, bits, shelf.place);
      if table == [] {
        NoTable(next, shelf, address, handled, bits);
        return NULL;
      }
      var b := HashBits(pending, bits);
      BucketIs(next, shelf, address, handled, bits, pending);
      t := table[b];
      ghost var s, i := shelf.lists[b], 0;
      while t != NULL
        invariant 0 <= i <= |s| && t == if i < |s| then s[i] else NULL
        invariant forall j | 0 <= j < i :: address[s[j]] != pending
        decreases |s| - i
      {
        if address[t] == pending {
          return;
        }
        t := next[t];
        i := i + 1;
      }
    }

    /** A completed task leaves the table when its completion is delivered; one
        that still runs keeps its handle. */
    method Retire(t: nat, running: bool)
      requires Valid() && t < |handled|
      modifies this`next, this`table, this`handled, this`count, this`shelf
      ensures Valid() && bits == old(bits)
      ensures handled == if running then old(handled) else old(handled)[t := false]
    {
      hide Distinguished, Holds, Placed, HashBits, Handles, Pow2;
      PlacedShape(address, handled, bits, shelf.place);
      if running || !handled[t] {
        return;
      }
      var b := HashBits(address[t], bits);
      ghost var k := HoldsAt(next, shelf, t);
      PlacedRemove(address, handled, bits, shelf.place, t);
      HandlesRemove(handled, t);
      FiledOutShelf(next, shelf, t, k);
      var next', first := Unlink(next, table[b], shelf.lists[b], t, k);
      next, table := next', table[b := first];
      shelf := Shelf(table, shelf.lists[b := Without(shelf.lists[b], k)], shelf.place[t := -1]);
      handled, count := handled[t := false], count - 1;
    }
  }

  lemma PlacedShape(address: seq<nat>, handled: seq<bool>, bits: nat, place: seq<int>)
    requires Placed(address, handled, bits, place)
    ensures |address| == |handled| == |place| && bits <= MAX_BITS
    ensures forall t | 0 <= t < |handled| :: place[t] == if handled[t] then HashBits(address[t], bits) else -1
  {
  }

  lemma DistinguishedAdd(address: seq<nat>, a: nat)
    requires Distinguished(address) && a !in address
    ensures Distinguished(address + [a])
  {
  }

  lemma HoldsNew(next: seq<Ref>, s: Shelf, b: nat)
    requires Holds(next, s) && b < |s.table|
    ensures |s.table| == |s.lists| && |next| == |s.place|
    ensures Holds(next + [s.table[b]], Shelf(s.table[b := |next|], s.lists[b := [|next|] + s.lists[b]], s.place + [b]))
  {
    var t := |next|;
    FiledGrow(next, s.table, s.lists, s.place);
    FiledIn(next + [NULL], s.table, s.lists, s.place + [-1], t, b);
    assert (next + [NULL])[t := s.table[b]] == next + [s.table[b]] && (s.place + [-1])[t := b] == s.place + [b];
    hide Filed;
  }

  lemma HoldsAt(next: seq<Ref>, s: Shelf, t: nat) returns (k: nat)
    requires Holds(next, s) && t < |s.place| && s.place[t] >= 0
    ensures s.place[t] < |s.table| == |s.lists| && |next| == |s.place| && k < |s.lists[s.place[t]]|
    ensures s.lists[s.place[t]][k] == t && Linked(next, s.table[s.place[t]], s.lists[s.place[t]])
  {
    k := FiledAt(next, s.table, s.lists, s.place, t);
  }

  lemma FiledOutShelf(next: seq<Ref>, s: Shelf, t: nat, k: nat)
    requires Holds(next, s) && t < |s.place| && 0 <= s.place[t] < |s.lists|
    requires k < |s.lists[s.place[t]]| && s.lists[s.place[t]][k] == t
    ensures |s.table| == |s.lists| && |next| == |s.place| &&
            forall i | 0 <= i < |s.lists[s.place[t]]| :: s.lists[s.place[t]][i] < |next|
    ensures var b := s.place[t];
            Holds(RemoveNext(next, s.lists[b], k),
                  Shelf(s.table[b := if k == 0 then next[t] else s.table[b]], s.lists[b := Without(s.lists[b], k)],
                        s.place[t := -1]))
  {
    FiledOut(next, s.table, s.lists, s.place, t, k);
  }

  lemma NoTable(next: seq<Ref>, s: Shelf, address: seq<nat>, handled: seq<bool>, bits: nat)
    requires Holds(next, s) && Placed(address, handled, bits, s.place) && s.table == []
    ensures forall t | 0 <= t < |handled| :: !handled[t]
  {
  }

  /** The bucket of an address holds exactly the handled tasks that hash to it. */
  lemma BucketIs(next: seq<Ref>, s: Shelf, address: seq<nat>, handled: seq<bool>, bits: nat, pending: nat)
    requires Holds(next, s) && Placed(address, handled, bits, s.place) && |s.table| == Pow2(bits)
    ensures var b := HashBits(pending, bits);
            b < |s.lists| == |s.table| && Linked(next, s.table[b], s.lists[b]) && |next| == |handled| == |address| &&
            (forall i | 0 <= i < |s.lists[b]| :: s.lists[b][i] < |handled| && handled[s.lists[b][i]]) &&
            forall t | 0 <= t < |handled| && handled[t] && address[t] == pending :: t in s.lists[b]
  {
    hide Linked;
    FiledList(next, s.table, s.lists, s.place, HashBits(pending, bits));
  }
}
